/**
 * IdRewriteVisitor: a structural copy of a Lustre expression in which every
 * identifier is handed to a rewriter.  Arrays, tuples, quantified and
 * inductive-data expressions are rejected with an AgreeException, whose
 * message is the error value here.
 */
module IdRewrite {
  import opened Wrappers
  import opened Ast

  const ArrayMessage: string := "We do not support array expressions"
  const TupleMessage: string := "We do not currently support typles"
  const QuantMessage: string := "We do not support Quantified Expressions or Inductive Datatypes"

  /** No construct the visitor rejects occurs in `e`. */
  predicate Supported(e: Expr)
    decreases e, 1
  {
    match e
    case ArrayAccessExpr(_, _) => false
    case ArrayExpr(_) => false
    case ArrayUpdateExpr(_, _, _) => false
    case TupleExpr(_) => false
    case QuantExpr(_) => false
    case InductDataExpr(_) => false
    case BoolExpr(_) => true
    case IntExpr(_) => true
    case RealExpr(_) => true
    case IdExpr(_) => true
    case RecordAccessExpr(r, _) => Supported(r)
    case UnaryExpr(_, x) => Supported(x)
    case BinaryExpr(l, _, r) => Supported(l) && Supported(r)
    case IfThenElseExpr(c, t, f) => Supported(c) && Supported(t) && Supported(f)
    case NodeCallExpr(_, args) => AllSupported(args)
    case CastExpr(_, x) => Supported(x)
    case CondactExpr(c, _, cargs, ds) => Supported(c) && AllSupported(cargs) && AllSupported(ds)
    case RecordExpr(_, fs) => FieldsSupported(fs)
    case RecordUpdateExpr(r, _, v) => Supported(r) && Supported(v)
  }

  predicate AllSupported(es: seq<Expr>)
    decreases es, 0
  {
    es == [] || (Supported(es[0]) && AllSupported(es[1..]))
  }

  predicate FieldsSupported(fs: seq<(string, Expr)>)
    decreases fs, 0
  {
    fs == [] || (assert fs[0].1 < fs[0]; Supported(fs[0].1) && FieldsSupported(fs[1..]))
  }

  /** The visitor: children left to right, the first rejected construct ends the traversal. */
  function Rewrite(rw: string -> Expr, e: Expr): (r: Result<Expr, string>)
    ensures r.Ok? <==> Supported(e)
    decreases e, 1
  {
    match e
    case ArrayAccessExpr(_, _) => Err(ArrayMessage)
    case ArrayExpr(_) => Err(ArrayMessage)
    case ArrayUpdateExpr(_, _, _) => Err(ArrayMessage)
    case TupleExpr(_) => Err(TupleMessage)
    case QuantExpr(_) => Err(QuantMessage)
    case InductDataExpr(_) => Err(QuantMessage)
    case BoolExpr(b) => Ok(BoolExpr(b))
    case IntExpr(i) => Ok(IntExpr(i))
    case RealExpr(d) => Ok(RealExpr(d))
    case IdExpr(id) => Ok(rw(id))
    case RecordAccessExpr(rec, f) =>
      var rec' := Rewrite(rw, rec);
      if rec'.Err? then Err(rec'.error) else Ok(RecordAccessExpr(rec'.value, f))
    case UnaryExpr(op, x) =>
      var x' := Rewrite(rw, x);
      if x'.Err? then Err(x'.error) else Ok(UnaryExpr(op, x'.value))
    case BinaryExpr(l, op, rt) =>
      var l' := Rewrite(rw, l);
      if l'.Err? then Err(l'.error) else
      var rt' := Rewrite(rw, rt);
      if rt'.Err? then Err(rt'.error) else Ok(BinaryExpr(l'.value, op, rt'.value))
    case IfThenElseExpr(c, t, f) =>
      var c' := Rewrite(rw, c);
      if c'.Err? then Err(c'.error) else
      var t' := Rewrite(rw, t);
      if t'.Err? then Err(t'.error) else
      var f' := Rewrite(rw, f);
      if f'.Err? then Err(f'.error) else Ok(IfThenElseExpr(c'.value, t'.value, f'.value))
    case NodeCallExpr(n, args) =>
      var args' := RewriteList(rw, args);
      if args'.Err? then Err(args'.error) else Ok(NodeCallExpr(n, args'.value))
    case CastExpr(t, x) =>
      var x' := Rewrite(rw, x);
      if x'.Err? then Err(x'.error) else Ok(CastExpr(t, x'.value))
    case CondactExpr(c, n, cargs, ds) =>
      var c' := Rewrite(rw, c);
      if c'.Err? then Err(c'.error) else
      var cargs' := RewriteList(rw, cargs);
      if cargs'.Err? then Err(cargs'.error) else
      var ds' := RewriteList(rw, ds);
      if ds'.Err? then Err(ds'.error) else Ok(CondactExpr(c'.value, n, cargs'.value, ds'.value))
    case RecordExpr(id, fs) =>
      var fs' := RewriteFields(rw, fs);
      if fs'.Err? then Err(fs'.error) else Ok(RecordExpr(id, fs'.value))
    case RecordUpdateExpr(rec, f, v) =>
      var rec' := Rewrite(rw, rec);
      if rec'.Err? then Err(rec'.error) else
      var v' := Rewrite(rw, v);
      if v'.Err? then Err(v'.error) else Ok(RecordUpdateExpr(rec'.value, f, v'.value))
  }

  /** acceptList: the arguments rewritten pointwise, keeping their number. */
  function RewriteList(rw: string -> Expr, es: seq<Expr>): (r: Result<seq<Expr>, string>)
    ensures r.Ok? <==> AllSupported(es)
    ensures r.Ok? ==> |r.value| == |es|
    decreases es, 0
  {
    if es == [] then Ok([])
    else
      var head := Rewrite(rw, es[0]);
      if head.Err? then Err(head.error) else
      var tail := RewriteList(rw, es[1..]);
      if tail.Err? then Err(tail.error) else Ok([head.value] + tail.value)
  }

  /** The fields of a record, rewritten value by value under the same keys. */
  function RewriteFields(rw: string -> Expr, fs: seq<(string, Expr)>): (r: Result<seq<(string, Expr)>, string>)
    ensures r.Ok? <==> FieldsSupported(fs)
    ensures r.Ok? ==> FieldNames(r.value) == FieldNames(fs)
    decreases fs, 0
  {
    if fs == [] then Ok([])
    else
      assert fs[0].1 < fs[0];
      var head := Rewrite(rw, fs[0].1);
      if head.Err? then Err(head.error) else
      var tail := RewriteFields(rw, fs[1..]);
      if tail.Err? then Err(tail.error) else Ok([(fs[0].0, head.value)] + tail.value)
  }

  /** A rewriter that keeps every identifier. */
  function Keep(id: string): Expr {
    IdExpr(id)
  }

  /** With the identity rewriter the visitor copies every supported expression unchanged. */
  lemma {:induction false} IdentityRewrite(e: Expr)
    requires Supported(e)
    ensures Rewrite(Keep, e) == Ok(e)
    decreases e, 1
  {
    match e
    case BoolExpr(_) =>
    case IntExpr(_) =>
    case RealExpr(_) =>
    case IdExpr(_) =>
    case RecordAccessExpr(r, _) => IdentityRewrite(r);
    case UnaryExpr(_, x) => IdentityRewrite(x);
    case BinaryExpr(l, _, r) => IdentityRewrite(l); IdentityRewrite(r);
    case IfThenElseExpr(c, t, f) => IdentityRewrite(c); IdentityRewrite(t); IdentityRewrite(f);
    case NodeCallExpr(_, args) => IdentityRewriteList(args);
    case CastExpr(_, x) => IdentityRewrite(x);
    case CondactExpr(c, _, cargs, ds) => IdentityRewrite(c); IdentityRewriteList(cargs); IdentityRewriteList(ds);
    case RecordExpr(_, fs) => IdentityRewriteFields(fs);
    case RecordUpdateExpr(r, _, v) => IdentityRewrite(r); IdentityRewrite(v);
  }

  lemma {:induction false} IdentityRewriteList(es: seq<Expr>)
    requires AllSupported(es)
    ensures RewriteList(Keep, es) == Ok(es)
    decreases es, 0
  {
    if es != [] {
      IdentityRewrite(es[0]);
      IdentityRewriteList(es[1..]);
      assert [es[0]] + es[1..] == es;
    }
  }

  lemma {:induction false} IdentityRewriteFields(fs: seq<(string, Expr)>)
    requires FieldsSupported(fs)
    ensures RewriteFields(Keep, fs) == Ok(fs)
    decreases fs, 0
  {
    if fs != [] {
      assert fs[0].1 < fs[0];
      IdentityRewrite(fs[0].1);
      IdentityRewriteFields(fs[1..]);
      assert [(fs[0].0, fs[0].1)] + fs[1..] == fs;
    }
  }

  /** The identifiers occurring in an expression. */
  function Ids(e: Expr): set<string>
    decreases e, 1
  {
    match e
    case IdExpr(id) => {id}
    case RecordAccessExpr(r, _) => Ids(r)
    case UnaryExpr(_, x) => Ids(x)
    case BinaryExpr(l, _, r) => Ids(l) + Ids(r)
    case IfThenElseExpr(c, t, f) => Ids(c) + Ids(t) + Ids(f)
    case NodeCallExpr(_, args) => ListIds(args)
    case CastExpr(_, x) => Ids(x)
    case CondactExpr(c, _, cargs, ds) => Ids(c) + ListIds(cargs) + ListIds(ds)
    case RecordExpr(_, fs) => FieldIds(fs)
    case RecordUpdateExpr(r, _, v) => Ids(r) + Ids(v)
    case ArrayAccessExpr(a, i) => Ids(a) + Ids(i)
    case ArrayExpr(es) => ListIds(es)
    case ArrayUpdateExpr(a, i, v) => Ids(a) + Ids(i) + Ids(v)
    case TupleExpr(es) => ListIds(es)
    case _ => {}
  }

  function ListIds(es: seq<Expr>): set<string>
    decreases es, 0
  {
    if es == [] then {} else Ids(es[0]) + ListIds(es[1..])
  }

  function FieldIds(fs: seq<(string, Expr)>): set<string>
    decreases fs, 0
  {
    if fs == [] then {} else assert fs[0].1 < fs[0]; Ids(fs[0].1) + FieldIds(fs[1..])
  }

  function Image(f: string -> string, s: set<string>): set<string> {
    set x | x in s :: f(x)
  }

  lemma ImageUnion(f: string -> string, a: set<string>, b: set<string>)
    ensures Image(f, a + b) == Image(f, a) + Image(f, b)
  {
  }

  /** A rewriter that renames every identifier by `f`. */
  function Renamer(f: string -> string): string -> Expr {
    id => IdExpr(f(id))
  }

  /** Renaming by `f` leaves exactly the images under `f` of the original identifiers. */
  lemma {:induction false} RenameIds(f: string -> string, e: Expr)
    requires Supported(e)
    ensures Ids(Rewrite(Renamer(f), e).value) == Image(f, Ids(e))
    decreases e, 1
  {
    match e
    case BoolExpr(_) =>
    case IntExpr(_) =>
    case RealExpr(_) =>
    case IdExpr(id) =>
      assert Image(f, {id}) == {f(id)};
    case RecordAccessExpr(r, _) => RenameIds(f, r);
    case UnaryExpr(_, x) => RenameIds(f, x);
    case BinaryExpr(l, _, r) =>
      RenameIds(f, l); RenameIds(f, r);
      ImageUnion(f, Ids(l), Ids(r));
    case IfThenElseExpr(c, t, g) =>
      RenameIds(f, c); RenameIds(f, t); RenameIds(f, g);
      ImageUnion(f, Ids(c), Ids(t));
      ImageUnion(f, Ids(c) + Ids(t), Ids(g));
    case NodeCallExpr(_, args) => RenameIdsList(f, args);
    case CastExpr(_, x) => RenameIds(f, x);
    case CondactExpr(c, _, cargs, ds) =>
      RenameIds(f, c); RenameIdsList(f, cargs); RenameIdsList(f, ds);
      ImageUnion(f, Ids(c), ListIds(cargs));
      ImageUnion(f, Ids(c) + ListIds(cargs), ListIds(ds));
    case RecordExpr(_, fs) => RenameIdsFields(f, fs);
    case RecordUpdateExpr(r, _, v) =>
      RenameIds(f, r); RenameIds(f, v);
      ImageUnion(f, Ids(r), Ids(v));
  }

  lemma {:induction false} RenameIdsList(f: string -> string, es: seq<Expr>)
    requires AllSupported(es)
    ensures ListIds(RewriteList(Renamer(f), es).value) == Image(f, ListIds(es))
    decreases es, 0
  {
    if es != [] {
      RenameIds(f, es[0]);
      RenameIdsList(f, es[1..]);
      ImageUnion(f, Ids(es[0]), ListIds(es[1..]));
      var out := RewriteList(Renamer(f), es).value;
      assert out[1..] == RewriteList(Renamer(f), es[1..]).value;
    }
  }

  lemma {:induction false} RenameIdsFields(f: string -> string, fs: seq<(string, Expr)>)
    requires FieldsSupported(fs)
    ensures FieldIds(RewriteFields(Renamer(f), fs).value) == Image(f, FieldIds(fs))
    decreases fs, 0
  {
    if fs != [] {
      assert fs[0].1 < fs[0];
      RenameIds(f, fs[0].1);
      RenameIdsFields(f, fs[1..]);
      ImageUnion(f, Ids(fs[0].1), FieldIds(fs[1..]));
      var out := RewriteFields(Renamer(f), fs).value;
      assert out[1..] == RewriteFields(Renamer(f), fs[1..]).value;
    }
  }
}
