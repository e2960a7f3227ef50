/**
 * ExprConverter: rewrites an AGREE expression for Redlog.  Identifiers are
 * scope-prefixed, `pre e` becomes `e` read under a marker prefix one order
 * higher, if-then-else is expanded into and/or/not, and node calls are
 * inlined by substituting the actual arguments for the formals.  Along the
 * way the converter records which names occur at which temporal order.
 *
 * The recursion mutates two fields of the Java object (the node-call
 * bindings and the order table); `Reconstruct` is its specification as a
 * function that threads those two fields as a `ConvState`, and
 * `Converter.ExprReconstruct` is the method on the object, proved equal to it.
 */
module ExprConverter {
  import opened Wrappers
  import opened Text
  import opened Ast
  import Builder = RedlogAstBuilder

  /** The exceptions the conversion can raise. */
  datatype Failure =
    | Unsupported(construct: Expr)   // AgreeException for a construct it does not handle
    | NullPointer                    // converting the null of a missing binding
    | NullOperand                    // a jkind constructor given the null of an unknown node call
    | IndexOutOfBounds               // too few arguments, or a node without equations
    | OutOfFuel                      // node inlining deeper than the fuel (a stack overflow in Java)

  /** The text of an exception, as Java builds it. */
  function Message(f: Failure): string {
    match f
    case Unsupported(e) => Builder.PrefixMessage + Render(e)
    case NullPointer => "NullPointerException"
    case NullOperand => "NullPointerException"
    case IndexOutOfBounds => "IndexOutOfBoundsException"
    case OutOfFuel => "StackOverflowError"
  }

  /** The constructs the conversion has a case for. */
  predicate Handled(e: Expr) {
    || e.BoolExpr? || e.IntExpr? || e.RealExpr? || e.IdExpr? || e.RecordAccessExpr? || e.UnaryExpr?
    || e.BinaryExpr? || e.IfThenElseExpr? || e.NodeCallExpr?
  }

  /** The two mutable fields: the current node-call bindings (null outside a call) and the order table. */
  datatype ConvState = ConvState(bindings: Option<map<string, Expr>>, info: map<nat, set<string>>)

  datatype Step = Step(out: Option<Expr>, st: ConvState)

  function Mode(st: ConvState): nat {
    if st.bindings.Some? then 1 else 0
  }

  /** The order table after recording `name` at `order`. */
  function Record(info: map<nat, set<string>>, order: nat, name: string): map<nat, set<string>> {
    info[order := (if order in info then info[order] else {}) + {name}]
  }

  /** No name is ever removed from the order table. */
  predicate Grows(a: map<nat, set<string>>, b: map<nat, set<string>>) {
    forall k :: k in a ==> k in b && a[k] <= b[k]
  }

  /** The first node with the given name, as the search loop finds it. */
  function FindNode(nodes: seq<Node>, name: string): (r: Option<Node>)
    ensures r.Some? ==> r.value in nodes && r.value.nid == name
    ensures r.None? ==> forall k :: 0 <= k < |nodes| ==> nodes[k].nid != name
  {
    if nodes == [] then None
    else if nodes[0].nid == name then Some(nodes[0])
    else FindNode(nodes[1..], name)
  }

  /** Formals bound to actuals by position; a later formal with the same name overwrites. */
  function Bind(inputs: seq<VarDecl>, args: seq<Expr>, m: map<string, Expr>): map<string, Expr>
    requires |inputs| <= |args|
  {
    if inputs == [] then m else Bind(inputs[1..], args[1..], m[inputs[0].id := args[0]])
  }

  /** Every formal is bound, and each binding is an actual or was already there. */
  lemma {:induction false} BindBinds(inputs: seq<VarDecl>, args: seq<Expr>, m: map<string, Expr>)
    requires |inputs| <= |args|
    ensures Bind(inputs, args, m).Keys == m.Keys + InputNames(inputs)
    ensures forall x :: x in Bind(inputs, args, m) ==>
      (x in m && Bind(inputs, args, m)[x] == m[x]) || Bind(inputs, args, m)[x] in args
  {
    if inputs != [] {
      var m' := m[inputs[0].id := args[0]];
      BindBinds(inputs[1..], args[1..], m');
      assert InputNames(inputs) == {inputs[0].id} + InputNames(inputs[1..]) by {
        forall x | x in InputNames(inputs) ensures x in {inputs[0].id} + InputNames(inputs[1..]) {
          var k :| 0 <= k < |inputs| && inputs[k].id == x;
          if k > 0 {
            assert inputs[1..][k - 1] == inputs[k];
          }
        }
        forall x | x in InputNames(inputs[1..]) ensures x in InputNames(inputs) {
          var k :| 0 <= k < |inputs[1..]| && inputs[1..][k].id == x;
          assert inputs[k + 1] == inputs[1..][k];
        }
      }
      forall x | x in Bind(inputs, args, m)
        ensures (x in m && Bind(inputs, args, m)[x] == m[x]) || Bind(inputs, args, m)[x] in args
      {
        var v := Bind(inputs, args, m)[x];
        if v in args[1..] {
          var k :| 0 <= k < |args[1..]| && args[1..][k] == v;
          assert args[k + 1] == v;
        }
      }
    }
  }

  function InputNames(inputs: seq<VarDecl>): set<string> {
    set k | 0 <= k < |inputs| :: inputs[k].id
  }

  /** The constructs the Redlog back end can print: no `pre`, no if-then-else, no node call. */
  predicate Flat(e: Expr) {
    match e
    case BoolExpr(_) => true
    case IntExpr(_) => true
    case RealExpr(_) => true
    case IdExpr(_) => true
    case RecordAccessExpr(r, _) => Flat(r)
    case UnaryExpr(op, x) => op != Pre && Flat(x)
    case BinaryExpr(l, _, r) => Flat(l) && Flat(r)
    case _ => false
  }

  function IfThenElseExpansion(c: Expr, t: Expr, f: Expr): Expr {
    BinaryExpr(BinaryExpr(c, And, t), Or, BinaryExpr(UnaryExpr(Not, c), And, f))
  }

  /**
   * exprReconstruct.  Fuel bounds the depth of node inlining; the result's
   * `out` is None where Java returns null (a call to an unknown node).  The
   * cases with more than one recursive call are written as their own
   * functions, one per construct.
   */
  function Reconstruct(nodes: seq<Node>, e: Expr, prefix: string, order: nat, st: ConvState, fuel: nat): (r: Result<Step, Failure>)
    ensures r.Ok? ==> Mode(r.value.st) <= Mode(st)
    decreases fuel, Mode(st), e, 2
  {
    if e.BoolExpr? || e.RealExpr? || e.IntExpr? then Ok(Step(Some(e), st))
    else if e.IdExpr? then ReconstructId(nodes, e.id, prefix, order, st, fuel)
    else if e.RecordAccessExpr? then ReconstructRecordAccess(nodes, e.record, e.field, prefix, order, st, fuel)
    else if e.UnaryExpr? then ReconstructUnary(nodes, e.uop, e.operand, prefix, order, st, fuel)
    else if e.BinaryExpr? then ReconstructBinary(nodes, e.left, e.bop, e.right, prefix, order, st, fuel)
    else if e.IfThenElseExpr? then ReconstructIfThenElse(nodes, e.cond, e.thenExpr, e.elseExpr, prefix, order, st, fuel)
    else if e.NodeCallExpr? then ReconstructCall(nodes, e.node, e.args, prefix, order, st, fuel)
    else Err(Unsupported(e))
  }

  /** An identifier: outside a node call it is prefixed and recorded at the current order. */
  function ReconstructId(nodes: seq<Node>, id: string, prefix: string, order: nat, st: ConvState, fuel: nat): (r: Result<Step, Failure>)
    ensures r.Ok? ==> Mode(r.value.st) <= Mode(st)
    decreases fuel, Mode(st), IdExpr(id), 1
  {
    if st.bindings.None? then
      var name := prefix + id;
      Ok(Step(Some(IdExpr(name)), st.(info := Record(st.info, order, name))))
    else ReconstructBound(nodes, id, prefix, order, st, fuel)
  }

  function ReconstructRecordAccess(nodes: seq<Node>, rec: Expr, field: string, prefix: string, order: nat,
                                   st: ConvState, fuel: nat): (r: Result<Step, Failure>)
    ensures r.Ok? ==> Mode(r.value.st) <= Mode(st)
    decreases fuel, Mode(st), RecordAccessExpr(rec, field), 1
  {
    var x := Reconstruct(nodes, rec, prefix, order, st, fuel);
    if x.Err? then x
    else if x.value.out.None? then Err(NullOperand)
    else Ok(Step(Some(RecordAccessExpr(x.value.out.value, field)), x.value.st))
  }

  /** `pre e` is `e` one order higher with the marker on the prefix; other operators are kept. */
  function ReconstructUnary(nodes: seq<Node>, op: UnaryOp, operand: Expr, prefix: string, order: nat,
                            st: ConvState, fuel: nat): (r: Result<Step, Failure>)
    ensures r.Ok? ==> Mode(r.value.st) <= Mode(st)
    decreases fuel, Mode(st), UnaryExpr(op, operand), 1
  {
    if op == Pre then Reconstruct(nodes, operand, Builder.PreSuffix + prefix, order + 1, st, fuel)
    else
      var x := Reconstruct(nodes, operand, prefix, order, st, fuel);
      if x.Err? then x
      else if x.value.out.None? then Err(NullOperand)
      else Ok(Step(Some(UnaryExpr(op, x.value.out.value)), x.value.st))
  }

  /** An identifier inside a node call: its argument, converted with the bindings hidden, which are restored after. */
  function ReconstructBound(nodes: seq<Node>, id: string, prefix: string, order: nat, st: ConvState, fuel: nat): (r: Result<Step, Failure>)
    requires st.bindings.Some?
    ensures r.Ok? ==> r.value.st.bindings == st.bindings
    decreases fuel, Mode(st), IdExpr(id), 0
  {
    var m := st.bindings.value;
    if id !in m then Err(NullPointer)
    else
      var arg := Reconstruct(nodes, m[id], prefix, order, st.(bindings := None), fuel);
      if arg.Err? then arg else Ok(Step(arg.value.out, arg.value.st.(bindings := Some(m))))
  }

  /** A binary expression: left operand, then right operand, then the operator over both. */
  function ReconstructBinary(nodes: seq<Node>, l: Expr, op: BinaryOp, rt: Expr, prefix: string, order: nat,
                             st: ConvState, fuel: nat): (r: Result<Step, Failure>)
    ensures r.Ok? ==> Mode(r.value.st) <= Mode(st)
    decreases fuel, Mode(st), BinaryExpr(l, op, rt), 1
  {
    var a := Reconstruct(nodes, l, prefix, order, st, fuel);
    if a.Err? then a else
    var b := Reconstruct(nodes, rt, prefix, order, a.value.st, fuel);
    if b.Err? then b
    else if a.value.out.None? || b.value.out.None? then Err(NullOperand)
    else Ok(Step(Some(BinaryExpr(a.value.out.value, op, b.value.out.value)), b.value.st))
  }

  /** If-then-else: condition, then-branch, else-branch, expanded with the converted condition used twice. */
  function ReconstructIfThenElse(nodes: seq<Node>, c: Expr, t: Expr, f: Expr, prefix: string, order: nat,
                                 st: ConvState, fuel: nat): (r: Result<Step, Failure>)
    ensures r.Ok? ==> Mode(r.value.st) <= Mode(st)
    decreases fuel, Mode(st), IfThenElseExpr(c, t, f), 1
  {
    var c' := Reconstruct(nodes, c, prefix, order, st, fuel);
    if c'.Err? then c' else
    var t' := Reconstruct(nodes, t, prefix, order, c'.value.st, fuel);
    if t'.Err? then t'
    else if c'.value.out.None? || t'.value.out.None? then Err(NullOperand) else
    var f' := Reconstruct(nodes, f, prefix, order, t'.value.st, fuel);
    if f'.Err? then f'
    else if f'.value.out.None? then Err(NullOperand)
    else Ok(Step(Some(IfThenElseExpansion(c'.value.out.value, t'.value.out.value, f'.value.out.value)), f'.value.st))
  }

  /**
   * A node call: the first node of that name has its first equation
   * converted with fresh bindings, which are cleared afterwards; an
   * unknown node gives null.
   */
  function ReconstructCall(nodes: seq<Node>, n: string, args: seq<Expr>, prefix: string, order: nat,
                           st: ConvState, fuel: nat): (r: Result<Step, Failure>)
    ensures r.Ok? ==> Mode(r.value.st) <= Mode(st)
    decreases fuel, Mode(st), NodeCallExpr(n, args), 1
  {
    var found := FindNode(nodes, n);
    if found.None? then Ok(Step(None, st))
    else
      var node := found.value;
      if |args| < |node.inputs| || node.equations == [] then Err(IndexOutOfBounds)
      else if fuel == 0 then Err(OutOfFuel)
      else
        var body := Reconstruct(nodes, node.equations[0].rhs, prefix, order,
                                st.(bindings := Some(Bind(node.inputs, args, map[]))), fuel - 1);
        if body.Err? then body else Ok(Step(body.value.out, body.value.st.(bindings := None)))
  }

  /** The conclusion of `ReconstructShape`: the result is flat, and no recorded name is removed. */
  predicate Shaped(st: ConvState, r: Result<Step, Failure>) {
    r.Ok? ==> Grows(st.info, r.value.st.info) && (r.value.out.Some? ==> Flat(r.value.out.value))
  }

  /**
   * Whatever the conversion produces is flat (no `pre`, no if-then-else, no
   * node call left), and no recorded name is ever removed.
   */
  lemma {:induction false} ReconstructShape(nodes: seq<Node>, e: Expr, prefix: string, order: nat, st: ConvState, fuel: nat)
    ensures Shaped(st, Reconstruct(nodes, e, prefix, order, st, fuel))
    decreases fuel, Mode(st), e, 1
  {
    match e
    case IdExpr(id) =>
      if st.bindings.Some? {
        ShapeBound(nodes, id, prefix, order, st, fuel);
      }
    case RecordAccessExpr(rec, f) =>
      ReconstructShape(nodes, rec, prefix, order, st, fuel);
    case UnaryExpr(op, operand) =>
      if op == Pre {
        ReconstructShape(nodes, operand, Builder.PreSuffix + prefix, order + 1, st, fuel);
      } else {
        ReconstructShape(nodes, operand, prefix, order, st, fuel);
      }
    case BinaryExpr(l, op, rt) =>
      ShapeBinary(nodes, l, op, rt, prefix, order, st, fuel);
    case IfThenElseExpr(c, t, f) =>
      ShapeIfThenElse(nodes, c, t, f, prefix, order, st, fuel);
    case NodeCallExpr(n, args) =>
      ShapeCall(nodes, n, args, prefix, order, st, fuel);
    case _ =>
  }

  lemma {:induction false} ShapeBound(nodes: seq<Node>, id: string, prefix: string, order: nat, st: ConvState, fuel: nat)
    requires st.bindings.Some?
    ensures Shaped(st, ReconstructBound(nodes, id, prefix, order, st, fuel))
    decreases fuel, Mode(st), IdExpr(id), 0
  {
    if id in st.bindings.value {
      ReconstructShape(nodes, st.bindings.value[id], prefix, order, st.(bindings := None), fuel);
    }
  }

  lemma {:induction false} ShapeBinary(nodes: seq<Node>, l: Expr, op: BinaryOp, rt: Expr, prefix: string, order: nat,
                                       st: ConvState, fuel: nat)
    ensures Shaped(st, ReconstructBinary(nodes, l, op, rt, prefix, order, st, fuel))
    decreases fuel, Mode(st), BinaryExpr(l, op, rt), 0
  {
    var a := Reconstruct(nodes, l, prefix, order, st, fuel);
    ReconstructShape(nodes, l, prefix, order, st, fuel);
    if a.Ok? {
      var b := Reconstruct(nodes, rt, prefix, order, a.value.st, fuel);
      ReconstructShape(nodes, rt, prefix, order, a.value.st, fuel);
      if b.Ok? {
        GrowsTransitive(st.info, a.value.st.info, b.value.st.info);
      }
    }
  }

  lemma {:induction false} ShapeIfThenElse(nodes: seq<Node>, c: Expr, t: Expr, f: Expr, prefix: string, order: nat,
                                           st: ConvState, fuel: nat)
    ensures Shaped(st, ReconstructIfThenElse(nodes, c, t, f, prefix, order, st, fuel))
    decreases fuel, Mode(st), IfThenElseExpr(c, t, f), 0
  {
    var c' := Reconstruct(nodes, c, prefix, order, st, fuel);
    ReconstructShape(nodes, c, prefix, order, st, fuel);
    if c'.Ok? {
      var t' := Reconstruct(nodes, t, prefix, order, c'.value.st, fuel);
      ReconstructShape(nodes, t, prefix, order, c'.value.st, fuel);
      if t'.Ok? {
        GrowsTransitive(st.info, c'.value.st.info, t'.value.st.info);
        var f' := Reconstruct(nodes, f, prefix, order, t'.value.st, fuel);
        ReconstructShape(nodes, f, prefix, order, t'.value.st, fuel);
        if f'.Ok? {
          GrowsTransitive(st.info, t'.value.st.info, f'.value.st.info);
        }
      }
    }
  }

  lemma GrowsTransitive(a: map<nat, set<string>>, b: map<nat, set<string>>, c: map<nat, set<string>>)
    requires Grows(a, b) && Grows(b, c)
    ensures Grows(a, c)
  {
  }

  lemma {:induction false} ShapeCall(nodes: seq<Node>, n: string, args: seq<Expr>, prefix: string, order: nat,
                                     st: ConvState, fuel: nat)
    ensures Shaped(st, ReconstructCall(nodes, n, args, prefix, order, st, fuel))
    decreases fuel, Mode(st), NodeCallExpr(n, args), 0
  {
    var found := FindNode(nodes, n);
    if found.Some? && |args| >= |found.value.inputs| && found.value.equations != [] && fuel > 0 {
      var node := found.value;
      ReconstructShape(nodes, node.equations[0].rhs, prefix, order,
                       st.(bindings := Some(Bind(node.inputs, args, map[]))), fuel - 1);
    }
  }

  /** The method's result and new state agree with the specification function. */
  predicate Agrees(r: Result<Option<Expr>, Failure>, st: ConvState, spec: Result<Step, Failure>) {
    match spec
    case Ok(step) => r == Ok(step.out) && st == step.st
    case Err(f) => r == Err(f)
  }

  // ---------------------------------------------------------------------
  // Outside node calls: a structural reference for the conversion

  /** The constructs the conversion handles, with no node call among them. */
  predicate CallFree(e: Expr) {
    match e
    case BoolExpr(_) => true
    case IntExpr(_) => true
    case RealExpr(_) => true
    case IdExpr(_) => true
    case RecordAccessExpr(r, _) => CallFree(r)
    case UnaryExpr(_, x) => CallFree(x)
    case BinaryExpr(l, _, r) => CallFree(l) && CallFree(r)
    case IfThenElseExpr(c, t, f) => CallFree(c) && CallFree(t) && CallFree(f)
    case _ => false
  }

  /** No node call is reached by the conversion's recursion; unsupported constructs may be. */
  predicate NoCall(e: Expr) {
    match e
    case NodeCallExpr(_, _) => false
    case RecordAccessExpr(r, _) => NoCall(r)
    case UnaryExpr(_, x) => NoCall(x)
    case BinaryExpr(l, _, r) => NoCall(l) && NoCall(r)
    case IfThenElseExpr(c, t, f) => NoCall(c) && NoCall(t) && NoCall(f)
    case _ => true
  }

  /**
   * What the conversion produces: names prefixed, `pre` turned into a marker
   * on the prefix, if-then-else expanded, everything else kept.
   */
  function Translate(prefix: string, e: Expr): Expr
    requires CallFree(e)
    decreases e
  {
    match e
    case IdExpr(id) => IdExpr(prefix + id)
    case RecordAccessExpr(r, f) => RecordAccessExpr(Translate(prefix, r), f)
    case UnaryExpr(op, x) =>
      if op == Pre then Translate(Builder.PreSuffix + prefix, x) else UnaryExpr(op, Translate(prefix, x))
    case BinaryExpr(l, op, r) => BinaryExpr(Translate(prefix, l), op, Translate(prefix, r))
    case IfThenElseExpr(c, t, f) => IfThenElseExpansion(Translate(prefix, c), Translate(prefix, t), Translate(prefix, f))
    case _ => e
  }

  /** What the conversion records: each identifier's prefixed name, at the order of its depth under `pre`. */
  function Occurrences(prefix: string, order: nat, e: Expr): set<(nat, string)>
    requires CallFree(e)
    decreases e
  {
    match e
    case IdExpr(id) => {(order, prefix + id)}
    case RecordAccessExpr(r, _) => Occurrences(prefix, order, r)
    case UnaryExpr(op, x) =>
      if op == Pre then Occurrences(Builder.PreSuffix + prefix, order + 1, x) else Occurrences(prefix, order, x)
    case BinaryExpr(l, _, r) => Occurrences(prefix, order, l) + Occurrences(prefix, order, r)
    case IfThenElseExpr(c, t, f) =>
      Occurrences(prefix, order, c) + Occurrences(prefix, order, t) + Occurrences(prefix, order, f)
    case _ => {}
  }

  lemma PairsRecord(info: map<nat, set<string>>, order: nat, name: string)
    ensures Pairs(Record(info, order, name)) == Pairs(info) + {(order, name)}
  {
    var info' := Record(info, order, name);
    forall p | p in Pairs(info')
      ensures p in Pairs(info) + {(order, name)}
    {
      if p.0 != order {
        assert p.0 in info && p.1 in info[p.0];
      }
    }
    forall p | p in Pairs(info) + {(order, name)}
      ensures p in Pairs(info')
    {
      assert p.0 in info' && p.1 in info'[p.0];
    }
  }

  /**
   * Outside node calls the conversion of a call-free expression succeeds,
   * produces its translation, leaves the bindings null and adds exactly its
   * occurrences to the order table.
   */
  lemma {:induction false} ReconstructCallFree(nodes: seq<Node>, e: Expr, prefix: string, order: nat,
                                               info: map<nat, set<string>>, fuel: nat)
    requires CallFree(e)
    ensures var r := Reconstruct(nodes, e, prefix, order, ConvState(None, info), fuel);
      && r.Ok? && r.value.out == Some(Translate(prefix, e)) && r.value.st.bindings.None?
      && Pairs(r.value.st.info) == Pairs(info) + Occurrences(prefix, order, e)
  {
    var st := ConvState(None, info);
    match e
    case BoolExpr(_) =>
    case IntExpr(_) =>
    case RealExpr(_) =>
    case IdExpr(id) =>
      PairsRecord(info, order, prefix + id);
    case RecordAccessExpr(r, f) =>
      ReconstructCallFree(nodes, r, prefix, order, info, fuel);
    case UnaryExpr(op, x) =>
      if op == Pre {
        ReconstructCallFree(nodes, x, Builder.PreSuffix + prefix, order + 1, info, fuel);
      } else {
        ReconstructCallFree(nodes, x, prefix, order, info, fuel);
      }
    case BinaryExpr(l, op, rt) =>
      ReconstructCallFree(nodes, l, prefix, order, info, fuel);
      var a := Reconstruct(nodes, l, prefix, order, st, fuel);
      assert a.value.st == ConvState(None, a.value.st.info);
      ReconstructCallFree(nodes, rt, prefix, order, a.value.st.info, fuel);
    case IfThenElseExpr(c, t, f) =>
      ReconstructCallFree(nodes, c, prefix, order, info, fuel);
      var c' := Reconstruct(nodes, c, prefix, order, st, fuel);
      assert c'.value.st == ConvState(None, c'.value.st.info);
      ReconstructCallFree(nodes, t, prefix, order, c'.value.st.info, fuel);
      var t' := Reconstruct(nodes, t, prefix, order, c'.value.st, fuel);
      assert t'.value.st == ConvState(None, t'.value.st.info);
      ReconstructCallFree(nodes, f, prefix, order, t'.value.st.info, fuel);
  }

  /**
   * Outside node calls, an expression without calls fails exactly when it
   * holds a construct the conversion does not support, and then with the
   * rejection message.
   */
  lemma {:induction false} UnsupportedRejected(nodes: seq<Node>, e: Expr, prefix: string, order: nat,
                                               info: map<nat, set<string>>, fuel: nat)
    requires NoCall(e)
    ensures var r := Reconstruct(nodes, e, prefix, order, ConvState(None, info), fuel);
      && (r.Ok? <==> CallFree(e))
      && (r.Err? ==> r.error.Unsupported? && !Handled(r.error.construct)
                     && StartsWith(Message(r.error), Builder.PrefixMessage))
      && (r.Ok? ==> r.value.st.bindings.None?)
  {
    var st := ConvState(None, info);
    match e
    case BoolExpr(_) =>
    case IntExpr(_) =>
    case RealExpr(_) =>
    case IdExpr(id) =>
    case RecordAccessExpr(r, f) =>
      UnsupportedRejected(nodes, r, prefix, order, info, fuel);
      if CallFree(r) {
        ReconstructCallFree(nodes, r, prefix, order, info, fuel);
      }
    case UnaryExpr(op, x) =>
      if op == Pre {
        UnsupportedRejected(nodes, x, Builder.PreSuffix + prefix, order + 1, info, fuel);
      } else {
        UnsupportedRejected(nodes, x, prefix, order, info, fuel);
        if CallFree(x) {
          ReconstructCallFree(nodes, x, prefix, order, info, fuel);
        }
      }
    case BinaryExpr(l, op, rt) =>
      UnsupportedRejected(nodes, l, prefix, order, info, fuel);
      var a := Reconstruct(nodes, l, prefix, order, st, fuel);
      if a.Ok? {
        ReconstructCallFree(nodes, l, prefix, order, info, fuel);
        assert a.value.st == ConvState(None, a.value.st.info);
        UnsupportedRejected(nodes, rt, prefix, order, a.value.st.info, fuel);
        if CallFree(rt) {
          ReconstructCallFree(nodes, rt, prefix, order, a.value.st.info, fuel);
        }
      }
    case IfThenElseExpr(c, t, f) =>
      UnsupportedRejected(nodes, c, prefix, order, info, fuel);
      var c' := Reconstruct(nodes, c, prefix, order, st, fuel);
      if c'.Ok? {
        ReconstructCallFree(nodes, c, prefix, order, info, fuel);
        assert c'.value.st == ConvState(None, c'.value.st.info);
        UnsupportedRejected(nodes, t, prefix, order, c'.value.st.info, fuel);
        var t' := Reconstruct(nodes, t, prefix, order, c'.value.st, fuel);
        if t'.Ok? {
          ReconstructCallFree(nodes, t, prefix, order, c'.value.st.info, fuel);
          assert t'.value.st == ConvState(None, t'.value.st.info);
          UnsupportedRejected(nodes, f, prefix, order, t'.value.st.info, fuel);
          if CallFree(f) {
            ReconstructCallFree(nodes, f, prefix, order, t'.value.st.info, fuel);
          }
        }
      }
    case NodeCallExpr(_, _) =>
    case _ =>
      assert StartsWith(Message(Unsupported(e)), Builder.PrefixMessage);
  }

  /** Every binding is call-free. */
  predicate AllCallFree(m: map<string, Expr>) {
    forall x :: x in m ==> CallFree(m[x])
  }

  /** Each identifier replaced by its binding; identifiers without one are kept. */
  function Subst(m: map<string, Expr>, e: Expr): (r: Expr)
    requires CallFree(e) && AllCallFree(m)
    ensures CallFree(r)
  {
    match e
    case IdExpr(id) => if id in m then m[id] else e
    case RecordAccessExpr(r, f) => RecordAccessExpr(Subst(m, r), f)
    case UnaryExpr(op, x) => UnaryExpr(op, Subst(m, x))
    case BinaryExpr(l, op, r) => BinaryExpr(Subst(m, l), op, Subst(m, r))
    case IfThenElseExpr(c, t, f) => IfThenElseExpr(Subst(m, c), Subst(m, t), Subst(m, f))
    case _ => e
  }

  /** Every identifier of a call-free expression is one of `names`. */
  predicate Within(names: set<string>, e: Expr)
    requires CallFree(e)
  {
    match e
    case IdExpr(id) => id in names
    case RecordAccessExpr(r, _) => Within(names, r)
    case UnaryExpr(_, x) => Within(names, x)
    case BinaryExpr(l, _, r) => Within(names, l) && Within(names, r)
    case IfThenElseExpr(c, t, f) => Within(names, c) && Within(names, t) && Within(names, f)
    case _ => true
  }

  /** A call-free expression all of whose identifiers are bound in `m`. */
  predicate Bound(m: map<string, Expr>, e: Expr) {
    CallFree(e) && Within(m.Keys, e)
  }

  /**
   * Inside a node call, converting the body is converting the body with the
   * actual arguments substituted: each argument is converted at the place
   * of the formal, under the `pre`s around it there.
   */
  lemma {:induction false} ReconstructInCall(nodes: seq<Node>, e: Expr, prefix: string, order: nat,
                                             m: map<string, Expr>, info: map<nat, set<string>>, fuel: nat)
    requires Bound(m, e) && AllCallFree(m)
    ensures InCall(nodes, e, prefix, order, m, info, fuel)
    decreases e, 2
  {
    match e
    case BoolExpr(_) =>
    case IntExpr(_) =>
    case RealExpr(_) =>
    case IdExpr(id) =>
      ReconstructCallFree(nodes, m[id], prefix, order, info, fuel);
      assert Reconstruct(nodes, e, prefix, order, ConvState(Some(m), info), fuel)
        == ReconstructBound(nodes, id, prefix, order, ConvState(Some(m), info), fuel);
    case RecordAccessExpr(r, f) =>
      ReconstructInCall(nodes, r, prefix, order, m, info, fuel);
    case UnaryExpr(op, x) =>
      if op == Pre {
        ReconstructInCall(nodes, x, Builder.PreSuffix + prefix, order + 1, m, info, fuel);
      } else {
        ReconstructInCall(nodes, x, prefix, order, m, info, fuel);
      }
    case BinaryExpr(l, op, rt) =>
      InCallBinary(nodes, l, op, rt, prefix, order, m, info, fuel);
    case IfThenElseExpr(c, t, f) =>
      InCallIfThenElse(nodes, c, t, f, prefix, order, m, info, fuel);
  }

  /** The conclusion of `ReconstructInCall`. */
  ghost predicate InCall(nodes: seq<Node>, e: Expr, prefix: string, order: nat,
                         m: map<string, Expr>, info: map<nat, set<string>>, fuel: nat)
    requires CallFree(e) && AllCallFree(m)
  {
    var r := Reconstruct(nodes, e, prefix, order, ConvState(Some(m), info), fuel);
    && r.Ok? && r.value.out == Some(Translate(prefix, Subst(m, e))) && r.value.st.bindings == Some(m)
    && Pairs(r.value.st.info) == Pairs(info) + Occurrences(prefix, order, Subst(m, e))
  }

  lemma {:induction false} InCallBinary(nodes: seq<Node>, l: Expr, op: BinaryOp, rt: Expr, prefix: string, order: nat,
                                        m: map<string, Expr>, info: map<nat, set<string>>, fuel: nat)
    requires Bound(m, l) && Bound(m, rt)
    requires AllCallFree(m)
    ensures InCall(nodes, BinaryExpr(l, op, rt), prefix, order, m, info, fuel)
    decreases BinaryExpr(l, op, rt), 1
  {
    ReconstructInCall(nodes, l, prefix, order, m, info, fuel);
    var a := Reconstruct(nodes, l, prefix, order, ConvState(Some(m), info), fuel);
    var st1 := a.value.st;
    assert st1 == ConvState(Some(m), st1.info);
    ReconstructInCall(nodes, rt, prefix, order, m, st1.info, fuel);
    var b := Reconstruct(nodes, rt, prefix, order, st1, fuel);
    BinaryCompose(nodes, l, op, rt, prefix, order, ConvState(Some(m), info), fuel,
                  a.value.out.value, b.value.out.value, st1, b.value.st);
    assert Subst(m, BinaryExpr(l, op, rt)) == BinaryExpr(Subst(m, l), op, Subst(m, rt));
  }

  lemma {:induction false} InCallIfThenElse(nodes: seq<Node>, c: Expr, t: Expr, f: Expr, prefix: string, order: nat,
                                            m: map<string, Expr>, info: map<nat, set<string>>, fuel: nat)
    requires Bound(m, c) && Bound(m, t) && Bound(m, f)
    requires AllCallFree(m)
    ensures InCall(nodes, IfThenElseExpr(c, t, f), prefix, order, m, info, fuel)
    decreases IfThenElseExpr(c, t, f), 1
  {
    ReconstructInCall(nodes, c, prefix, order, m, info, fuel);
    var c' := Reconstruct(nodes, c, prefix, order, ConvState(Some(m), info), fuel);
    var st1 := c'.value.st;
    assert st1 == ConvState(Some(m), st1.info);
    ReconstructInCall(nodes, t, prefix, order, m, st1.info, fuel);
    var t' := Reconstruct(nodes, t, prefix, order, st1, fuel);
    var st2 := t'.value.st;
    assert st2 == ConvState(Some(m), st2.info);
    ReconstructInCall(nodes, f, prefix, order, m, st2.info, fuel);
    var f' := Reconstruct(nodes, f, prefix, order, st2, fuel);
    IfThenElseCompose(nodes, c, t, f, prefix, order, ConvState(Some(m), info), fuel,
                      c'.value.out.value, t'.value.out.value, f'.value.out.value, st1, st2, f'.value.st);
    assert Subst(m, IfThenElseExpr(c, t, f)) == IfThenElseExpr(Subst(m, c), Subst(m, t), Subst(m, f));
    UnionChain(Pairs(info), Pairs(st1.info), Pairs(st2.info), Pairs(f'.value.st.info),
               Occurrences(prefix, order, Subst(m, c)), Occurrences(prefix, order, Subst(m, t)),
               Occurrences(prefix, order, Subst(m, f)));
  }

  /** A binary expression whose operands convert to values: the operator over them. */
  lemma BinaryCompose(nodes: seq<Node>, l: Expr, op: BinaryOp, rt: Expr, prefix: string, order: nat, st: ConvState, fuel: nat,
                      a: Expr, b: Expr, st1: ConvState, st2: ConvState)
    requires Reconstruct(nodes, l, prefix, order, st, fuel) == Ok(Step(Some(a), st1))
    requires Reconstruct(nodes, rt, prefix, order, st1, fuel) == Ok(Step(Some(b), st2))
    ensures Reconstruct(nodes, BinaryExpr(l, op, rt), prefix, order, st, fuel) == Ok(Step(Some(BinaryExpr(a, op, b)), st2))
  {
  }

  /** An if-then-else whose three parts convert to values: their expansion. */
  lemma IfThenElseCompose(nodes: seq<Node>, c: Expr, t: Expr, f: Expr, prefix: string, order: nat, st: ConvState, fuel: nat,
                          c': Expr, t': Expr, f': Expr, st1: ConvState, st2: ConvState, st3: ConvState)
    requires Reconstruct(nodes, c, prefix, order, st, fuel) == Ok(Step(Some(c'), st1))
    requires Reconstruct(nodes, t, prefix, order, st1, fuel) == Ok(Step(Some(t'), st2))
    requires Reconstruct(nodes, f, prefix, order, st2, fuel) == Ok(Step(Some(f'), st3))
    ensures Reconstruct(nodes, IfThenElseExpr(c, t, f), prefix, order, st, fuel)
      == Ok(Step(Some(IfThenElseExpansion(c', t', f')), st3))
  {
  }

  lemma UnionChain<T>(a: set<T>, b: set<T>, c: set<T>, d: set<T>, x: set<T>, y: set<T>, z: set<T>)
    requires b == a + x && c == b + y && d == c + z
    ensures d == a + x + y + z
  {
  }

  /** Binding call-free arguments gives call-free bindings. */
  lemma BindCallFree(inputs: seq<VarDecl>, args: seq<Expr>)
    requires |inputs| <= |args| && forall k :: 0 <= k < |args| ==> CallFree(args[k])
    ensures AllCallFree(Bind(inputs, args, map[]))
  {
    var m := Bind(inputs, args, map[]);
    BindBinds(inputs, args, map[]);
    forall x | x in m
      ensures CallFree(m[x])
    {
      var k :| 0 <= k < |args| && args[k] == m[x];
    }
  }

  /** The first equation of a node with the actual arguments put in place of its inputs. */
  ghost function Inlined(node: Node, args: seq<Expr>): (r: Expr)
    requires |node.inputs| <= |args| && node.equations != [] && CallFree(node.equations[0].rhs)
    requires forall k :: 0 <= k < |args| ==> CallFree(args[k])
    ensures CallFree(r)
  {
    BindCallFree(node.inputs, args);
    Subst(Bind(node.inputs, args, map[]), node.equations[0].rhs)
  }

  /**
   * A call of a node whose body mentions only its inputs converts like its
   * body with the arguments substituted, prefixed and recorded in place.
   */
  lemma NodeCallInlined(nodes: seq<Node>, n: string, args: seq<Expr>, node: Node, prefix: string, order: nat,
                        info: map<nat, set<string>>, fuel: nat)
    requires FindNode(nodes, n) == Some(node) && |node.inputs| <= |args| && node.equations != [] && fuel > 0
    requires CallFree(node.equations[0].rhs) && Within(InputNames(node.inputs), node.equations[0].rhs)
    requires forall k :: 0 <= k < |args| ==> CallFree(args[k])
    ensures var r := Reconstruct(nodes, NodeCallExpr(n, args), prefix, order, ConvState(None, info), fuel);
      && r.Ok? && r.value.out == Some(Translate(prefix, Inlined(node, args))) && r.value.st.bindings.None?
      && Pairs(r.value.st.info) == Pairs(info) + Occurrences(prefix, order, Inlined(node, args))
  {
    var m := Bind(node.inputs, args, map[]);
    BindBinds(node.inputs, args, map[]);
    BindCallFree(node.inputs, args);
    assert m.Keys == InputNames(node.inputs);
    ReconstructInCall(nodes, node.equations[0].rhs, prefix, order, m, info, fuel - 1);
    assert InCall(nodes, node.equations[0].rhs, prefix, order, m, info, fuel - 1);
  }

  /**
   * A call of a node that is not in the program converts to Java's null,
   * and an operator applied to that null fails.
   */
  lemma UnknownNodeIsNull(nodes: seq<Node>, n: string, args: seq<Expr>, op: BinaryOp, rt: Expr, prefix: string,
                          order: nat, info: map<nat, set<string>>, fuel: nat)
    requires FindNode(nodes, n).None? && CallFree(rt)
    ensures Reconstruct(nodes, NodeCallExpr(n, args), prefix, order, ConvState(None, info), fuel)
      == Ok(Step(None, ConvState(None, info)))
    ensures Reconstruct(nodes, BinaryExpr(NodeCallExpr(n, args), op, rt), prefix, order, ConvState(None, info), fuel)
      == Err(NullOperand)
  {
    ReconstructCallFree(nodes, rt, prefix, order, info, fuel);
  }

  // ---------------------------------------------------------------------
  // Properties of the translation

  /** `n` nested `pre`s around an identifier: one name with `n` markers, recorded at order `n` higher. */
  lemma {:induction false} PreDepth(n: nat, prefix: string, order: nat, x: string)
    ensures CallFree(Builder.Pres(n, IdExpr(x)))
    ensures Translate(prefix, Builder.Pres(n, IdExpr(x))) == IdExpr(Repeat(Builder.PreSuffix, n) + prefix + x)
    ensures Occurrences(prefix, order, Builder.Pres(n, IdExpr(x))) == {(order + n, Repeat(Builder.PreSuffix, n) + prefix + x)}
  {
    if n > 0 {
      PreDepth(n - 1, Builder.PreSuffix + prefix, order + 1, x);
      Builder.RepeatSnoc(Builder.PreSuffix, n - 1);
      assert Repeat(Builder.PreSuffix, n - 1) + (Builder.PreSuffix + prefix) + x
          == Repeat(Builder.PreSuffix, n) + prefix + x;
    }
  }

  /** Every recorded name carries as many markers as its order is above the starting order. */
  lemma {:induction false} MarkersMatchOrder(prefix: string, order: nat, e: Expr)
    requires CallFree(e)
    ensures forall p :: p in Occurrences(prefix, order, e) ==>
      order <= p.0 && StartsWith(p.1, Repeat(Builder.PreSuffix, p.0 - order) + prefix)
    decreases e
  {
    match e
    case IdExpr(id) =>
      assert Repeat(Builder.PreSuffix, 0) + prefix == prefix;
      assert (prefix + id)[..|prefix|] == prefix;
    case RecordAccessExpr(r, _) =>
      MarkersMatchOrder(prefix, order, r);
    case UnaryExpr(op, x) =>
      if op == Pre {
        MarkersMatchOrder(Builder.PreSuffix + prefix, order + 1, x);
        forall p | p in Occurrences(prefix, order, e)
          ensures order <= p.0 && StartsWith(p.1, Repeat(Builder.PreSuffix, p.0 - order) + prefix)
        {
          Builder.RepeatSnoc(Builder.PreSuffix, p.0 - (order + 1));
          assert Repeat(Builder.PreSuffix, p.0 - (order + 1)) + (Builder.PreSuffix + prefix)
              == Repeat(Builder.PreSuffix, p.0 - order) + prefix;
        }
      } else {
        MarkersMatchOrder(prefix, order, x);
      }
    case BinaryExpr(l, _, r) =>
      MarkersMatchOrder(prefix, order, l);
      MarkersMatchOrder(prefix, order, r);
    case IfThenElseExpr(c, t, f) =>
      MarkersMatchOrder(prefix, order, c);
      MarkersMatchOrder(prefix, order, t);
      MarkersMatchOrder(prefix, order, f);
    case _ =>
  }

  /** The fragment both rewriters accept: no if-then-else, no node call, `pre` the only unary operator. */
  predicate PrefixFragment(e: Expr) {
    match e
    case BoolExpr(_) => true
    case IntExpr(_) => true
    case RealExpr(_) => true
    case IdExpr(_) => true
    case RecordAccessExpr(r, _) => PrefixFragment(r)
    case UnaryExpr(op, x) => op == Pre && PrefixFragment(x)
    case BinaryExpr(l, _, r) => PrefixFragment(l) && PrefixFragment(r)
    case _ => false
  }

  /** On that fragment the conversion produces what the builder's addPrefixToExpr produces. */
  lemma {:induction false} AgreesWithAddPrefix(prefix: string, e: Expr)
    requires PrefixFragment(e)
    ensures CallFree(e) && Builder.AddPrefixToExpr(prefix, e) == Ok(Translate(prefix, e))
    decreases e
  {
    match e
    case BoolExpr(_) =>
    case IntExpr(_) =>
    case RealExpr(_) =>
    case IdExpr(_) =>
    case RecordAccessExpr(r, _) =>
      AgreesWithAddPrefix(prefix, r);
    case UnaryExpr(op, x) =>
      AgreesWithAddPrefix(Builder.PreSuffix + prefix, x);
    case BinaryExpr(l, _, r) =>
      AgreesWithAddPrefix(prefix, l);
      AgreesWithAddPrefix(prefix, r);
  }

  // ---------------------------------------------------------------------
  // The order summary of the constructor

  /** A recorded name with every marker removed. */
  function Root(name: string): string {
    ReplaceAll(name, Builder.PreSuffix, "")
  }

  /** The (order, name) pairs of an order table. */
  function Pairs(info: map<nat, set<string>>): set<(nat, string)> {
    set k, n | k in info.Keys && n in info[k] :: (k, n)
  }

  /** `all` maps each root of `seen` to the highest order at which a name with that root was seen. */
  ghost predicate Summarises(seen: set<(nat, string)>, all: map<string, nat>) {
    && all.Keys == RootsOf(seen)
    && (forall root :: root in all ==> (root, all[root]) in RootOrders(seen))
    && (forall q :: q in RootOrders(seen) ==> q.0 in all && q.1 <= all[q.0])
  }

  /** The root names of the seen pairs. */
  function RootsOf(seen: set<(nat, string)>): set<string> {
    set p | p in seen :: Root(p.1)
  }

  /** Each seen pair as (root name, order). */
  function RootOrders(seen: set<(nat, string)>): set<(string, nat)> {
    set p | p in seen :: (Root(p.1), p.0)
  }

  /** The largest order recorded, 0 for an empty table. */
  ghost predicate IsMaxOrder(info: map<nat, set<string>>, m: nat) {
    (forall k :: k in info ==> k <= m) && (m == 0 || m in info)
  }

  /** One step of the summary loop, with the membership test on the root name. */
  function Note(all: map<string, nat>, root: string, order: nat): (r: map<string, nat>)
    ensures r.Keys == all.Keys + {root}
    ensures r[root] == if root in all && order <= all[root] then all[root] else order
    ensures forall x :: x in all && x != root ==> r[x] == all[x]
  {
    if root !in all then all[root := order]
    else if all[root] < order then all[root := order]
    else all
  }

  lemma NoteKeeps(seen: set<(nat, string)>, all: map<string, nat>, order: nat, name: string)
    requires Summarises(seen, all)
    ensures Summarises(seen + {(order, name)}, Note(all, Root(name), order))
  {
    var seen' := seen + {(order, name)};
    assert RootsOf(seen') == RootsOf(seen) + {Root(name)};
    assert RootOrders(seen') == RootOrders(seen) + {(Root(name), order)};
  }

  /** Summary steps as the Java code writes them: the membership test is on the marked name. */
  function NoteAsWritten(all: map<string, nat>, name: string, order: nat): Result<map<string, nat>, Failure> {
    var root := Root(name);
    if name !in all then Ok(all[root := order])
    else if root !in all then Err(NullPointer)
    else if all[root] < order then Ok(all[root := order])
    else Ok(all)
  }

  /** The summary as written, for the (order, name) pairs in the order the HashMap yields them. */
  function SummaryAsWritten(visits: seq<(nat, string)>, all: map<string, nat>): Result<map<string, nat>, Failure>
    decreases |visits|
  {
    if visits == [] then Ok(all)
    else
      var step := NoteAsWritten(all, visits[0].1, visits[0].0);
      if step.Err? then step else SummaryAsWritten(visits[1..], step.value)
  }

  lemma {:induction false} StripMarkers(n: nat, s: string)
    ensures Root(Repeat(Builder.PreSuffix, n) + s) == Root(s)
  {
    if n > 0 {
      assert Repeat(Builder.PreSuffix, n) + s == Builder.PreSuffix + (Repeat(Builder.PreSuffix, n - 1) + s);
      var t := Builder.PreSuffix + (Repeat(Builder.PreSuffix, n - 1) + s);
      assert t[..|Builder.PreSuffix|] == Builder.PreSuffix;
      assert t[|Builder.PreSuffix|..] == Repeat(Builder.PreSuffix, n - 1) + s;
      assert StartsWith(t, Builder.PreSuffix);
      assert Root(t) == "" + Root(t[|Builder.PreSuffix|..]);
      StripMarkers(n - 1, s);
    } else {
      assert Repeat(Builder.PreSuffix, n) + s == s;
    }
  }

  /**
   * For `pre^17(x) + pre(x)` the table holds orders 17 and 1, which share
   * a bucket of a 16-bucket HashMap and are visited 17 first.  The code as
   * written records order 1 for `x`, although `x` occurs at order 17.
   */
  lemma AsWrittenLosesHighestOrder()
    ensures SummaryAsWritten([(17, Repeat(Builder.PreSuffix, 17) + "x"), (1, Builder.PreSuffix + "x")], map[]) == Ok(map["x" := 1])
  {
    StripMarkers(17, "x");
    StripMarkers(1, "x");
    assert Repeat(Builder.PreSuffix, 1) + "x" == Builder.PreSuffix + "x";
    assert Root("x") == "x";
    assert Root(Builder.PreSuffix + "x") == "x";
    var step1 := NoteAsWritten(map[], Repeat(Builder.PreSuffix, 17) + "x", 17);
    assert step1 == Ok(map["x" := 17]);
    assert Builder.PreSuffix + "x" != "x";
    assert map["x" := 17]["x" := 1] == map["x" := 1];
    assert NoteAsWritten(map["x" := 17], Builder.PreSuffix + "x", 1) == Ok(map["x" := 1]);
    var visits := [(17, Repeat(Builder.PreSuffix, 17) + "x"), (1, Builder.PreSuffix + "x")];
    assert visits[1..] == [(1, Builder.PreSuffix + "x")];
    assert SummaryAsWritten(visits[1..][1..], map["x" := 1]) == Ok(map["x" := 1]);
    assert SummaryAsWritten(visits[1..], map["x" := 17]) == Ok(map["x" := 1]);
  }

  /** The pairs recording `names` at `order`. */
  function Tagged(order: nat, names: set<string>): set<(nat, string)> {
    set n | n in names :: (order, n)
  }

  lemma TaggedAdd(order: nat, names: set<string>, name: string)
    ensures Tagged(order, names + {name}) == Tagged(order, names) + {(order, name)}
  {
  }

  /** The inner loop of the summary: the names recorded at one order, in any order. */
  method NoteNames(ghost seen: set<(nat, string)>, all: map<string, nat>, order: nat, names: set<string>)
    returns (all': map<string, nat>)
    requires Summarises(seen, all)
    ensures Summarises(seen + Tagged(order, names), all')
  {
    all' := all;
    var rest := names;
    ghost var doneNames: set<string> := {};
    assert seen + Tagged(order, doneNames) == seen;
    while rest != {}
      invariant rest + doneNames == names && rest !! doneNames
      invariant Summarises(seen + Tagged(order, doneNames), all')
      decreases rest
    {
      var name :| name in rest;
      ghost var before := seen + Tagged(order, doneNames);
      NoteKeeps(before, all', order, name);
      all' := Note(all', Root(name), order);
      TaggedAdd(order, doneNames, name);
      assert before + {(order, name)} == seen + Tagged(order, doneNames + {name});
      rest := rest - {name};
      doneNames := doneNames + {name};
    }
    assert doneNames == names;
  }

  /**
   * The loop of the constructor over the order table, in whatever order the
   * keys come: the highest order, and each root name's highest order.
   */
  method SummarizeTable(info: map<nat, set<string>>) returns (highest: nat, all: map<string, nat>)
    ensures IsMaxOrder(info, highest)
    ensures Summarises(Pairs(info), all)
  {
    highest := 0;
    all := map[];
    var keys := info.Keys;
    ghost var done: set<nat> := {};
    ghost var seen: set<(nat, string)> := {};
    while keys != {}
      invariant keys + done == info.Keys && keys !! done
      invariant seen == set k, n | k in done && n in info[k] :: (k, n)
      invariant (forall k :: k in done ==> k <= highest) && (highest == 0 || highest in done)
      invariant Summarises(seen, all)
      decreases keys
    {
      var order :| order in keys;
      if highest < order {
        highest := order;
      }
      all := NoteNames(seen, all, order, info[order]);
      seen := seen + Tagged(order, info[order]);
      keys := keys - {order};
      done := done + {order};
    }
    assert done == info.Keys;
    assert seen == Pairs(info);
  }

  class Converter {
    const globalLustreNodes: seq<Node>
    const originalExpr: Expr
    var currentNodeCallArgs: Option<map<string, Expr>>
    var localVarOrderInfo: map<nat, set<string>>
    var prefixedExpr: Option<Expr>
    var orderOfOrigExpr: nat
    var zeroOrderVarList: Option<set<string>>
    var allVarAndHighestOrder: map<string, nat>
    /** The exception the Java constructor would throw, if any. */
    var failure: Option<Failure>

    function State(): ConvState
      reads this
    {
      ConvState(currentNodeCallArgs, localVarOrderInfo)
    }

    constructor (origExpr: Expr, prefix: string, nodes: seq<Node>, fuel: nat)
      ensures globalLustreNodes == nodes && originalExpr == origExpr
      ensures var spec := Reconstruct(nodes, origExpr, prefix, 0, ConvState(None, map[]), fuel);
        match spec
        case Err(f) => failure == Some(f)
        case Ok(step) =>
          && failure == None
          && prefixedExpr == step.out
          && localVarOrderInfo == step.st.info
          && IsMaxOrder(localVarOrderInfo, orderOfOrigExpr)
          && zeroOrderVarList == (if 0 in localVarOrderInfo then Some(localVarOrderInfo[0]) else None)
          && Summarises(Pairs(localVarOrderInfo), allVarAndHighestOrder)
    {
      globalLustreNodes := nodes;
      originalExpr := origExpr;
      currentNodeCallArgs := None;
      orderOfOrigExpr := 0;
      localVarOrderInfo := map[];
      allVarAndHighestOrder := map[];
      zeroOrderVarList := None;
      prefixedExpr := None;
      failure := None;
      new;
      var r := ExprReconstruct(origExpr, prefix, 0, fuel);
      if r.Err? {
        failure := Some(r.error);
      } else {
        prefixedExpr := r.value;
        Summarize();
      }
    }

    method ExprReconstruct(e: Expr, prefix: string, order: nat, fuel: nat) returns (r: Result<Option<Expr>, Failure>)
      modifies this`currentNodeCallArgs, this`localVarOrderInfo
      ensures Agrees(r, State(), Reconstruct(globalLustreNodes, e, prefix, order, old(State()), fuel))
      decreases fuel, Mode(State()), e, 2
    {
      if e.BoolExpr? || e.RealExpr? || e.IntExpr? {
        r := Ok(Some(e));
      } else if e.IdExpr? {
        r := ReconstructIdExpr(e.id, prefix, order, fuel);
      } else if e.RecordAccessExpr? {
        r := ReconstructRecordAccessExpr(e.record, e.field, prefix, order, fuel);
      } else if e.UnaryExpr? {
        r := ReconstructUnaryExpr(e.uop, e.operand, prefix, order, fuel);
      } else if e.BinaryExpr? {
        r := ReconstructBinaryExpr(e.left, e.bop, e.right, prefix, order, fuel);
      } else if e.IfThenElseExpr? {
        r := ReconstructIfThenElseExpr(e.cond, e.thenExpr, e.elseExpr, prefix, order, fuel);
      } else if e.NodeCallExpr? {
        r := ReconstructNodeCall(e.node, e.args, prefix, order, fuel);
      } else {
        r := Err(Unsupported(e));
      }
    }

    method ReconstructIdExpr(id: string, prefix: string, order: nat, fuel: nat) returns (r: Result<Option<Expr>, Failure>)
      modifies this`currentNodeCallArgs, this`localVarOrderInfo
      ensures Agrees(r, State(), ReconstructId(globalLustreNodes, id, prefix, order, old(State()), fuel))
      decreases fuel, Mode(State()), IdExpr(id), 1
    {
      if currentNodeCallArgs.None? {
        var name := prefix + id;
        localVarOrderInfo := Record(localVarOrderInfo, order, name);
        r := Ok(Some(IdExpr(name)));
      } else {
        r := ReconstructBoundId(id, prefix, order, fuel);
      }
    }

    method ReconstructRecordAccessExpr(rec: Expr, field: string, prefix: string, order: nat, fuel: nat)
      returns (r: Result<Option<Expr>, Failure>)
      modifies this`currentNodeCallArgs, this`localVarOrderInfo
      ensures Agrees(r, State(), ReconstructRecordAccess(globalLustreNodes, rec, field, prefix, order, old(State()), fuel))
      decreases fuel, Mode(State()), RecordAccessExpr(rec, field), 1
    {
      var x := ExprReconstruct(rec, prefix, order, fuel);
      if x.Err? {
        r := x;
      } else if x.value.None? {
        r := Err(NullOperand);
      } else {
        r := Ok(Some(RecordAccessExpr(x.value.value, field)));
      }
    }

    method ReconstructUnaryExpr(op: UnaryOp, operand: Expr, prefix: string, order: nat, fuel: nat)
      returns (r: Result<Option<Expr>, Failure>)
      modifies this`currentNodeCallArgs, this`localVarOrderInfo
      ensures Agrees(r, State(), ReconstructUnary(globalLustreNodes, op, operand, prefix, order, old(State()), fuel))
      decreases fuel, Mode(State()), UnaryExpr(op, operand), 1
    {
      if op == Pre {
        r := ExprReconstruct(operand, Builder.PreSuffix + prefix, order + 1, fuel);
      } else {
        var x := ExprReconstruct(operand, prefix, order, fuel);
        if x.Err? {
          r := x;
        } else if x.value.None? {
          r := Err(NullOperand);
        } else {
          r := Ok(Some(UnaryExpr(op, x.value.value)));
        }
      }
    }

    method ReconstructBoundId(id: string, prefix: string, order: nat, fuel: nat) returns (r: Result<Option<Expr>, Failure>)
      requires currentNodeCallArgs.Some?
      modifies this`currentNodeCallArgs, this`localVarOrderInfo
      ensures Agrees(r, State(), ReconstructBound(globalLustreNodes, id, prefix, order, old(State()), fuel))
      decreases fuel, Mode(State()), IdExpr(id), 0
    {
      var m := currentNodeCallArgs.value;
      if id !in m {
        return Err(NullPointer);
      }
      var temp := currentNodeCallArgs;
      currentNodeCallArgs := None;
      r := ExprReconstruct(m[id], prefix, order, fuel);
      if r.Ok? {
        currentNodeCallArgs := temp;
      }
    }

    method ReconstructBinaryExpr(l: Expr, op: BinaryOp, rt: Expr, prefix: string, order: nat, fuel: nat)
      returns (r: Result<Option<Expr>, Failure>)
      modifies this`currentNodeCallArgs, this`localVarOrderInfo
      ensures Agrees(r, State(), ReconstructBinary(globalLustreNodes, l, op, rt, prefix, order, old(State()), fuel))
      decreases fuel, Mode(State()), BinaryExpr(l, op, rt), 1
    {
      ghost var spec := ReconstructBinary(globalLustreNodes, l, op, rt, prefix, order, State(), fuel);
      ghost var sa := Reconstruct(globalLustreNodes, l, prefix, order, State(), fuel);
      var a := ExprReconstruct(l, prefix, order, fuel);
      if a.Err? {
        assert spec == sa;
        return a;
      }
      ghost var sb := Reconstruct(globalLustreNodes, rt, prefix, order, State(), fuel);
      var b := ExprReconstruct(rt, prefix, order, fuel);
      if b.Err? {
        assert spec == sb;
        return b;
      }
      if a.value.None? || b.value.None? {
        return Err(NullOperand);
      }
      r := Ok(Some(BinaryExpr(a.value.value, op, b.value.value)));
      assert spec == Ok(Step(r.value, sb.value.st));
    }

    method ReconstructIfThenElseExpr(c: Expr, t: Expr, f: Expr, prefix: string, order: nat, fuel: nat)
      returns (r: Result<Option<Expr>, Failure>)
      modifies this`currentNodeCallArgs, this`localVarOrderInfo
      ensures Agrees(r, State(), ReconstructIfThenElse(globalLustreNodes, c, t, f, prefix, order, old(State()), fuel))
      decreases fuel, Mode(State()), IfThenElseExpr(c, t, f), 1
    {
      ghost var spec := ReconstructIfThenElse(globalLustreNodes, c, t, f, prefix, order, State(), fuel);
      ghost var sc := Reconstruct(globalLustreNodes, c, prefix, order, State(), fuel);
      var c' := ExprReconstruct(c, prefix, order, fuel);
      if c'.Err? {
        assert spec == sc;
        return c';
      }
      ghost var st := Reconstruct(globalLustreNodes, t, prefix, order, State(), fuel);
      var t' := ExprReconstruct(t, prefix, order, fuel);
      if t'.Err? {
        assert spec == st;
        return t';
      }
      if c'.value.None? || t'.value.None? {
        return Err(NullOperand);
      }
      ghost var sf := Reconstruct(globalLustreNodes, f, prefix, order, State(), fuel);
      var f' := ExprReconstruct(f, prefix, order, fuel);
      if f'.Err? {
        assert spec == sf;
        return f';
      }
      if f'.value.None? {
        return Err(NullOperand);
      }
      r := Ok(Some(IfThenElseExpansion(c'.value.value, t'.value.value, f'.value.value)));
      assert spec == Ok(Step(r.value, sf.value.st));
    }

    method ReconstructNodeCall(n: string, args: seq<Expr>, prefix: string, order: nat, fuel: nat)
      returns (r: Result<Option<Expr>, Failure>)
      modifies this`currentNodeCallArgs, this`localVarOrderInfo
      ensures Agrees(r, State(), ReconstructCall(globalLustreNodes, n, args, prefix, order, old(State()), fuel))
      decreases fuel, Mode(State()), NodeCallExpr(n, args), 1
    {
      var found := FindNode(globalLustreNodes, n);
      if found.None? {
        return Ok(None);
      }
      var node := found.value;
      if |args| < |node.inputs| || node.equations == [] {
        return Err(IndexOutOfBounds);
      }
      if fuel == 0 {
        return Err(OutOfFuel);
      }
      currentNodeCallArgs := Some(Bind(node.inputs, args, map[]));
      r := ExprReconstruct(node.equations[0].rhs, prefix, order, fuel - 1);
      if r.Ok? {
        currentNodeCallArgs := None;
      }
    }

    /** The summary loop of the constructor, storing its results in the fields. */
    method Summarize()
      modifies this`zeroOrderVarList, this`orderOfOrigExpr, this`allVarAndHighestOrder
      ensures IsMaxOrder(localVarOrderInfo, orderOfOrigExpr)
      ensures zeroOrderVarList == (if 0 in localVarOrderInfo then Some(localVarOrderInfo[0]) else None)
      ensures Summarises(Pairs(localVarOrderInfo), allVarAndHighestOrder)
    {
      var highest, all := SummarizeTable(localVarOrderInfo);
      zeroOrderVarList := if 0 in localVarOrderInfo then Some(localVarOrderInfo[0]) else None;
      orderOfOrigExpr := highest;
      allVarAndHighestOrder := all;
    }
  }
}
