/**
 * The Redlog program AGREE hands to the quantifier-elimination tool: the
 * system's boundary variables, the component variables and contracts, the
 * connections, and the script text `toString` writes from them.
 */
module RedlogScript {
  import opened Wrappers
  import opened Text
  import opened Ast

  /** The exceptions building or printing a Redlog program can raise. */
  datatype Failure =
    | AgreeException(message: string)
    | NullArgument
    | ClassCast
    | StringIndexOutOfBounds
    | NoSuchElement

  const UnsupportedTypeMessage: string := "Redlog has not yet supportted type: "
  const SatMessage: string := "SAT problem solving using Redlog is not implemented yet."

  // ---------------------------------------------------------------------
  // Variable types and the domain

  datatype Flags = Flags(hasInt: bool, hasReal: bool)

  predicate HasType(vars: seq<VarDecl>, name: string) {
    exists k :: 0 <= k < |vars| && vars[k].vtype == NamedType(name)
  }

  /** The type scan of the constructor, from flags `f` on. */
  function ScanTypes(vars: seq<VarDecl>, f: Flags): Result<Flags, Failure>
  {
    if vars == [] then Ok(f)
    else
      match vars[0].vtype
      case OtherType(t) => Err(AgreeException(UnsupportedTypeMessage + t))
      case NamedType(n) =>
        if !f.hasInt && n == "int" then
          if f.hasReal then Ok(Flags(true, true)) else ScanTypes(vars[1..], Flags(true, false))
        else if !f.hasReal && n == "real" then
          if f.hasInt then Ok(Flags(true, true)) else ScanTypes(vars[1..], Flags(false, true))
        else ScanTypes(vars[1..], f)
  }

  /** A successful scan reports exactly which of `int` and `real` occur. */
  lemma {:induction false} ScanFindsTypes(vars: seq<VarDecl>, f: Flags)
    requires ScanTypes(vars, f).Ok?
    ensures ScanTypes(vars, f).value.hasInt == (f.hasInt || HasType(vars, "int"))
    ensures ScanTypes(vars, f).value.hasReal == (f.hasReal || HasType(vars, "real"))
  {
    if vars != [] {
      var n := vars[0].vtype.name;
      var g := if !f.hasInt && n == "int" then Flags(true, f.hasReal)
               else if !f.hasReal && n == "real" then Flags(f.hasInt, true)
               else f;
      if g.hasInt && g.hasReal && g != f {
        assert HasType(vars, n);
      } else {
        ScanFindsTypes(vars[1..], g);
        forall name ensures HasType(vars, name) == (vars[0].vtype == NamedType(name) || HasType(vars[1..], name)) {
          if HasType(vars, name) {
            var k :| 0 <= k < |vars| && vars[k].vtype == NamedType(name);
            if k > 0 {
              assert vars[1..][k - 1] == vars[k];
            }
          }
          if HasType(vars[1..], name) {
            var k :| 0 <= k < |vars[1..]| && vars[1..][k].vtype == NamedType(name);
            assert vars[k + 1] == vars[1..][k];
          }
        }
      }
    }
  }

  /** A scan over named types only never fails; a failing scan met a type that is not named. */
  lemma {:induction false} ScanRejectsOnlyUnnamed(vars: seq<VarDecl>, f: Flags)
    ensures (forall k :: 0 <= k < |vars| ==> vars[k].vtype.NamedType?) ==> ScanTypes(vars, f).Ok?
    ensures ScanTypes(vars, f).Err? ==> exists k :: 0 <= k < |vars| && vars[k].vtype.OtherType?
  {
    if vars != [] && vars[0].vtype.NamedType? {
      var n := vars[0].vtype.name;
      var g := if !f.hasInt && n == "int" then Flags(true, f.hasReal)
               else if !f.hasReal && n == "real" then Flags(f.hasInt, true)
               else f;
      ScanRejectsOnlyUnnamed(vars[1..], g);
      if ScanTypes(vars, f).Err? {
        var k :| 0 <= k < |vars[1..]| && vars[1..][k].vtype.OtherType?;
        assert vars[k + 1] == vars[1..][k];
      }
      if forall k :: 0 <= k < |vars| ==> vars[k].vtype.NamedType? {
        assert forall k :: 0 <= k < |vars[1..]| ==> vars[1..][k] == vars[k + 1];
      }
    }
  }

  /** Once both flags are set the scan stops: whatever follows is not looked at. */
  lemma ScanStopsWhenBothSeen(intVar: VarDecl, realVar: VarDecl, rest: seq<VarDecl>)
    requires intVar.vtype == NamedType("int") && realVar.vtype == NamedType("real")
    ensures ScanTypes([intVar, realVar] + rest, Flags(false, false)) == Ok(Flags(true, true))
  {
    assert ([intVar, realVar] + rest)[1..] == [realVar] + rest;
  }

  /** The `rlset` line: the reals when a real variable exists, the integers when only int ones do. */
  function Domain(f: Flags): (r: Result<string, Failure>)
    ensures r.Ok? <==> f.hasInt || f.hasReal
    ensures f.hasReal ==> r == Ok("rlset r$\r\n\r\n")
    ensures !f.hasReal && f.hasInt ==> r == Ok("rlset z$\r\n\r\n")
    ensures r.Err? ==> r.error == AgreeException(SatMessage)
  {
    if f.hasReal && f.hasInt then Ok("rlset r$\r\n\r\n")
    else if f.hasReal then Ok("rlset r$\r\n\r\n")
    else if f.hasInt then Ok("rlset z$\r\n\r\n")
    else Err(AgreeException(SatMessage))
  }

  /** The loop of `checkVarTypes`, on local flags. */
  method CheckVarTypes(vars: seq<VarDecl>, f: Flags) returns (r: Result<Flags, Failure>)
    ensures r == ScanTypes(vars, f)
  {
    var hasInt := f.hasInt;
    var hasReal := f.hasReal;
    var i := 0;
    while i < |vars|
      invariant 0 <= i <= |vars|
      invariant ScanTypes(vars, f) == ScanTypes(vars[i..], Flags(hasInt, hasReal))
    {
      assert vars[i..][1..] == vars[i + 1..];
      var v := vars[i];
      if !v.vtype.NamedType? {
        return Err(AgreeException(UnsupportedTypeMessage + v.vtype.text));
      } else if !hasInt && v.vtype.name == "int" {
        hasInt := true;
        if hasReal {
          return Ok(Flags(hasInt, hasReal));
        }
      } else if !hasReal && v.vtype.name == "real" {
        hasReal := true;
        if hasInt {
          return Ok(Flags(hasInt, hasReal));
        }
      }
      i := i + 1;
    }
    return Ok(Flags(hasInt, hasReal));
  }

  // ---------------------------------------------------------------------
  // Component variables attached to the system boundary

  function VarIds(vs: seq<VarDecl>): (r: seq<string>)
    ensures |r| == |vs| && forall k :: 0 <= k < |vs| ==> r[k] == vs[k].id
  {
    seq(|vs|, k requires 0 <= k < |vs| => vs[k].id)
  }

  function AddIfAbsent(acc: seq<string>, x: string, cond: bool): seq<string> {
    if cond && x !in acc then acc + [x] else acc
  }

  /** The list `findSysInputsOutputsAtComponentLevel` builds after the connections, starting from `acc`. */
  function Attached(conns: seq<AgreeStatement>, ins: seq<VarDecl>, outs: seq<VarDecl>, acc: seq<string>): Result<seq<string>, Failure>
    decreases |conns|
  {
    if conns == [] then Ok(acc)
    else
      match conns[0].expr
      case BinaryExpr(IdExpr(s), _, IdExpr(d)) =>
        Attached(conns[1..], ins, outs, AddIfAbsent(AddIfAbsent(acc, d, s in VarIds(ins)), s, d in VarIds(outs)))
      case _ => Err(ClassCast)
  }

  predicate IdPair(e: Expr) {
    e.BinaryExpr? && e.left.IdExpr? && e.right.IdExpr?
  }

  /** `x` is the far end of a connection from a system input or into a system output. */
  predicate AttachedEnd(e: Expr, ins: seq<VarDecl>, outs: seq<VarDecl>, x: string) {
    IdPair(e) &&
    ((e.left.id in VarIds(ins) && x == e.right.id) || (e.right.id in VarIds(outs) && x == e.left.id))
  }

  predicate NoDup(xs: seq<string>) {
    forall i, j :: 0 <= i < j < |xs| ==> xs[i] != xs[j]
  }

  /** The search fails exactly when a connection is not an equation between two identifiers. */
  lemma {:induction false} AttachedFails(conns: seq<AgreeStatement>, ins: seq<VarDecl>, outs: seq<VarDecl>, acc: seq<string>)
    ensures Attached(conns, ins, outs, acc).Err? <==> exists k :: 0 <= k < |conns| && !IdPair(conns[k].expr)
    ensures Attached(conns, ins, outs, acc).Err? ==> Attached(conns, ins, outs, acc).error == ClassCast
    decreases |conns|
  {
    if conns != [] {
      if IdPair(conns[0].expr) {
        var e := conns[0].expr;
        AttachedFails(conns[1..], ins, outs,
          AddIfAbsent(AddIfAbsent(acc, e.right.id, e.left.id in VarIds(ins)), e.left.id, e.right.id in VarIds(outs)));
        if exists k :: 0 <= k < |conns| && !IdPair(conns[k].expr) {
          var k :| 0 <= k < |conns| && !IdPair(conns[k].expr);
          assert conns[1..][k - 1] == conns[k];
        }
        if exists k :: 0 <= k < |conns[1..]| && !IdPair(conns[1..][k].expr) {
          var k :| 0 <= k < |conns[1..]| && !IdPair(conns[1..][k].expr);
          assert conns[k + 1] == conns[1..][k];
        }
      }
    }
  }

  /**
   * A successful search lists every far end of a boundary connection, and
   * nothing else beyond what `acc` held, each name once.
   */
  lemma {:induction false} AttachedMembers(conns: seq<AgreeStatement>, ins: seq<VarDecl>, outs: seq<VarDecl>, acc: seq<string>, x: string)
    requires Attached(conns, ins, outs, acc).Ok?
    requires NoDup(acc)
    ensures NoDup(Attached(conns, ins, outs, acc).value)
    ensures x in Attached(conns, ins, outs, acc).value <==>
      x in acc || exists k :: 0 <= k < |conns| && AttachedEnd(conns[k].expr, ins, outs, x)
    decreases |conns|
  {
    if conns != [] {
      var e := conns[0].expr;
      var s, d := e.left.id, e.right.id;
      var acc1 := AddIfAbsent(acc, d, s in VarIds(ins));
      var acc2 := AddIfAbsent(acc1, s, d in VarIds(outs));
      assert x in acc2 <==> x in acc || AttachedEnd(e, ins, outs, x);
      AttachedMembers(conns[1..], ins, outs, acc2, x);
      if exists k :: 0 <= k < |conns| && AttachedEnd(conns[k].expr, ins, outs, x) {
        var k :| 0 <= k < |conns| && AttachedEnd(conns[k].expr, ins, outs, x);
        if k > 0 {
          assert conns[1..][k - 1] == conns[k];
        }
      }
      if exists k :: 0 <= k < |conns[1..]| && AttachedEnd(conns[1..][k].expr, ins, outs, x) {
        var k :| 0 <= k < |conns[1..]| && AttachedEnd(conns[1..][k].expr, ins, outs, x);
        assert conns[k + 1] == conns[1..][k];
      }
    }
  }

  /** One inner loop of the search: `name` is added once some variable of `vars` is called `key`. */
  method AddIfMatched(acc: seq<string>, vars: seq<VarDecl>, key: string, name: string) returns (r: seq<string>)
    ensures r == AddIfAbsent(acc, name, key in VarIds(vars))
  {
    r := acc;
    var j := 0;
    while j < |vars|
      invariant 0 <= j <= |vars|
      invariant r == AddIfAbsent(acc, name, key in VarIds(vars[..j]))
    {
      assert VarIds(vars[..j + 1]) == VarIds(vars[..j]) + [vars[j].id];
      if vars[j].id == key && name !in r {
        r := r + [name];
      }
      j := j + 1;
    }
    assert vars[..j] == vars;
  }

  method FindSysInputsOutputsAtComponentLevel(conns: seq<AgreeStatement>, ins: seq<VarDecl>, outs: seq<VarDecl>)
    returns (r: Result<seq<string>, Failure>)
    ensures r == Attached(conns, ins, outs, [])
  {
    var acc: seq<string> := [];
    var i := 0;
    while i < |conns|
      invariant 0 <= i <= |conns|
      invariant Attached(conns, ins, outs, []) == Attached(conns[i..], ins, outs, acc)
    {
      assert conns[i..][1..] == conns[i + 1..];
      var e := conns[i].expr;
      if !IdPair(e) {
        return Err(ClassCast);
      }
      var source, destination := e.left.id, e.right.id;
      acc := AddIfMatched(acc, ins, source, destination);
      acc := AddIfMatched(acc, outs, destination, source);
      i := i + 1;
    }
    return Ok(acc);
  }

  // ---------------------------------------------------------------------
  // Contracts as formulas

  function Texts(es: seq<Expr>): (r: seq<string>)
    ensures |r| == |es| && forall k :: 0 <= k < |es| ==> r[k] == Render(es[k])
  {
    seq(|es|, k requires 0 <= k < |es| => Render(es[k]))
  }

  /** A contract as `(A impl G)`, or as `G` alone when the assumptions print as nothing. */
  function ContractText(c: Contract): string {
    var a := Join(Texts(c.assumes), " and ");
    var g := Join(Texts(c.guarantees), " and ");
    if a == "" then g else "(" + a + " impl " + g + ")"
  }

  /** The loops of `contractToRedlogString`. */
  method ContractToRedlogString(c: Contract) returns (s: string)
    ensures s == ContractText(c)
    ensures c.assumes == [] ==> s == Join(Texts(c.guarantees), " and ")
  {
    var assumption := "";
    var guarantee := "";
    if c.assumes != [] {
      var i := 0;
      while i < |c.assumes|
        invariant 0 <= i <= |c.assumes|
        invariant assumption == AppendEach(Texts(c.assumes[..i]), " and ")
      {
        assert Texts(c.assumes[..i + 1]) == Texts(c.assumes[..i]) + [Render(c.assumes[i])];
        AppendEachSnoc(Texts(c.assumes[..i]), Render(c.assumes[i]), " and ");
        assumption := assumption + Render(c.assumes[i]) + " and ";
        i := i + 1;
      }
      assert c.assumes[..i] == c.assumes;
      AppendEachJoin(Texts(c.assumes), " and ");
      assumption := assumption[..|assumption| - 5];
    }
    if c.guarantees != [] {
      var i := 0;
      while i < |c.guarantees|
        invariant 0 <= i <= |c.guarantees|
        invariant guarantee == AppendEach(Texts(c.guarantees[..i]), " and ")
      {
        assert Texts(c.guarantees[..i + 1]) == Texts(c.guarantees[..i]) + [Render(c.guarantees[i])];
        AppendEachSnoc(Texts(c.guarantees[..i]), Render(c.guarantees[i]), " and ");
        guarantee := guarantee + Render(c.guarantees[i]) + " and ";
        i := i + 1;
      }
      assert c.guarantees[..i] == c.guarantees;
      AppendEachJoin(Texts(c.guarantees), " and ");
      guarantee := guarantee[..|guarantee| - 5];
    }
    if assumption == "" {
      return guarantee;
    } else {
      return "(" + assumption + " impl " + guarantee + ")";
    }
  }

  // ---------------------------------------------------------------------
  // The script

  // The script's fixed lines, and their escaped forms further down, are
  // written in pieces so that the proofs about escaping can take each short
  // piece, and the `__` of the two commands, on its own.
  const Header: string := "off echo$\r\n\r\n" + "off nat$\r\n\r\n"
  const BeginStrongest: string := "\"//begin printing " + "system strongest " + "property:\";\r\n"
  const RlqeLine: string := "rlqe " + "__" + "systemStrongest" + "Property;\r\n"
  const EndPrinting: string := "\"//end printing" + "\";\r\n\r\n"
  const BeginResult: string := "\"//begin printing " + "system property " + "verification " + "result:\";\r\n"
  const RlqeaLine: string := "rlqea " + "__" + "result;\r\n"
  const Showtime: string := "SHOWTIME;"

  /** The commands that print the two results, each between its begin and end sentinel. */
  const Trailer: string := BeginStrongest + RlqeLine + EndPrinting + BeginResult + RlqeaLine + EndPrinting + Showtime

  /** `q(x1, q(x2, ...` for the names `xs`: the opening half of a quantifier prefix. */
  function Quantify(q: string, xs: seq<string>): string {
    if xs == [] then "" else q + "(" + xs[0] + ", " + Quantify(q, xs[1..])
  }

  lemma QuantifyAppend(q: string, xs: seq<string>, ys: seq<string>)
    ensures Quantify(q, xs + ys) == Quantify(q, xs) + Quantify(q, ys)
  {
    if xs == [] {
      assert xs + ys == ys;
    } else {
      assert (xs + ys)[1..] == xs[1..] + ys;
      QuantifyAppend(q, xs[1..], ys);
    }
  }

  /** Appending `q(x, ` to the prefix for `xs` gives the prefix for `xs + [x]`. */
  lemma QuantifyStep(q: string, open: string, xs: seq<string>, x: string)
    requires open == q + "("
    requires Quantify(q, xs + [x]) == Quantify(q, xs) + Quantify(q, [x])
    ensures Quantify(q, xs) + open + x + ", " == Quantify(q, xs + [x])
  {
    assert Quantify(q, [x]) == q + "(" + x + ", " + Quantify(q, []);
  }

  /** The names of the variables not attached to the system boundary, in order. */
  function Internal(vars: seq<VarDecl>, attached: seq<string>): seq<string> {
    if vars == [] then [] else (if vars[0].id in attached then [] else [vars[0].id]) + Internal(vars[1..], attached)
  }

  lemma InternalAppend(a: seq<VarDecl>, b: seq<VarDecl>, attached: seq<string>)
    ensures Internal(a + b, attached) == Internal(a, attached) + Internal(b, attached)
  {
    if a == [] {
      assert a + b == b;
    } else {
      assert (a + b)[1..] == a[1..] + b;
      InternalAppend(a[1..], b, attached);
    }
  }

  function ConnectionTexts(conns: seq<AgreeStatement>): (r: seq<string>)
    ensures |r| == |conns| && forall k :: 0 <= k < |conns| ==> r[k] == Render(conns[k].expr)
  {
    seq(|conns|, k requires 0 <= k < |conns| => Render(conns[k].expr))
  }

  function ContractTexts(cs: seq<Contract>): (r: seq<string>)
    ensures |r| == |cs| && forall k :: 0 <= k < |cs| ==> r[k] == ContractText(cs[k])
  {
    seq(|cs|, k requires 0 <= k < |cs| => ContractText(cs[k]))
  }

  lemma ConnectionTextsSnoc(conns: seq<AgreeStatement>, j: nat)
    requires j < |conns|
    ensures ConnectionTexts(conns[..j + 1]) == ConnectionTexts(conns[..j]) + [Render(conns[j].expr)]
  {
    assert ConnectionTexts(conns[..j + 1]) == ConnectionTexts(conns[..j]) + [Render(conns[j].expr)];
  }

  lemma ContractTextsSnoc(cs: seq<Contract>, k: nat)
    requires k < |cs|
    ensures ContractTexts(cs[..k + 1]) == ContractTexts(cs[..k]) + [ContractText(cs[k])]
  {
    assert ContractTexts(cs[..k + 1]) == ContractTexts(cs[..k]) + [ContractText(cs[k])];
  }

  lemma Assoc(a: string, b: string, c: string)
    ensures a + b + c == a + (b + c)
  {
  }

  lemma SnocStep(b: string, acc: string, p: string, sep: string)
    ensures b + acc + p + sep == b + (acc + p + sep)
  {
  }

  /** StringBuilder.setLength(length - k). */
  function Shorten(s: string, k: nat): Result<string, Failure> {
    if |s| < k then Err(StringIndexOutOfBounds) else Ok(s[..|s| - k])
  }

  /**
   * The strongest system property before elimination: every internal
   * variable existentially quantified over the conjunction of the
   * connections and component contracts.
   */
  function Strongest(vars: seq<VarDecl>, attached: seq<string>, conns: seq<AgreeStatement>, comps: seq<Contract>): Result<string, Failure> {
    var inner := Internal(vars, attached);
    var open := Quantify("ex", inner) + "(" + AppendEach(ConnectionTexts(conns) + ContractTexts(comps), " and ");
    match Shorten(open, 5)
    case Err(f) => Err(f)
    case Ok(t) => Ok(t + Repeat(")", |inner| + 1))
  }

  /** The postulated system contract under the strongest property, every boundary variable universally quantified. */
  function ResultFormula(strongest: string, bound: seq<string>, c: Contract): string {
    Quantify("all", bound) + "(" + "(" + strongest + ") impl " + ContractText(c) + Repeat(")", |bound| + 1)
  }

  /** The two definitions between the domain line and the print commands. */
  function Definitions(strongest: string, bound: seq<string>, c: Contract): string {
    "__systemStrongestProperty:=" + strongest + ";\r\n\r\n" + "__result:=" + ResultFormula(strongest, bound, c) + ";\r\n\r\n"
  }

  /** The script before the underscores are escaped. */
  function Unescaped(domain: string, strongest: string, bound: seq<string>, c: Contract): string {
    Header + domain + Definitions(strongest, bound, c) + Trailer
  }

  /** The text `toString` returns, given the system contract it happens to pick. */
  function Script(ins: seq<VarDecl>, outs: seq<VarDecl>, vars: seq<VarDecl>, attached: seq<string>,
                  conns: seq<AgreeStatement>, comps: seq<Contract>, f: Flags, sys: Option<Contract>): Result<string, Failure>
  {
    match Domain(f)
    case Err(e) => Err(e)
    case Ok(domain) =>
      match Strongest(vars, attached, conns, comps)
      case Err(e) => Err(e)
      case Ok(sp) =>
        match sys
        case None => Err(NoSuchElement)
        case Some(c) => Ok(ReplaceChar(Unescaped(domain, sp, VarIds(ins) + VarIds(outs) + attached, c), '_', "!_"))
  }

  // ---------------------------------------------------------------------
  // What the script promises

  /** Cutting the trailing " and " off the appended parts gives the joined parts. */
  lemma StrongestJoined(vars: seq<VarDecl>, attached: seq<string>, conns: seq<AgreeStatement>, comps: seq<Contract>)
    requires conns != [] || comps != []
    ensures Strongest(vars, attached, conns, comps) ==
      Ok(Quantify("ex", Internal(vars, attached)) + "(" + Join(ConnectionTexts(conns) + ContractTexts(comps), " and ")
         + Repeat(")", |Internal(vars, attached)| + 1))
  {
    var parts := ConnectionTexts(conns) + ContractTexts(comps);
    AppendEachJoin(parts, " and ");
    var pre := Quantify("ex", Internal(vars, attached)) + "(" + Join(parts, " and ");
    assert Quantify("ex", Internal(vars, attached)) + "(" + AppendEach(parts, " and ") == pre + " and ";
    assert (pre + " and ")[..|pre + " and "| - 5] == pre;
  }

  /** With nothing to conjoin and no internal variable, the truncation fails. */
  lemma StrongestOfNothing(vars: seq<VarDecl>, attached: seq<string>)
    requires Internal(vars, attached) == []
    ensures Strongest(vars, attached, [], []) == Err(StringIndexOutOfBounds)
  {
    assert ConnectionTexts([]) + ContractTexts([]) == [];
  }

  predicate NamesParenFree(xs: seq<string>) {
    forall k :: 0 <= k < |xs| ==> NoParens(xs[k])
  }

  predicate AllBalanced(xs: seq<string>) {
    forall k :: 0 <= k < |xs| ==> Balanced(xs[k])
  }

  lemma Count3(a: string, b: string, c: string, ch: char)
    ensures Count(a + b + c, ch) == Count(a, ch) + Count(b, ch) + Count(c, ch)
  {
    CountAppend(a, b, ch);
    CountAppend(a + b, c, ch);
  }

  lemma Count4(a: string, b: string, c: string, d: string, ch: char)
    ensures Count(a + b + c + d, ch) == Count(a, ch) + Count(b, ch) + Count(c, ch) + Count(d, ch)
  {
    Count3(a, b, c, ch);
    CountAppend(a + b + c, d, ch);
  }

  lemma Count7(a: string, b: string, c: string, d: string, e: string, f: string, g: string, ch: char)
    ensures Count(a + b + c + d + e + f + g, ch) ==
      Count(a, ch) + Count(b, ch) + Count(c, ch) + Count(d, ch) + Count(e, ch) + Count(f, ch) + Count(g, ch)
  {
    Count4(a, b, c, d, ch);
    CountAppend(a + b + c + d, e, ch);
    CountAppend(a + b + c + d + e, f, ch);
    CountAppend(a + b + c + d + e + f, g, ch);
  }

  lemma OpenCounts()
    ensures Count("(", '(') == 1 && Count("(", ')') == 0
  {
    assert "("[1..] == "";
  }

  lemma ImplCounts()
    ensures Count(") impl ", '(') == 0 && Count(") impl ", ')') == 1
  {
    ParenFreeText(" impl ");
    assert ") impl " == ")" + " impl ";
    CountAppend(")", " impl ", '(');
    CountAppend(")", " impl ", ')');
    assert ")"[1..] == "";
  }

  lemma RepeatCloses(n: nat)
    ensures Count(Repeat(")", n), '(') == 0 && Count(Repeat(")", n), ')') == n
  {
    CountRepeat(")", n, '(');
    CountRepeat(")", n, ')');
    assert ")"[1..] == "";
  }

  /** Each `q(x, ` of a quantifier prefix opens one parenthesis and closes none. */
  lemma {:induction false} QuantifyCounts(q: string, xs: seq<string>)
    requires NoParens(q) && NamesParenFree(xs)
    ensures Count(Quantify(q, xs), '(') == |xs| && Count(Quantify(q, xs), ')') == 0
  {
    if xs != [] {
      assert NamesParenFree(xs[1..]) by {
        assert forall k :: 0 <= k < |xs[1..]| ==> xs[1..][k] == xs[k + 1];
      }
      QuantifyCounts(q, xs[1..]);
      OpenCounts();
      ParenFreeText(", ");
      Count4(q, "(", xs[0], ", ", '(');
      Count4(q, "(", xs[0], ", ", ')');
      CountAppend(q + "(" + xs[0] + ", ", Quantify(q, xs[1..]), '(');
      CountAppend(q + "(" + xs[0] + ", ", Quantify(q, xs[1..]), ')');
    }
  }

  lemma {:induction false} JoinBalanced(xs: seq<string>, sep: string)
    requires AllBalanced(xs) && NoParens(sep)
    ensures Balanced(Join(xs, sep))
  {
    if |xs| > 1 {
      assert AllBalanced(xs[1..]) by {
        assert forall k :: 0 <= k < |xs[1..]| ==> xs[1..][k] == xs[k + 1];
      }
      JoinBalanced(xs[1..], sep);
      assert Balanced(xs[0]);
      BalancedCat3(xs[0], sep, Join(xs[1..], sep));
    }
  }

  /** Every name and literal in the contract's expressions is free of parentheses. */
  predicate ContractParenFree(c: Contract) {
    (forall k :: 0 <= k < |c.assumes| ==> TextsParenFree(c.assumes[k])) &&
    (forall k :: 0 <= k < |c.guarantees| ==> TextsParenFree(c.guarantees[k]))
  }

  lemma TextsBalanced(es: seq<Expr>)
    requires forall k :: 0 <= k < |es| ==> TextsParenFree(es[k])
    ensures AllBalanced(Texts(es))
  {
    forall k | 0 <= k < |es| ensures Balanced(Texts(es)[k]) {
      RenderBalanced(es[k]);
    }
  }

  lemma ContractTextBalanced(c: Contract)
    requires ContractParenFree(c)
    ensures Balanced(ContractText(c))
  {
    TextsBalanced(c.assumes);
    TextsBalanced(c.guarantees);
    ParenFreeText(" and ");
    ParenFreeText(" impl ");
    var a := Join(Texts(c.assumes), " and ");
    var g := Join(Texts(c.guarantees), " and ");
    JoinBalanced(Texts(c.assumes), " and ");
    JoinBalanced(Texts(c.guarantees), " and ");
    if a != "" {
      BalancedCat3(a, " impl ", g);
      BalancedParen(a + " impl " + g);
      assert ContractText(c) == Paren(a + " impl " + g);
    }
  }

  lemma {:induction false} InternalNames(vars: seq<VarDecl>, attached: seq<string>)
    requires NamesParenFree(VarIds(vars))
    ensures NamesParenFree(Internal(vars, attached))
  {
    if vars != [] {
      assert NoParens(VarIds(vars)[0]);
      assert NamesParenFree(VarIds(vars[1..])) by {
        forall k | 0 <= k < |vars[1..]| ensures NoParens(VarIds(vars[1..])[k]) {
          assert VarIds(vars[1..])[k] == VarIds(vars)[k + 1];
        }
      }
      InternalNames(vars[1..], attached);
    }
  }

  lemma PartsBalanced(conns: seq<AgreeStatement>, comps: seq<Contract>)
    requires forall k :: 0 <= k < |conns| ==> TextsParenFree(conns[k].expr)
    requires forall k :: 0 <= k < |comps| ==> ContractParenFree(comps[k])
    ensures AllBalanced(ConnectionTexts(conns) + ContractTexts(comps))
  {
    var cts, kts := ConnectionTexts(conns), ContractTexts(comps);
    var parts := cts + kts;
    forall k | 0 <= k < |parts| ensures Balanced(parts[k]) {
      if k < |cts| {
        assert parts[k] == cts[k] == Render(conns[k].expr);
        RenderBalanced(conns[k].expr);
      } else {
        assert parts[k] == kts[k - |cts|] == ContractText(comps[k - |cts|]);
        ContractTextBalanced(comps[k - |cts|]);
      }
    }
  }

  /**
   * When there is something to conjoin and no name contains a parenthesis,
   * the strongest-property formula closes every parenthesis it opens.
   */
  lemma StrongestBalanced(vars: seq<VarDecl>, attached: seq<string>, conns: seq<AgreeStatement>, comps: seq<Contract>)
    requires conns != [] || comps != []
    requires NamesParenFree(VarIds(vars))
    requires forall k :: 0 <= k < |conns| ==> TextsParenFree(conns[k].expr)
    requires forall k :: 0 <= k < |comps| ==> ContractParenFree(comps[k])
    ensures Strongest(vars, attached, conns, comps).Ok?
    ensures Balanced(Strongest(vars, attached, conns, comps).value)
  {
    StrongestJoined(vars, attached, conns, comps);
    var inner := Internal(vars, attached);
    InternalNames(vars, attached);
    PartsBalanced(conns, comps);
    var joined := Join(ConnectionTexts(conns) + ContractTexts(comps), " and ");
    ParenFreeText(" and ");
    JoinBalanced(ConnectionTexts(conns) + ContractTexts(comps), " and ");
    ParenFreeText("ex");
    QuantifyCounts("ex", inner);
    OpenCounts();
    RepeatCloses(|inner| + 1);
    Count4(Quantify("ex", inner), "(", joined, Repeat(")", |inner| + 1), '(');
    Count4(Quantify("ex", inner), "(", joined, Repeat(")", |inner| + 1), ')');
  }

  /** The verification formula closes every parenthesis it opens. */
  lemma ResultBalanced(strongest: string, bound: seq<string>, c: Contract)
    requires Balanced(strongest) && NamesParenFree(bound) && ContractParenFree(c)
    ensures Balanced(ResultFormula(strongest, bound, c))
  {
    ContractTextBalanced(c);
    ImplCounts();
    OpenCounts();
    ParenFreeText("all");
    QuantifyCounts("all", bound);
    RepeatCloses(|bound| + 1);
    var q := Quantify("all", bound);
    Count7(q, "(", "(", strongest, ") impl ", ContractText(c), Repeat(")", |bound| + 1), '(');
    Count7(q, "(", "(", strongest, ") impl ", ContractText(c), Repeat(")", |bound| + 1), ')');
  }

  /** After the final replacement every `_` is escaped, and deleting every `!` restores the unescaped text. */
  lemma ScriptEscaped(ins: seq<VarDecl>, outs: seq<VarDecl>, vars: seq<VarDecl>, attached: seq<string>,
                      conns: seq<AgreeStatement>, comps: seq<Contract>, f: Flags, c: Contract)
    requires Script(ins, outs, vars, attached, conns, comps, f, Some(c)).Ok?
    ensures UnderscoresEscaped(Script(ins, outs, vars, attached, conns, comps, f, Some(c)).value)
    ensures RemoveChars(Script(ins, outs, vars, attached, conns, comps, f, Some(c)).value, {'!'}) ==
      RemoveChars(Unescaped(Domain(f).value, Strongest(vars, attached, conns, comps).value, VarIds(ins) + VarIds(outs) + attached, c), {'!'})
  {
    var u := Unescaped(Domain(f).value, Strongest(vars, attached, conns, comps).value, VarIds(ins) + VarIds(outs) + attached, c);
    EscapeUnderscores(u);
    UnescapeUnderscores(u);
  }

  const EscapedRlqeLine: string := "rlqe " + "!_!_" + "systemStrongest" + "Property;\r\n"
  const EscapedRlqeaLine: string := "rlqea " + "!_!_" + "result;\r\n"

  /** The trailer with its underscores escaped: the sentinel lines themselves hold none. */
  const EscapedTrailer: string :=
    BeginStrongest + EscapedRlqeLine + EndPrinting + BeginResult + EscapedRlqeaLine + EndPrinting + Showtime

  /**
   * The script opens with the echo settings and the domain, and ends with
   * the two sentinel bands around `rlqe` and `rlqea`, then `SHOWTIME;`.
   */
  lemma ScriptLayout(ins: seq<VarDecl>, outs: seq<VarDecl>, vars: seq<VarDecl>, attached: seq<string>,
                     conns: seq<AgreeStatement>, comps: seq<Contract>, f: Flags, c: Contract)
    requires Script(ins, outs, vars, attached, conns, comps, f, Some(c)).Ok?
    ensures exists middle: string ::
      Script(ins, outs, vars, attached, conns, comps, f, Some(c)).value == Header + Domain(f).value + middle + EscapedTrailer
  {
    var domain := Domain(f).value;
    var defs := Definitions(Strongest(vars, attached, conns, comps).value, VarIds(ins) + VarIds(outs) + attached, c);
    HeaderFree();
    EscapeLayout(Header, domain, defs, Trailer);
    TrailerEscaped();
  }

  lemma EscapeLayout(h: string, d: string, m: string, t: string)
    requires '_' !in h && '_' !in d
    ensures ReplaceChar(h + d + m + t, '_', "!_") == h + d + ReplaceChar(m, '_', "!_") + ReplaceChar(t, '_', "!_")
  {
    ReplaceCharAbsent(h, '_', "!_");
    ReplaceCharAbsent(d, '_', "!_");
    ReplaceCharAppend(h, d, '_', "!_");
    ReplaceCharAppend(h + d, m, '_', "!_");
    ReplaceCharAppend(h + d + m, t, '_', "!_");
  }

  lemma HeaderFree()
    ensures '_' !in Header
  {
    assert '_' !in "off echo$\r\n\r\n";
    assert '_' !in "off nat$\r\n\r\n";
  }

  lemma SentinelsFree()
    ensures '_' !in BeginStrongest && '_' !in EndPrinting && '_' !in BeginResult && '_' !in Showtime
  {
    BeginStrongestFree();
    EndPrintingFree();
    BeginResultFree();
    assert '_' !in "SHOWTIME;";
  }

  lemma BeginStrongestFree()
    ensures '_' !in BeginStrongest
  {
    assert '_' !in "\"//begin printing ";
    assert '_' !in "system strongest ";
    assert '_' !in "property:\";\r\n";
  }

  lemma EndPrintingFree()
    ensures '_' !in EndPrinting
  {
    assert '_' !in "\"//end printing";
    assert '_' !in "\";\r\n\r\n";
  }

  lemma BeginResultFree()
    ensures '_' !in BeginResult
  {
    assert '_' !in "\"//begin printing ";
    assert '_' !in "system property ";
    assert '_' !in "verification ";
    assert '_' !in "result:\";\r\n";
  }

  lemma EscapeCommand(a: string, b: string, rest: string)
    requires '_' !in a && '_' !in b && '_' !in rest
    ensures ReplaceChar(a + "__" + b + rest, '_', "!_") == a + "!_!_" + b + rest
  {
    ReplaceCharAbsent(a, '_', "!_");
    ReplaceCharAbsent(b, '_', "!_");
    ReplaceCharAbsent(rest, '_', "!_");
    assert "__"[1..] == "_";
    assert ReplaceChar("__", '_', "!_") == "!_!_";
    ReplaceCharAppend(a, "__", '_', "!_");
    ReplaceCharAppend(a + "__", b, '_', "!_");
    ReplaceCharAppend(a + "__" + b, rest, '_', "!_");
  }

  lemma EscapedCommands()
    ensures ReplaceChar(RlqeLine, '_', "!_") == EscapedRlqeLine
    ensures ReplaceChar(RlqeaLine, '_', "!_") == EscapedRlqeaLine
  {
    EscapeCommand("rlqe ", "systemStrongest", "Property;\r\n");
    EscapeCommand("rlqea ", "result;\r\n", "");
    assert "rlqea " + "__" + "result;\r\n" + "" == RlqeaLine;
    assert "rlqea " + "!_!_" + "result;\r\n" + "" == EscapedRlqeaLine;
  }

  lemma EscapeBands(bs: string, rl: string, ep: string, br: string, rla: string, st: string)
    requires '_' !in bs && '_' !in ep && '_' !in br && '_' !in st
    ensures ReplaceChar(bs + rl + ep + br + rla + ep + st, '_', "!_") ==
      bs + ReplaceChar(rl, '_', "!_") + ep + br + ReplaceChar(rla, '_', "!_") + ep + st
  {
    ReplaceCharAbsent(bs, '_', "!_");
    ReplaceCharAbsent(ep, '_', "!_");
    ReplaceCharAbsent(br, '_', "!_");
    ReplaceCharAbsent(st, '_', "!_");
    ReplaceCharAppend(bs, rl, '_', "!_");
    ReplaceCharAppend(bs + rl, ep, '_', "!_");
    ReplaceCharAppend(bs + rl + ep, br, '_', "!_");
    ReplaceCharAppend(bs + rl + ep + br, rla, '_', "!_");
    ReplaceCharAppend(bs + rl + ep + br + rla, ep, '_', "!_");
    ReplaceCharAppend(bs + rl + ep + br + rla + ep, st, '_', "!_");
  }

  lemma TrailerEscaped()
    ensures ReplaceChar(Trailer, '_', "!_") == EscapedTrailer
  {
    SentinelsFree();
    EscapedCommands();
    EscapeBands(BeginStrongest, RlqeLine, EndPrinting, BeginResult, RlqeaLine, Showtime);
  }

  // ---------------------------------------------------------------------
  // The object

  function SafeList<T>(xs: Option<seq<T>>): seq<T> {
    if xs.Some? then xs.value else []
  }

  /** What the constructor computes, or the exception it throws. */
  function Built(vars: seq<VarDecl>, ins: seq<VarDecl>, outs: seq<VarDecl>, sys: Option<map<VarDecl, Contract>>,
                 conns: seq<AgreeStatement>): Result<(Flags, seq<string>), Failure>
  {
    if sys.None? then Err(NullArgument)
    else
      match ScanTypes(vars, Flags(false, false))
      case Err(e) => Err(e)
      case Ok(f) =>
        match Attached(conns, ins, outs, [])
        case Err(e) => Err(e)
        case Ok(a) => Ok((f, a))
  }

  /** The existential prefix loop of `toString`: one `ex(x, ` per internal variable, and their count. */
  method QuantifyInternal(vars: seq<VarDecl>, attached: seq<string>) returns (b4qe: string, unpaired: nat)
    ensures b4qe == Quantify("ex", Internal(vars, attached)) && unpaired == |Internal(vars, attached)|
  {
    b4qe := "";
    unpaired := 0;
    var i := 0;
    while i < |vars|
      invariant 0 <= i <= |vars|
      invariant b4qe == Quantify("ex", Internal(vars[..i], attached))
      invariant unpaired == |Internal(vars[..i], attached)|
    {
      InternalAppend(vars[..i], [vars[i]], attached);
      assert vars[..i + 1] == vars[..i] + [vars[i]];
      QuantifyAppend("ex", Internal(vars[..i], attached), Internal([vars[i]], attached));
      if vars[i].id !in attached {
        b4qe := b4qe + "ex(" + vars[i].id + ", ";
        unpaired := unpaired + 1;
      }
      i := i + 1;
    }
    assert vars[..i] == vars;
  }

  /** The connection loop of `toString`: each connection's text followed by ` and `. */
  method AppendConnections(b: string, conns: seq<AgreeStatement>) returns (b4qe: string)
    ensures b4qe == b + AppendEach(ConnectionTexts(conns), " and ")
  {
    b4qe := b;
    var j := 0;
    while j < |conns|
      invariant 0 <= j <= |conns|
      invariant b4qe == b + AppendEach(ConnectionTexts(conns[..j]), " and ")
    {
      ConnectionTextsSnoc(conns, j);
      AppendEachSnoc(ConnectionTexts(conns[..j]), Render(conns[j].expr), " and ");
      SnocStep(b, AppendEach(ConnectionTexts(conns[..j]), " and "), Render(conns[j].expr), " and ");
      b4qe := b4qe + Render(conns[j].expr) + " and ";
      j := j + 1;
    }
    assert conns[..j] == conns;
  }

  /** The component-contract loop of `toString`: each contract's formula followed by ` and `. */
  method AppendContracts(b: string, comps: seq<Contract>) returns (b4qe: string)
    ensures b4qe == b + AppendEach(ContractTexts(comps), " and ")
  {
    b4qe := b;
    var k := 0;
    while k < |comps|
      invariant 0 <= k <= |comps|
      invariant b4qe == b + AppendEach(ContractTexts(comps[..k]), " and ")
    {
      var text := ContractToRedlogString(comps[k]);
      ContractTextsSnoc(comps, k);
      AppendEachSnoc(ContractTexts(comps[..k]), text, " and ");
      SnocStep(b, AppendEach(ContractTexts(comps[..k]), " and "), text, " and ");
      b4qe := b4qe + text + " and ";
      k := k + 1;
    }
    assert comps[..k] == comps;
  }

  /** The strongest property as `toString` builds it, including the failing truncation. */
  method BuildStrongest(vars: seq<VarDecl>, attached: seq<string>, conns: seq<AgreeStatement>, comps: seq<Contract>)
    returns (r: Result<string, Failure>)
    ensures r == Strongest(vars, attached, conns, comps)
  {
    var b4qe, unpaired := QuantifyInternal(vars, attached);
    b4qe := b4qe + "(";
    unpaired := unpaired + 1;
    ghost var head := b4qe;
    b4qe := AppendConnections(b4qe, conns);
    b4qe := AppendContracts(b4qe, comps);
    AppendEachAppend(ConnectionTexts(conns), ContractTexts(comps), " and ");
    Assoc(head, AppendEach(ConnectionTexts(conns), " and "), AppendEach(ContractTexts(comps), " and "));
    if |b4qe| < 5 {
      return Err(StringIndexOutOfBounds);
    }
    b4qe := b4qe[..|b4qe| - 5];
    b4qe := b4qe + Repeat(")", unpaired);
    r := Ok(b4qe);
  }

  /** The verification-formula loops of `toString`, for the system contract `c`. */
  method BuildResultFormula(ins: seq<VarDecl>, outs: seq<VarDecl>, attached: seq<string>, strongest: string, c: Contract)
    returns (formula: string)
    ensures formula == ResultFormula(strongest, VarIds(ins) + VarIds(outs) + attached, c)
  {
    var unpaired := 0;
    formula := "";
    var bound: seq<string> := [];
    var i := 0;
    while i < |ins|
      invariant 0 <= i <= |ins|
      invariant bound == VarIds(ins[..i]) && unpaired == |bound|
      invariant formula == Quantify("all", bound)
    {
      QuantifyAppend("all", bound, [ins[i].id]);
      QuantifyStep("all", "all(", bound, ins[i].id);
      assert VarIds(ins[..i + 1]) == VarIds(ins[..i]) + [ins[i].id];
      formula := formula + "all(" + ins[i].id + ", ";
      bound := bound + [ins[i].id];
      unpaired := unpaired + 1;
      i := i + 1;
    }
    assert ins[..i] == ins;
    i := 0;
    while i < |outs|
      invariant 0 <= i <= |outs|
      invariant bound == VarIds(ins) + VarIds(outs[..i]) && unpaired == |bound|
      invariant formula == Quantify("all", bound)
    {
      QuantifyAppend("all", bound, [outs[i].id]);
      QuantifyStep("all", "all(", bound, outs[i].id);
      assert VarIds(outs[..i + 1]) == VarIds(outs[..i]) + [outs[i].id];
      formula := formula + "all(" + outs[i].id + ", ";
      bound := bound + [outs[i].id];
      unpaired := unpaired + 1;
      i := i + 1;
    }
    assert outs[..i] == outs;
    i := 0;
    while i < |attached|
      invariant 0 <= i <= |attached|
      invariant bound == VarIds(ins) + VarIds(outs) + attached[..i] && unpaired == |bound|
      invariant formula == Quantify("all", bound)
    {
      QuantifyAppend("all", bound, [attached[i]]);
      QuantifyStep("all", "all(", bound, attached[i]);
      assert attached[..i + 1] == attached[..i] + [attached[i]];
      formula := formula + "all(" + attached[i] + ", ";
      bound := bound + [attached[i]];
      unpaired := unpaired + 1;
      i := i + 1;
    }
    assert attached[..i] == attached;
    formula := formula + "(";
    unpaired := unpaired + 1;
    formula := formula + "(";
    formula := formula + strongest;
    formula := formula + ") impl ";
    var text := ContractToRedlogString(c);
    formula := formula + text;
    formula := formula + Repeat(")", unpaired);
  }

  class RedlogProgram {
    const sysInputs: seq<VarDecl>
    const sysOutputs: seq<VarDecl>
    const allVariables: seq<VarDecl>
    const componentContracts: seq<Contract>
    const systemContracts: map<VarDecl, Contract>
    const connectionAssertions: seq<AgreeStatement>
    const globalLustreNodes: seq<Node>
    const properties: seq<string>
    var hasIntVar: bool
    var hasRealVar: bool
    var sysInputsOutputsAtComponentLevel: seq<string>
    /** The exception the constructor raised, if any; such an object never reaches a caller. */
    var failure: Option<Failure>

    /** Null lists are read as empty; a null contract map, a variable of unnamed type or a malformed connection is rejected. */
    constructor (sysInputs: Option<seq<VarDecl>>, sysOutputs: Option<seq<VarDecl>>, allVariables: Option<seq<VarDecl>>,
                 systemContracts: Option<map<VarDecl, Contract>>, componentContracts: Option<seq<Contract>>,
                 connectionAssertions: Option<seq<AgreeStatement>>, globalLustreNodes: Option<seq<Node>>,
                 properties: Option<seq<string>>)
      ensures this.sysInputs == SafeList(sysInputs) && this.sysOutputs == SafeList(sysOutputs)
      ensures this.allVariables == SafeList(allVariables) && this.componentContracts == SafeList(componentContracts)
      ensures this.connectionAssertions == SafeList(connectionAssertions)
      ensures this.globalLustreNodes == SafeList(globalLustreNodes) && this.properties == SafeList(properties)
      ensures systemContracts.Some? ==> this.systemContracts == systemContracts.value
      ensures var b := Built(this.allVariables, this.sysInputs, this.sysOutputs, systemContracts, this.connectionAssertions);
        match b
        case Err(e) => failure == Some(e)
        case Ok((f, a)) =>
          failure.None? && hasIntVar == f.hasInt && hasRealVar == f.hasReal && sysInputsOutputsAtComponentLevel == a
    {
      this.sysInputs := SafeList(sysInputs);
      this.sysOutputs := SafeList(sysOutputs);
      this.allVariables := SafeList(allVariables);
      this.componentContracts := SafeList(componentContracts);
      this.systemContracts := if systemContracts.Some? then systemContracts.value else map[];
      this.connectionAssertions := SafeList(connectionAssertions);
      this.globalLustreNodes := SafeList(globalLustreNodes);
      this.properties := SafeList(properties);
      hasIntVar := false;
      hasRealVar := false;
      sysInputsOutputsAtComponentLevel := [];
      failure := None;
      if systemContracts.None? {
        failure := Some(NullArgument);
      } else {
        var scan := CheckVarTypes(SafeList(allVariables), Flags(false, false));
        if scan.Err? {
          failure := Some(scan.error);
        } else {
          hasIntVar := scan.value.hasInt;
          hasRealVar := scan.value.hasReal;
          var found := FindSysInputsOutputsAtComponentLevel(SafeList(connectionAssertions), SafeList(sysInputs), SafeList(sysOutputs));
          if found.Err? {
            failure := Some(found.error);
          } else {
            sysInputsOutputsAtComponentLevel := found.value;
          }
        }
      }
    }

    /** The variable is attached to the system boundary. */
    predicate IsVarConnectedToTopSystem(v: VarDecl)
      reads this
    {
      v.id in sysInputsOutputsAtComponentLevel
    }

    /** The script for this program, given the system contract `toString` picks. */
    function ScriptWith(sys: Option<Contract>): Result<string, Failure>
      reads this
    {
      Script(sysInputs, sysOutputs, allVariables, sysInputsOutputsAtComponentLevel, connectionAssertions,
             componentContracts, Flags(hasIntVar, hasRealVar), sys)
    }

    /**
     * The script text. The system contract is the first value the map
     * yields, which for a map is any of its values.
     */
    method ToString() returns (r: Result<string, Failure>)
      ensures systemContracts == map[] ==> r == ScriptWith(None)
      ensures systemContracts != map[] ==>
        exists key :: key in systemContracts && r == ScriptWith(Some(systemContracts[key]))
    {
      var content := Header;
      var setDomain: string;
      if hasRealVar && hasIntVar {
        setDomain := "rlset r$\r\n\r\n";
      } else if hasRealVar {
        setDomain := "rlset r$\r\n\r\n";
      } else if hasIntVar {
        setDomain := "rlset z$\r\n\r\n";
      } else {
        return Err(AgreeException(SatMessage));
      }
      assert Domain(Flags(hasIntVar, hasRealVar)) == Ok(setDomain);
      content := content + setDomain;
      var sp := BuildStrongest(allVariables, sysInputsOutputsAtComponentLevel, connectionAssertions, componentContracts);
      if sp.Err? {
        return Err(sp.error);
      }
      if systemContracts == map[] {
        return Err(NoSuchElement);
      }
      var key :| key in systemContracts;
      var bound := VarIds(sysInputs) + VarIds(sysOutputs) + sysInputsOutputsAtComponentLevel;
      var formula := BuildResultFormula(sysInputs, sysOutputs, sysInputsOutputsAtComponentLevel, sp.value, systemContracts[key]);
      var defs := "__systemStrongestProperty:=" + sp.value + ";\r\n\r\n" + "__result:=" + formula + ";\r\n\r\n";
      content := content + defs;
      content := content + Trailer;
      r := Ok(ReplaceChar(content, '_', "!_"));
      assert r == ScriptWith(Some(systemContracts[key]));
    }
  }
}
