/**
 * RedlogAstBuilder: composes the contract of the top AGREE node from those
 * of its sub-components.  The system's own inputs and outputs keep their
 * names (lower-cased); every component variable is qualified with its
 * component's name; each component contract has its expressions prefixed
 * the same way; each connection becomes an equality between the two
 * qualified names; and each top-level guarantee yields one property
 * `__GUARANTEE<i>`.
 *
 * `ContractParts` is the specification of what the builder collects;
 * `GetContractParts` is the loop code, proved equal to it, and
 * `GetContractRedlogProgram` hands the parts to the script object.
 */
module RedlogAstBuilder {
  import opened Wrappers
  import opened Text
  import opened Ast
  import IdRewrite
  import opened RedlogScript

  const GuarSuffix: string := "__GUARANTEE"

  /** Marker put in front of the prefix of a name read under `pre` (one opaque constant). */
  const PreSuffix: string := "Pre__"

  const PrefixMessage: string := "Add prefix to expr doesn't yet support this expr: "

  /** The direction of a composed-contract verification; the builder does not read it. */
  datatype VerificationDirection = Composition | Diagnosis

  // ---------------------------------------------------------------------
  // addPrefixToExpr

  /** The constructs addPrefixToExpr handles: no unary operator but `pre`, no record, cast, array, tuple or condact. */
  predicate Prefixable(e: Expr)
    decreases e, 1
  {
    match e
    case BoolExpr(_) => true
    case IntExpr(_) => true
    case RealExpr(_) => true
    case IdExpr(_) => true
    case RecordAccessExpr(r, _) => Prefixable(r)
    case UnaryExpr(op, x) => op == Pre && Prefixable(x)
    case BinaryExpr(l, _, r) => Prefixable(l) && Prefixable(r)
    case IfThenElseExpr(c, t, f) => Prefixable(c) && Prefixable(t) && Prefixable(f)
    case NodeCallExpr(_, args) => AllPrefixable(args)
    case _ => false
  }

  predicate AllPrefixable(es: seq<Expr>)
    decreases es, 0
  {
    es == [] || (Prefixable(es[0]) && AllPrefixable(es[1..]))
  }

  /** No unary operator anywhere in the expression. */
  predicate NoUnary(e: Expr)
    decreases e, 1
  {
    match e
    case UnaryExpr(_, _) => false
    case RecordAccessExpr(r, _) => NoUnary(r)
    case BinaryExpr(l, _, r) => NoUnary(l) && NoUnary(r)
    case IfThenElseExpr(c, t, f) => NoUnary(c) && NoUnary(t) && NoUnary(f)
    case NodeCallExpr(_, args) => AllNoUnary(args)
    case _ => true
  }

  predicate AllNoUnary(es: seq<Expr>)
    decreases es, 0
  {
    es == [] || (NoUnary(es[0]) && AllNoUnary(es[1..]))
  }

  /** An unsupported construct is reported with its own text. */
  predicate Rejection(f: Failure) {
    f.AgreeException? && StartsWith(f.message, PrefixMessage)
  }

  /**
   * addPrefixToExpr: the prefix goes in front of every identifier, `pre`
   * moves its operand under the marked prefix and disappears, and every
   * other supported construct keeps its shape.
   */
  function AddPrefixToExpr(prefix: string, e: Expr): (r: Result<Expr, Failure>)
    ensures r.Ok? <==> Prefixable(e)
    ensures r.Ok? ==> NoUnary(r.value)
    ensures r.Err? ==> Rejection(r.error)
    decreases e, 1
  {
    match e
    case BoolExpr(b) => Ok(BoolExpr(b))
    case IdExpr(id) => Ok(IdExpr(prefix + id))
    case RecordAccessExpr(rec, f) =>
      var rec' := AddPrefixToExpr(prefix, rec);
      if rec'.Err? then rec' else Ok(RecordAccessExpr(rec'.value, f))
    case UnaryExpr(op, x) =>
      if op == Pre then AddPrefixToExpr(PreSuffix + prefix, x)
      else Err(AgreeException(PrefixMessage + Render(e)))
    case BinaryExpr(l, op, rt) =>
      var l' := AddPrefixToExpr(prefix, l);
      if l'.Err? then l' else
      var rt' := AddPrefixToExpr(prefix, rt);
      if rt'.Err? then rt' else Ok(BinaryExpr(l'.value, op, rt'.value))
    case IfThenElseExpr(c, t, f) =>
      var c' := AddPrefixToExpr(prefix, c);
      if c'.Err? then c' else
      var t' := AddPrefixToExpr(prefix, t);
      if t'.Err? then t' else
      var f' := AddPrefixToExpr(prefix, f);
      if f'.Err? then f' else Ok(IfThenElseExpr(c'.value, t'.value, f'.value))
    case RealExpr(_) => Ok(e)
    case IntExpr(_) => Ok(e)
    case NodeCallExpr(n, args) =>
      var args' := AddPrefixToList(prefix, args);
      if args'.Err? then Err(args'.error) else Ok(NodeCallExpr(n, args'.value))
    case _ => Err(AgreeException(PrefixMessage + Render(e)))
  }

  /** The argument loop of a node call: the first failing argument ends it. */
  function AddPrefixToList(prefix: string, es: seq<Expr>): (r: Result<seq<Expr>, Failure>)
    ensures r.Ok? <==> AllPrefixable(es)
    ensures r.Ok? ==> |r.value| == |es| && AllNoUnary(r.value)
    ensures r.Err? ==> Rejection(r.error)
    decreases es, 0
  {
    if es == [] then Ok([])
    else
      var head := AddPrefixToExpr(prefix, es[0]);
      if head.Err? then Err(head.error) else
      var tail := AddPrefixToList(prefix, es[1..]);
      if tail.Err? then Err(tail.error)
      else
        assert ([head.value] + tail.value)[1..] == tail.value;
        Ok([head.value] + tail.value)
  }

  /** `n` nested `pre` operators around `e`. */
  function Pres(n: nat, e: Expr): Expr {
    if n == 0 then e else UnaryExpr(Pre, Pres(n - 1, e))
  }

  lemma RepeatSnoc(s: string, n: nat)
    ensures Repeat(s, n) + s == s + Repeat(s, n)
  {
    if n > 0 {
      RepeatSnoc(s, n - 1);
    }
  }

  /** `n` nested `pre`s are the same as reading the operand under `n` markers. */
  lemma {:induction false} PreChain(n: nat, prefix: string, e: Expr)
    ensures AddPrefixToExpr(prefix, Pres(n, e)) == AddPrefixToExpr(Repeat(PreSuffix, n) + prefix, e)
  {
    if n == 0 {
      assert Repeat(PreSuffix, 0) + prefix == prefix;
    } else {
      PreChain(n - 1, PreSuffix + prefix, e);
      RepeatSnoc(PreSuffix, n - 1);
      assert Repeat(PreSuffix, n - 1) + (PreSuffix + prefix) == Repeat(PreSuffix, n) + prefix;
    }
  }

  /** An identifier under `n` `pre`s becomes one identifier carrying `n` markers before the prefix. */
  lemma PreIdentifier(n: nat, prefix: string, x: string)
    ensures AddPrefixToExpr(prefix, Pres(n, IdExpr(x))) == Ok(IdExpr(Repeat(PreSuffix, n) + prefix + x))
  {
    PreChain(n, prefix, IdExpr(x));
  }

  /** "x" renamed to `prefix + x`. */
  function PrefixName(prefix: string): string -> string {
    x => prefix + x
  }

  /**
   * On expressions without unary operators, addPrefixToExpr is the generic
   * identifier rewrite with a renamer that adds the prefix: every node,
   * if-then-else and call included, keeps its shape.
   */
  lemma {:induction false} PrefixIsRenaming(prefix: string, e: Expr)
    requires Prefixable(e) && NoUnary(e)
    ensures IdRewrite.Rewrite(IdRewrite.Renamer(PrefixName(prefix)), e) == Ok(AddPrefixToExpr(prefix, e).value)
    decreases e, 1
  {
    match e
    case BoolExpr(_) =>
    case IntExpr(_) =>
    case RealExpr(_) =>
    case IdExpr(_) =>
    case RecordAccessExpr(r, _) => PrefixIsRenaming(prefix, r);
    case BinaryExpr(l, _, r) =>
      PrefixIsRenaming(prefix, l);
      PrefixIsRenaming(prefix, r);
    case IfThenElseExpr(c, t, f) =>
      PrefixIsRenaming(prefix, c);
      PrefixIsRenaming(prefix, t);
      PrefixIsRenaming(prefix, f);
    case NodeCallExpr(_, args) => PrefixIsRenamingList(prefix, args);
  }

  lemma {:induction false} PrefixIsRenamingList(prefix: string, es: seq<Expr>)
    requires AllPrefixable(es) && AllNoUnary(es)
    ensures IdRewrite.RewriteList(IdRewrite.Renamer(PrefixName(prefix)), es) == Ok(AddPrefixToList(prefix, es).value)
    decreases es, 0
  {
    if es != [] {
      PrefixIsRenaming(prefix, es[0]);
      PrefixIsRenamingList(prefix, es[1..]);
    }
  }

  lemma PrefixSupported(e: Expr)
    requires Prefixable(e) && NoUnary(e)
    ensures IdRewrite.Supported(e)
  {
    PrefixIsRenaming("", e);
  }

  /** Without unary operators, the identifiers of the result are exactly the prefixed identifiers of the input. */
  lemma PrefixedIds(prefix: string, e: Expr)
    requires Prefixable(e) && NoUnary(e)
    ensures IdRewrite.Ids(AddPrefixToExpr(prefix, e).value) == IdRewrite.Image(PrefixName(prefix), IdRewrite.Ids(e))
  {
    PrefixIsRenaming(prefix, e);
    PrefixSupported(e);
    IdRewrite.RenameIds(PrefixName(prefix), e);
  }

  // ---------------------------------------------------------------------
  // What getContractRedlogProgram collects

  /** The variables with lower-cased names, in order; type, reference and instance are kept. */
  function LowerIds(vs: seq<VarDecl>): (r: seq<VarDecl>)
    ensures |r| == |vs|
  {
    seq(|vs|, k requires 0 <= k < |vs| => vs[k].(id := Lower(vs[k].id)))
  }

  /** The component's variables qualified by its name and lower-cased. */
  function Qualified(node: AgreeNode, vs: seq<VarDecl>): (r: seq<VarDecl>)
    ensures |r| == |vs|
  {
    seq(|vs|, k requires 0 <= k < |vs| => vs[k].(id := Lower(node.id + DotChar + vs[k].id)))
  }

  /** Every sub-component's inputs, then its outputs, sub-component by sub-component. */
  function ComponentVariables(nodes: seq<AgreeNode>): seq<VarDecl> {
    if nodes == [] then []
    else Qualified(nodes[0], nodes[0].inputs) + Qualified(nodes[0], nodes[0].outputs) + ComponentVariables(nodes[1..])
  }

  function Exprs(stmts: seq<AgreeStatement>): (r: seq<Expr>)
    ensures |r| == |stmts|
  {
    seq(|stmts|, k requires 0 <= k < |stmts| => stmts[k].expr)
  }

  /** The statements' expressions, each prefixed; the first that fails ends the loop. */
  function PrefixAll(prefix: string, stmts: seq<AgreeStatement>): Result<seq<Expr>, Failure> {
    if stmts == [] then Ok([])
    else
      var head := AddPrefixToExpr(prefix, stmts[0].expr);
      if head.Err? then Err(head.error) else
      var tail := PrefixAll(prefix, stmts[1..]);
      if tail.Err? then tail else Ok([head.value] + tail.value)
  }

  function ComponentContract(node: AgreeNode): Result<Contract, Failure> {
    var prefix := node.id + DotChar;
    var a := PrefixAll(prefix, node.assumptions);
    if a.Err? then Err(a.error) else
    var g := PrefixAll(prefix, node.guarantees);
    if g.Err? then Err(g.error) else Ok(Contract(node.id, a.value, g.value))
  }

  function ComponentContracts(nodes: seq<AgreeNode>): Result<seq<Contract>, Failure> {
    if nodes == [] then Ok([])
    else
      var head := ComponentContract(nodes[0]);
      if head.Err? then Err(head.error) else
      var tail := ComponentContracts(nodes[1..]);
      if tail.Err? then tail else Ok([head.value] + tail.value)
  }

  function GuaranteeName(i: nat): string {
    GuarSuffix + NatToString(i)
  }

  /** The boolean variable standing for the `i`-th top-level guarantee. */
  function GuaranteeKey(top: AgreeNode, i: nat): VarDecl
    requires i < |top.guarantees|
  {
    AgreeVar(GuaranteeName(i), BoolType, top.guarantees[i].reference, top.compInst)
  }

  /**
   * The system contract.  Every entry of `systemContracts` holds the same
   * two lists, which the loop goes on filling after the entry is made, so
   * each entry ends up with all the assumptions and all the guarantees.
   */
  function SystemContract(top: AgreeNode): Contract {
    Contract(top.id, Exprs(top.assumptions), Exprs(top.guarantees))
  }

  /** The contract map after the first `n` guarantees. */
  function SystemContracts(top: AgreeNode, n: nat): map<VarDecl, Contract>
    requires n <= |top.guarantees|
  {
    if n == 0 then map[] else SystemContracts(top, n - 1)[GuaranteeKey(top, n - 1) := SystemContract(top)]
  }

  function Properties(n: nat): (r: seq<string>)
    ensures |r| == n
  {
    seq(n, k requires 0 <= k < n => GuaranteeName(k))
  }

  /** A connection end: the variable, qualified by its component when there is one. */
  function EndName(node: Option<string>, varName: string): string {
    (if node.None? then "" else node.value + DotChar) + varName
  }

  function ConnectionConstraint(c: AgreeConnection): AgreeStatement {
    AgreeStatement("", BinaryExpr(IdExpr(EndName(c.sourceNode, c.sourceVarName)), Equal,
                                  IdExpr(EndName(c.destinationNode, c.destinationVarName))), c.reference)
  }

  function ConnectionConstraints(cs: seq<AgreeConnection>): (r: seq<AgreeStatement>)
    ensures |r| == |cs|
  {
    seq(|cs|, k requires 0 <= k < |cs| => ConnectionConstraint(cs[k]))
  }

  datatype Parts = Parts(
    sysInputs: seq<VarDecl>,
    sysOutputs: seq<VarDecl>,
    allVariables: seq<VarDecl>,
    systemContracts: map<VarDecl, Contract>,
    componentContracts: seq<Contract>,
    connectionAssertions: seq<AgreeStatement>,
    properties: seq<string>)

  /** Everything the builder passes to the script object, or the exception a component expression raises. */
  function ContractParts(p: AgreeProgram): Result<Parts, Failure> {
    var top := p.topNode;
    match ComponentContracts(top.subNodes)
    case Err(f) => Err(f)
    case Ok(comps) =>
      Ok(Parts(LowerIds(top.inputs), LowerIds(top.outputs), ComponentVariables(top.subNodes),
               SystemContracts(top, |top.guarantees|), comps, ConnectionConstraints(top.connections),
               Properties(|top.guarantees|)))
  }

  // ---------------------------------------------------------------------
  // What the parts promise

  predicate LowerCase(s: string) {
    forall i :: 0 <= i < |s| ==> !('A' <= s[i] <= 'Z')
  }

  /** The system's inputs and outputs keep order, type and provenance; only their names are lower-cased. */
  lemma BoundaryVariables(vs: seq<VarDecl>)
    ensures |LowerIds(vs)| == |vs|
    ensures forall k :: 0 <= k < |vs| ==>
      LowerIds(vs)[k].id == Lower(vs[k].id) && LowerCase(LowerIds(vs)[k].id) &&
      LowerIds(vs)[k].vtype == vs[k].vtype && LowerIds(vs)[k].(id := vs[k].id) == vs[k]
  {
  }

  /** `v` is one of the node's inputs or outputs, qualified by the node's name and lower-cased. */
  predicate FromNode(node: AgreeNode, v: VarDecl) {
    exists w :: w in node.inputs + node.outputs && v == w.(id := Lower(node.id + DotChar + w.id))
  }

  lemma QualifiedMembers(node: AgreeNode, vs: seq<VarDecl>, v: VarDecl)
    ensures v in Qualified(node, vs) <==> exists w :: w in vs && v == w.(id := Lower(node.id + DotChar + w.id))
  {
    if v in Qualified(node, vs) {
      var j :| 0 <= j < |vs| && Qualified(node, vs)[j] == v;
      assert vs[j] in vs;
    }
    if exists w :: w in vs && v == w.(id := Lower(node.id + DotChar + w.id)) {
      var w :| w in vs && v == w.(id := Lower(node.id + DotChar + w.id));
      var j :| 0 <= j < |vs| && vs[j] == w;
      assert Qualified(node, vs)[j] == v;
    }
  }

  lemma NodeMembers(node: AgreeNode, v: VarDecl)
    ensures v in Qualified(node, node.inputs) + Qualified(node, node.outputs) <==> FromNode(node, v)
  {
    QualifiedMembers(node, node.inputs, v);
    QualifiedMembers(node, node.outputs, v);
  }

  /** Exactly the qualified, lower-cased inputs and outputs of the sub-components, and nothing else. */
  lemma {:induction false} ComponentVariablesMembers(nodes: seq<AgreeNode>, v: VarDecl)
    ensures v in ComponentVariables(nodes) <==> exists k :: 0 <= k < |nodes| && FromNode(nodes[k], v)
  {
    if nodes != [] {
      ComponentVariablesMembers(nodes[1..], v);
      NodeMembers(nodes[0], v);
      assert forall k :: 1 <= k < |nodes| ==> nodes[1..][k - 1] == nodes[k];
      if exists k :: 0 <= k < |nodes| && FromNode(nodes[k], v) {
        var k :| 0 <= k < |nodes| && FromNode(nodes[k], v);
        if k > 0 {
          assert FromNode(nodes[1..][k - 1], v);
        }
      }
    }
  }

  /** Each statement's expression prefixed, in order, or the first rejection. */
  lemma {:induction false} PrefixAllMeaning(prefix: string, stmts: seq<AgreeStatement>)
    ensures PrefixAll(prefix, stmts).Ok? <==> forall k :: 0 <= k < |stmts| ==> Prefixable(stmts[k].expr)
    ensures PrefixAll(prefix, stmts).Ok? ==>
      |PrefixAll(prefix, stmts).value| == |stmts| &&
      forall k :: 0 <= k < |stmts| ==> PrefixAll(prefix, stmts).value[k] == AddPrefixToExpr(prefix, stmts[k].expr).value
    ensures PrefixAll(prefix, stmts).Err? ==> Rejection(PrefixAll(prefix, stmts).error)
  {
    if stmts != [] {
      PrefixAllMeaning(prefix, stmts[1..]);
      assert forall k :: 1 <= k < |stmts| ==> stmts[1..][k - 1] == stmts[k];
    }
  }

  /**
   * One contract per sub-component, in order, named after it, with each of
   * its assumptions and guarantees prefixed by `id + dotChar`; it fails
   * exactly when some component expression cannot be prefixed.
   */
  lemma {:induction false} ComponentContractsMeaning(nodes: seq<AgreeNode>)
    ensures ComponentContracts(nodes).Ok? <==>
      forall k :: 0 <= k < |nodes| ==> ComponentContract(nodes[k]).Ok?
    ensures ComponentContracts(nodes).Ok? ==>
      |ComponentContracts(nodes).value| == |nodes| &&
      forall k :: 0 <= k < |nodes| ==> ComponentContracts(nodes).value[k] == ComponentContract(nodes[k]).value
  {
    if nodes != [] {
      ComponentContractsMeaning(nodes[1..]);
      assert forall k :: 1 <= k < |nodes| ==> nodes[1..][k - 1] == nodes[k];
    }
  }

  lemma ComponentContractShape(node: AgreeNode)
    ensures ComponentContract(node).Ok? <==>
      (forall k :: 0 <= k < |node.assumptions| ==> Prefixable(node.assumptions[k].expr)) &&
      (forall k :: 0 <= k < |node.guarantees| ==> Prefixable(node.guarantees[k].expr))
    ensures ComponentContract(node).Ok? ==>
      var c := ComponentContract(node).value;
      c.cname == node.id && |c.assumes| == |node.assumptions| && |c.guarantees| == |node.guarantees| &&
      (forall k :: 0 <= k < |node.assumptions| ==> c.assumes[k] == AddPrefixToExpr(node.id + DotChar, node.assumptions[k].expr).value) &&
      (forall k :: 0 <= k < |node.guarantees| ==> c.guarantees[k] == AddPrefixToExpr(node.id + DotChar, node.guarantees[k].expr).value)
  {
    PrefixAllMeaning(node.id + DotChar, node.assumptions);
    PrefixAllMeaning(node.id + DotChar, node.guarantees);
  }

  /** Distinct counters give distinct property names. */
  lemma PropertiesDistinct(n: nat)
    ensures forall i, j :: 0 <= i < j < n ==> Properties(n)[i] != Properties(n)[j]
  {
    forall i, j | 0 <= i < j < n ensures Properties(n)[i] != Properties(n)[j] {
      if GuaranteeName(i) == GuaranteeName(j) {
        assert NatToString(i) == GuaranteeName(i)[|GuarSuffix|..];
        assert NatToString(j) == GuaranteeName(j)[|GuarSuffix|..];
        NatToStringInjective(i, j);
      }
    }
  }

  lemma GuaranteeNamesDiffer(i: nat, j: nat)
    requires i != j
    ensures GuaranteeName(i) != GuaranteeName(j)
  {
    if GuaranteeName(i) == GuaranteeName(j) {
      assert NatToString(i) == GuaranteeName(i)[|GuarSuffix|..];
      assert NatToString(j) == GuaranteeName(j)[|GuarSuffix|..];
      NatToStringInjective(i, j);
    }
  }

  /** Every entry is the key of one of the first `n` guarantees and holds the system contract. */
  lemma {:induction false} SystemContractsEntries(top: AgreeNode, n: nat)
    requires n <= |top.guarantees|
    ensures forall v :: v in SystemContracts(top, n) ==>
      SystemContracts(top, n)[v] == SystemContract(top) && exists k :: 0 <= k < n && v == GuaranteeKey(top, k)
  {
    if n > 0 {
      SystemContractsEntries(top, n - 1);
    }
  }

  lemma KeyFresh(top: AgreeNode, n: nat)
    requires n < |top.guarantees|
    ensures GuaranteeKey(top, n) !in SystemContracts(top, n)
  {
    SystemContractsEntries(top, n);
    forall k | 0 <= k < n ensures GuaranteeKey(top, k) != GuaranteeKey(top, n) {
      GuaranteeNamesDiffer(k, n);
    }
  }

  lemma {:induction false} SystemContractsSize(top: AgreeNode, n: nat)
    requires n <= |top.guarantees|
    ensures |SystemContracts(top, n)| == n
  {
    if n > 0 {
      SystemContractsSize(top, n - 1);
      KeyFresh(top, n - 1);
    }
  }

  lemma {:induction false} SystemContractsKeys(top: AgreeNode, n: nat)
    requires n <= |top.guarantees|
    ensures forall k :: 0 <= k < n ==> GuaranteeKey(top, k) in SystemContracts(top, n)
  {
    if n > 0 {
      SystemContractsKeys(top, n - 1);
    }
  }

  /**
   * One boolean key per guarantee, named as the matching property: the map
   * has exactly as many entries as there are guarantees, and each holds the
   * system contract.
   */
  lemma SystemContractsMeaning(top: AgreeNode)
    ensures |SystemContracts(top, |top.guarantees|)| == |top.guarantees|
    ensures forall k :: 0 <= k < |top.guarantees| ==>
      GuaranteeKey(top, k) in SystemContracts(top, |top.guarantees|) &&
      GuaranteeKey(top, k).id == Properties(|top.guarantees|)[k] && GuaranteeKey(top, k).vtype == BoolType
    ensures forall v :: v in SystemContracts(top, |top.guarantees|) ==>
      SystemContracts(top, |top.guarantees|)[v] == SystemContract(top) &&
      exists k :: 0 <= k < |top.guarantees| && v == GuaranteeKey(top, k)
  {
    SystemContractsEntries(top, |top.guarantees|);
    SystemContractsSize(top, |top.guarantees|);
    SystemContractsKeys(top, |top.guarantees|);
  }

  /** Each connection is the equality of its source with its destination, in connection order. */
  lemma ConnectionsArePairs(cs: seq<AgreeConnection>)
    ensures forall k :: 0 <= k < |cs| ==>
      IdPair(ConnectionConstraints(cs)[k].expr) &&
      ConnectionConstraints(cs)[k].expr.left.id == EndName(cs[k].sourceNode, cs[k].sourceVarName) &&
      ConnectionConstraints(cs)[k].expr.right.id == EndName(cs[k].destinationNode, cs[k].destinationVarName) &&
      ConnectionConstraints(cs)[k].expr.bop == Equal
  {
  }

  /** So the boundary search of the script object never meets a malformed connection. */
  lemma ConnectionsAttach(cs: seq<AgreeConnection>, ins: seq<VarDecl>, outs: seq<VarDecl>)
    ensures Attached(ConnectionConstraints(cs), ins, outs, []).Ok?
  {
    ConnectionsArePairs(cs);
    AttachedFails(ConnectionConstraints(cs), ins, outs, []);
  }

  /** The program the builder makes, or the exception it raises; the direction plays no part. */
  function ContractProgram(p: AgreeProgram): Result<(Parts, Flags, seq<string>), Failure> {
    match ContractParts(p)
    case Err(f) => Err(f)
    case Ok(parts) =>
      match Built(parts.allVariables, parts.sysInputs, parts.sysOutputs, Some(parts.systemContracts), parts.connectionAssertions)
      case Err(f) => Err(f)
      case Ok((flags, attached)) => Ok((parts, flags, attached))
  }

  /** The program object holds what the builder derives from `p`, and its constructor raised nothing. */
  predicate Builds(r: RedlogProgram, p: AgreeProgram)
    reads r
  {
    && ContractProgram(p).Ok?
    && var (parts, flags, attached) := ContractProgram(p).value;
    && r.failure.None?
    && r.sysInputs == parts.sysInputs && r.sysOutputs == parts.sysOutputs
    && r.allVariables == parts.allVariables && r.systemContracts == parts.systemContracts
    && r.componentContracts == parts.componentContracts
    && r.connectionAssertions == parts.connectionAssertions && r.properties == parts.properties
    && r.globalLustreNodes == p.globalLustreNodes
    && r.hasIntVar == flags.hasInt && r.hasRealVar == flags.hasReal
    && r.sysInputsOutputsAtComponentLevel == attached
  }

  /** Once the component expressions are prefixed, only an unnamed variable type can stop the builder. */
  lemma ContractProgramFails(p: AgreeProgram)
    ensures ContractProgram(p).Err? <==>
      ContractParts(p).Err? || ScanTypes(ContractParts(p).value.allVariables, Flags(false, false)).Err?
  {
    if ContractParts(p).Ok? {
      ConnectionsAttach(p.topNode.connections, ContractParts(p).value.sysInputs, ContractParts(p).value.sysOutputs);
    }
  }

  // ---------------------------------------------------------------------
  // The loops

  method LowerAll(vs: seq<VarDecl>) returns (r: seq<VarDecl>)
    ensures r == LowerIds(vs)
  {
    r := [];
    for k := 0 to |vs|
      invariant r == LowerIds(vs[..k])
    {
      r := r + [vs[k].(id := Lower(vs[k].id))];
    }
    assert vs[..|vs|] == vs;
  }

  method QualifyAll(node: AgreeNode, vs: seq<VarDecl>, acc: seq<VarDecl>) returns (r: seq<VarDecl>)
    ensures r == acc + Qualified(node, vs)
  {
    r := acc;
    var prefix := node.id + DotChar;
    for k := 0 to |vs|
      invariant r == acc + Qualified(node, vs[..k])
    {
      r := r + [vs[k].(id := Lower(prefix + vs[k].id))];
    }
    assert vs[..|vs|] == vs;
  }

  method CollectExprs(stmts: seq<AgreeStatement>) returns (r: seq<Expr>)
    ensures r == Exprs(stmts)
  {
    r := [];
    for k := 0 to |stmts|
      invariant r == Exprs(stmts[..k])
    {
      r := r + [stmts[k].expr];
    }
    assert stmts[..|stmts|] == stmts;
  }

  lemma {:induction false} PrefixAllAppend(prefix: string, a: seq<AgreeStatement>, b: seq<AgreeStatement>)
    ensures PrefixAll(prefix, a + b) ==
      match PrefixAll(prefix, a)
      case Err(f) => Err(f)
      case Ok(x) =>
        match PrefixAll(prefix, b)
        case Err(f) => Err(f)
        case Ok(t) => Ok(x + t)
  {
    if a == [] {
      assert a + b == b;
      if PrefixAll(prefix, b).Ok? {
        assert [] + PrefixAll(prefix, b).value == PrefixAll(prefix, b).value;
      }
    } else {
      assert (a + b)[0] == a[0];
      assert (a + b)[1..] == a[1..] + b;
      PrefixAllAppend(prefix, a[1..], b);
      if PrefixAll(prefix, a).Ok? && PrefixAll(prefix, b).Ok? {
        var h := AddPrefixToExpr(prefix, a[0].expr).value;
        assert [h] + PrefixAll(prefix, a[1..]).value + PrefixAll(prefix, b).value ==
          [h] + (PrefixAll(prefix, a[1..]).value + PrefixAll(prefix, b).value);
      }
    }
  }

  lemma PrefixOne(prefix: string, s: AgreeStatement)
    ensures PrefixAll(prefix, [s]) ==
      match AddPrefixToExpr(prefix, s.expr)
      case Err(f) => Err(f)
      case Ok(e) => Ok([e])
  {
    assert [s][1..] == [];
    assert PrefixAll(prefix, []) == Ok([]);
    var h := AddPrefixToExpr(prefix, s.expr);
    if h.Ok? {
      assert [h.value] + [] == [h.value];
    }
  }

  /** One statement loop of a sub-component: each expression through addPrefixToExpr. */
  method PrefixStatements(prefix: string, stmts: seq<AgreeStatement>) returns (r: Result<seq<Expr>, Failure>)
    ensures r == PrefixAll(prefix, stmts)
  {
    var out: seq<Expr> := [];
    for k := 0 to |stmts|
      invariant PrefixAll(prefix, stmts[..k]) == Ok(out)
    {
      PrefixAllAppend(prefix, stmts[..k], [stmts[k]]);
      assert stmts[..k] + [stmts[k]] == stmts[..k + 1];
      assert [stmts[k]][1..] == [];
      var e := AddPrefixToExpr(prefix, stmts[k].expr);
      PrefixOne(prefix, stmts[k]);
      if e.Err? {
        PrefixAllAppend(prefix, stmts[..k + 1], stmts[k + 1..]);
        assert stmts[..k + 1] + stmts[k + 1..] == stmts;
        return Err(e.error);
      }
      out := out + [e.value];
    }
    assert stmts[..|stmts|] == stmts;
    r := Ok(out);
  }

  /**
   * The top-level loops: the assumption and guarantee expressions, and one
   * property name and one contract key per guarantee, counted from 0.  The
   * keys all share the two expression lists, so once the loop is over every
   * key reads the completed lists.
   */
  method SystemGuarantees(top: AgreeNode) returns (properties: seq<string>, systemContracts: map<VarDecl, Contract>)
    ensures properties == Properties(|top.guarantees|)
    ensures systemContracts == SystemContracts(top, |top.guarantees|)
  {
    var systemAssumptions := CollectExprs(top.assumptions);
    var systemGuarantees: seq<Expr> := [];
    var keys: set<VarDecl> := {};
    properties := [];
    var i := 0;
    while i < |top.guarantees|
      invariant i <= |top.guarantees|
      invariant systemGuarantees == Exprs(top.guarantees[..i])
      invariant properties == Properties(i)
      invariant keys == SystemContracts(top, i).Keys
    {
      var guarantee := top.guarantees[i];
      systemGuarantees := systemGuarantees + [guarantee.expr];
      var guarName := GuarSuffix + NatToString(i);
      i := i + 1;
      properties := properties + [guarName];
      keys := keys + {AgreeVar(guarName, BoolType, guarantee.reference, top.compInst)};
    }
    assert top.guarantees[..i] == top.guarantees;
    systemContracts := map v | v in keys :: Contract(top.id, systemAssumptions, systemGuarantees);
    SystemContractsEntries(top, i);
  }

  lemma {:induction false} ComponentVariablesAppend(a: seq<AgreeNode>, b: seq<AgreeNode>)
    ensures ComponentVariables(a + b) == ComponentVariables(a) + ComponentVariables(b)
  {
    if a == [] {
      assert a + b == b;
    } else {
      assert (a + b)[0] == a[0];
      assert (a + b)[1..] == a[1..] + b;
      ComponentVariablesAppend(a[1..], b);
    }
  }

  lemma {:induction false} ComponentContractsAppend(a: seq<AgreeNode>, b: seq<AgreeNode>)
    ensures ComponentContracts(a + b) ==
      match ComponentContracts(a)
      case Err(f) => Err(f)
      case Ok(x) =>
        match ComponentContracts(b)
        case Err(f) => Err(f)
        case Ok(t) => Ok(x + t)
  {
    if a == [] {
      assert a + b == b;
      if ComponentContracts(b).Ok? {
        assert [] + ComponentContracts(b).value == ComponentContracts(b).value;
      }
    } else {
      assert (a + b)[0] == a[0];
      assert (a + b)[1..] == a[1..] + b;
      ComponentContractsAppend(a[1..], b);
      if ComponentContracts(a).Ok? && ComponentContracts(b).Ok? {
        var h := ComponentContract(a[0]).value;
        assert [h] + ComponentContracts(a[1..]).value + ComponentContracts(b).value ==
          [h] + (ComponentContracts(a[1..]).value + ComponentContracts(b).value);
      }
    }
  }

  lemma ComponentOne(node: AgreeNode)
    ensures ComponentVariables([node]) == Qualified(node, node.inputs) + Qualified(node, node.outputs)
    ensures ComponentContracts([node]) ==
      match ComponentContract(node)
      case Err(f) => Err(f)
      case Ok(c) => Ok([c])
  {
    assert [node][1..] == [];
    assert ComponentContracts([]) == Ok([]);
    var h := ComponentContract(node);
    if h.Ok? {
      assert [h.value] + [] == [h.value];
    }
  }

  /** The loop body for one sub-component: its variables, then its contract. */
  method ComponentParts(node: AgreeNode, vars: seq<VarDecl>) returns (vars': seq<VarDecl>, c: Result<Contract, Failure>)
    ensures vars' == vars + Qualified(node, node.inputs) + Qualified(node, node.outputs)
    ensures c == ComponentContract(node)
  {
    vars' := QualifyAll(node, node.inputs, vars);
    vars' := QualifyAll(node, node.outputs, vars');
    var prefix := node.id + DotChar;
    var componentAssumptions := PrefixStatements(prefix, node.assumptions);
    if componentAssumptions.Err? {
      return vars', Err(componentAssumptions.error);
    }
    var componentGuarantees := PrefixStatements(prefix, node.guarantees);
    if componentGuarantees.Err? {
      return vars', Err(componentGuarantees.error);
    }
    c := Ok(Contract(node.id, componentAssumptions.value, componentGuarantees.value));
  }

  /** One more sub-component, as the loop adds it. */
  lemma ComponentStep(a: seq<AgreeNode>, n: AgreeNode, comps: seq<Contract>)
    requires ComponentContracts(a) == Ok(comps)
    ensures ComponentVariables(a + [n]) == ComponentVariables(a) + Qualified(n, n.inputs) + Qualified(n, n.outputs)
    ensures ComponentContract(n).Ok? ==> ComponentContracts(a + [n]) == Ok(comps + [ComponentContract(n).value])
  {
    ComponentVariablesAppend(a, [n]);
    ComponentContractsAppend(a, [n]);
    ComponentOne(n);
  }

  /** A sub-component whose contract fails, after components that all succeed, fails the whole loop. */
  lemma {:induction false} ComponentFails(nodes: seq<AgreeNode>, k: nat)
    requires k < |nodes| && ComponentContracts(nodes[..k]).Ok? && ComponentContract(nodes[k]).Err?
    ensures ComponentContracts(nodes) == Err(ComponentContract(nodes[k]).error)
  {
    if k > 0 {
      assert nodes[..k][0] == nodes[0];
      assert nodes[..k][1..] == nodes[1..][..k - 1];
      assert nodes[1..][k - 1] == nodes[k];
      ComponentFails(nodes[1..], k - 1);
    }
  }

  /** The sub-component loop; the first expression that cannot be prefixed ends the builder. */
  method ComponentLoop(nodes: seq<AgreeNode>) returns (r: Result<(seq<VarDecl>, seq<Contract>), Failure>)
    ensures ComponentContracts(nodes).Err? ==> r == Err(ComponentContracts(nodes).error)
    ensures ComponentContracts(nodes).Ok? ==> r == Ok((ComponentVariables(nodes), ComponentContracts(nodes).value))
  {
    var allVariables: seq<VarDecl> := [];
    var componentContracts: seq<Contract> := [];
    assert nodes[..0] == [];
    for k := 0 to |nodes|
      invariant allVariables == ComponentVariables(nodes[..k])
      invariant ComponentContracts(nodes[..k]) == Ok(componentContracts)
    {
      ComponentStep(nodes[..k], nodes[k], componentContracts);
      assert nodes[..k + 1] == nodes[..k] + [nodes[k]];
      var c;
      allVariables, c := ComponentParts(nodes[k], allVariables);
      if c.Err? {
        ComponentFails(nodes, k);
        return Err(c.error);
      }
      componentContracts := componentContracts + [c.value];
    }
    assert nodes[..|nodes|] == nodes;
    r := Ok((allVariables, componentContracts));
  }

  /** addConnectionConstraints: one equality statement per connection, appended in order. */
  method AddConnectionConstraints(node: AgreeNode, assertions: seq<AgreeStatement>) returns (r: seq<AgreeStatement>)
    ensures r == assertions + ConnectionConstraints(node.connections)
  {
    r := assertions;
    for k := 0 to |node.connections|
      invariant r == assertions + ConnectionConstraints(node.connections[..k])
    {
      var conn := node.connections[k];
      var destName := if conn.destinationNode.None? then "" else conn.destinationNode.value + DotChar;
      destName := destName + conn.destinationVarName;
      var sourName := if conn.sourceNode.None? then "" else conn.sourceNode.value + DotChar;
      sourName := sourName + conn.sourceVarName;
      var connExpr := BinaryExpr(IdExpr(sourName), Equal, IdExpr(destName));
      r := r + [AgreeStatement("", connExpr, conn.reference)];
    }
    assert node.connections[..|node.connections|] == node.connections;
  }

  /** The collecting part of getContractRedlogProgram. */
  method GetContractParts(p: AgreeProgram) returns (r: Result<Parts, Failure>)
    ensures r == ContractParts(p)
  {
    var top := p.topNode;
    var sysInputs := LowerAll(top.inputs);
    var sysOutputs := LowerAll(top.outputs);
    var properties, systemContracts := SystemGuarantees(top);
    var components := ComponentLoop(top.subNodes);
    if components.Err? {
      return Err(components.error);
    }
    var connectionAssertions := AddConnectionConstraints(top, []);
    assert [] + ConnectionConstraints(top.connections) == ConnectionConstraints(top.connections);
    r := Ok(Parts(sysInputs, sysOutputs, components.value.0, systemContracts, components.value.1,
                  connectionAssertions, properties));
  }

  /**
   * getContractRedlogProgram: the parts handed to the script object, which
   * keeps them as they are.  The direction is never read.
   */
  method GetContractRedlogProgram(p: AgreeProgram, dir: VerificationDirection) returns (r: Result<RedlogProgram, Failure>)
    ensures ContractProgram(p).Err? ==> r == Err(ContractProgram(p).error)
    ensures ContractProgram(p).Ok? ==> r.Ok? && Builds(r.value, p)
  {
    var parts := GetContractParts(p);
    if parts.Err? {
      return Err(parts.error);
    }
    var q := parts.value;
    var redlogProgram := new RedlogProgram(Some(q.sysInputs), Some(q.sysOutputs), Some(q.allVariables),
                                           Some(q.systemContracts), Some(q.componentContracts),
                                           Some(q.connectionAssertions), Some(p.globalLustreNodes), Some(q.properties));
    if redlogProgram.failure.Some? {
      return Err(redlogProgram.failure.value);
    }
    r := Ok(redlogProgram);
  }
}
