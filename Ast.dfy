/**
 * The Lustre expressions, declarations and nodes of jkind, and the AGREE
 * program structure built on them, as values.  `Render` stands in for
 * jkind's `Expr.toString`, whose exact layout is outside this model: it is a
 * fully parenthesised printer with the same operator spellings.
 */
module Ast {
  import opened Wrappers
  import opened Text

  datatype UnaryOp = Negative | Not | Pre

  datatype BinaryOp =
    | Plus | Minus | Multiply | Divide | IntDivide | Modulus
    | Equal | NotEqual | Greater | Less | GreaterEqual | LessEqual
    | Or | And | Xor | Implies | Arrow

  datatype CastType = CastReal | CastInt

  datatype Expr =
    | BoolExpr(b: bool)
    | IntExpr(i: int)
    | RealExpr(digits: string)
    | IdExpr(id: string)
    | RecordAccessExpr(record: Expr, field: string)
    | UnaryExpr(uop: UnaryOp, operand: Expr)
    | BinaryExpr(left: Expr, bop: BinaryOp, right: Expr)
    | IfThenElseExpr(cond: Expr, thenExpr: Expr, elseExpr: Expr)
    | NodeCallExpr(node: string, args: seq<Expr>)
    | CastExpr(ctype: CastType, castee: Expr)
    | CondactExpr(clock: Expr, callNode: string, callArgs: seq<Expr>, defaults: seq<Expr>)
    | RecordExpr(recordType: string, fields: seq<(string, Expr)>)
    | RecordUpdateExpr(updated: Expr, updateField: string, value: Expr)
    | ArrayAccessExpr(array: Expr, index: Expr)
    | ArrayExpr(elements: seq<Expr>)
    | ArrayUpdateExpr(base: Expr, at: Expr, newValue: Expr)
    | TupleExpr(items: seq<Expr>)
    | QuantExpr(quantText: string)
    | InductDataExpr(inductText: string)

  /** The field names of a record expression, in order. */
  function FieldNames(fields: seq<(string, Expr)>): (r: seq<string>)
    ensures |r| == |fields|
    ensures forall k :: 0 <= k < |fields| ==> r[k] == fields[k].0
  {
    if fields == [] then [] else [fields[0].0] + FieldNames(fields[1..])
  }

  datatype Type = NamedType(name: string) | OtherType(text: string)

  const BoolType: Type := NamedType("bool")

  /** The model element an AGREE variable was generated from. */
  datatype Ref =
    | GuaranteeStatement(text: string)
    | AssumeStatement(text: string)
    | LemmaStatement(text: string)
    | AssertStatement(text: string)
    | ArgRef(name: string)
    | DataPort(name: string)
    | EventDataPort(name: string)
    | FeatureGroup(name: string)
    | PropertyStatement(name: string)
    | ComponentTypeRef(name: string)
    | ComponentImplementationRef(name: string)
    | OtherElement(className: string)

  /** A component instance, seen through the relative location of its instance path. */
  datatype CompInst = CompInst(relativeLocation: string)

  /** jkind's VarDecl, or AGREE's subclass of it that remembers its origin. */
  datatype VarDecl =
    | PlainVar(id: string, vtype: Type)
    | AgreeVar(id: string, vtype: Type, reference: Option<Ref>, compInst: Option<CompInst>)

  datatype Equation = Equation(lhs: seq<string>, rhs: Expr)

  datatype Node = Node(
    nid: string,
    inputs: seq<VarDecl>,
    outputs: seq<VarDecl>,
    locals: seq<VarDecl>,
    equations: seq<Equation>,
    properties: seq<string>)

  datatype Program = Program(nodes: seq<Node>, main: string)

  datatype Contract = Contract(cname: string, assumes: seq<Expr>, guarantees: seq<Expr>)

  datatype AgreeStatement = AgreeStatement(text: string, expr: Expr, reference: Option<Ref>)

  /** A connection; a missing node means the variable belongs to the enclosing component. */
  datatype AgreeConnection = AgreeConnection(
    sourceNode: Option<string>,
    sourceVarName: string,
    destinationNode: Option<string>,
    destinationVarName: string,
    reference: Option<Ref>)

  datatype AgreeNode = AgreeNode(
    id: string,
    inputs: seq<VarDecl>,
    outputs: seq<VarDecl>,
    assumptions: seq<AgreeStatement>,
    guarantees: seq<AgreeStatement>,
    lemmas: seq<AgreeStatement>,
    subNodes: seq<AgreeNode>,
    connections: seq<AgreeConnection>,
    compInst: Option<CompInst>)

  datatype AgreeProgram = AgreeProgram(topNode: AgreeNode, globalLustreNodes: seq<Node>)

  /** An AGREE annex subclause, by its text. */
  datatype AgreeSubclause = AgreeSubclause(text: string)

  /**
   * An annex subclause a component type owns: an AGREE subclause itself, the
   * default container OSATE keeps an annex in (with the subclause parsed
   * from it, if any), or an annex of another language.
   */
  datatype Annex =
    | AgreeAnnex(subclause: AgreeSubclause)
    | DefaultAnnex(parsed: Option<AgreeSubclause>)
    | OtherAnnex(language: string)

  /** An AADL component type, with the annex subclauses it owns. */
  datatype ComponentType = ComponentType(typeName: string, ownedAnnexes: seq<Annex>)

  /** An AADL component implementation, with the type it realises. */
  datatype ComponentImpl = ComponentImpl(implName: string, implemented: ComponentType)

  /** Separator AGREE puts between a component name and a variable name. */
  const DotChar: string := "__"

  /** Suffix AGREE gives to the clock variables it generates. */
  const ClockIdSuffix: string := "___CLOCK_"

  // ---------------------------------------------------------------------
  // Printing

  function UnaryOpText(op: UnaryOp): string {
    match op
    case Negative => "-"
    case Not => "not"
    case Pre => "pre"
  }

  function BinaryOpText(op: BinaryOp): string {
    match op
    case Plus => "+"
    case Minus => "-"
    case Multiply => "*"
    case Divide => "/"
    case IntDivide => "div"
    case Modulus => "mod"
    case Equal => "="
    case NotEqual => "<>"
    case Greater => ">"
    case Less => "<"
    case GreaterEqual => ">="
    case LessEqual => "<="
    case Or => "or"
    case And => "and"
    case Xor => "xor"
    case Implies => "=>"
    case Arrow => "->"
  }

  function CastText(t: CastType): string {
    match t
    case CastReal => "real"
    case CastInt => "floor"
  }

  function Paren(s: string): string {
    "(" + s + ")"
  }

  function Render(e: Expr): string
    decreases e, 1
  {
    match e
    case BoolExpr(b) => if b then "true" else "false"
    case IntExpr(i) => IntToString(i)
    case RealExpr(d) => d
    case IdExpr(id) => id
    case RecordAccessExpr(r, f) => Render(r) + "." + f
    case UnaryExpr(op, x) => Paren(UnaryOpText(op) + " " + Render(x))
    case BinaryExpr(l, op, r) => Paren(Render(l) + " " + BinaryOpText(op) + " " + Render(r))
    case IfThenElseExpr(c, t, f) => Paren("if " + Render(c) + " then " + Render(t) + " else " + Render(f))
    case NodeCallExpr(n, args) => n + Paren(RenderList(args))
    case CastExpr(t, x) => CastText(t) + Paren(Render(x))
    case CondactExpr(c, n, cargs, ds) =>
      "condact" + Paren(Render(c) + ", " + n + Paren(RenderList(cargs)) + ", " + RenderList(ds))
    case RecordExpr(id, fs) => id + " {" + RenderFields(fs) + "}"
    case RecordUpdateExpr(r, f, v) => Paren(Render(r) + " {" + f + " := " + Render(v) + "}")
    case ArrayAccessExpr(a, i) => Render(a) + "[" + Render(i) + "]"
    case ArrayExpr(es) => "[" + RenderList(es) + "]"
    case ArrayUpdateExpr(a, i, v) => Paren(Render(a) + "[" + Render(i) + " := " + Render(v) + "]")
    case TupleExpr(es) => Paren(RenderList(es))
    case QuantExpr(t) => t
    case InductDataExpr(t) => t
  }

  function RenderList(es: seq<Expr>): string
    decreases es, 0
  {
    if es == [] then ""
    else if |es| == 1 then Render(es[0])
    else Render(es[0]) + ", " + RenderList(es[1..])
  }

  function RenderFields(fs: seq<(string, Expr)>): string
    decreases fs, 0
  {
    if fs == [] then ""
    else
      assert fs[0].1 < fs[0];
      fs[0].0 + " = " + Render(fs[0].1) + (if |fs| == 1 then "" else "; " + RenderFields(fs[1..]))
  }

  // ---------------------------------------------------------------------
  // Parenthesis balance of printed expressions

  predicate NoParens(s: string) {
    Count(s, '(') == 0 && Count(s, ')') == 0
  }

  predicate Balanced(s: string) {
    Count(s, '(') == Count(s, ')')
  }

  lemma BalancedCat(a: string, b: string)
    requires Balanced(a) && Balanced(b)
    ensures Balanced(a + b)
  {
    CountAppend(a, b, '(');
    CountAppend(a, b, ')');
  }

  lemma BalancedParen(s: string)
    requires Balanced(s)
    ensures Balanced(Paren(s))
  {
    CountAppend("(", s, '(');
    CountAppend("(", s, ')');
    CountAppend("(" + s, ")", '(');
    CountAppend("(" + s, ")", ')');
  }

  lemma BalancedCat3(a: string, b: string, c: string)
    requires Balanced(a) && Balanced(b) && Balanced(c)
    ensures Balanced(a + b + c)
  {
    BalancedCat(a, b);
    BalancedCat(a + b, c);
  }

  lemma ParenFreeText(s: string)
    requires '(' !in s && ')' !in s
    ensures NoParens(s) && Balanced(s)
  {
    CountAbsent(s, '(');
    CountAbsent(s, ')');
  }

  lemma OpTextsBalanced(u: UnaryOp, b: BinaryOp)
    ensures Balanced(UnaryOpText(u)) && Balanced(BinaryOpText(b))
  {
    ParenFreeText(UnaryOpText(u));
    ParenFreeText(BinaryOpText(b));
  }

  lemma NatTextHasNoParens(n: nat)
    ensures NoParens(NatToString(n))
  {
    ParenFreeText(NatToString(n));
  }

  lemma IntTextBalanced(i: int)
    ensures Balanced(IntToString(i))
  {
    ParenFreeText(IntToString(i));
  }

  lemma UnaryShape(op: UnaryOp, x: string)
    requires Balanced(x)
    ensures Balanced(Paren(UnaryOpText(op) + " " + x))
  {
    OpTextsBalanced(op, And);
    ParenFreeText(" ");
    BalancedCat3(UnaryOpText(op), " ", x);
    BalancedParen(UnaryOpText(op) + " " + x);
  }

  lemma BinaryShape(l: string, op: BinaryOp, r: string)
    requires Balanced(l) && Balanced(r)
    ensures Balanced(Paren(l + " " + BinaryOpText(op) + " " + r))
  {
    OpTextsBalanced(Not, op);
    ParenFreeText(" ");
    BalancedCat3(l, " ", BinaryOpText(op));
    BalancedCat3(l + " " + BinaryOpText(op), " ", r);
    BalancedParen(l + " " + BinaryOpText(op) + " " + r);
  }

  lemma IteShape(c: string, t: string, f: string)
    requires Balanced(c) && Balanced(t) && Balanced(f)
    ensures Balanced(Paren("if " + c + " then " + t + " else " + f))
  {
    ParenFreeText("if ");
    ParenFreeText(" then ");
    ParenFreeText(" else ");
    BalancedCat3("if ", c, " then ");
    BalancedCat3("if " + c + " then ", t, " else ");
    BalancedCat("if " + c + " then " + t + " else ", f);
    BalancedParen("if " + c + " then " + t + " else " + f);
  }

  lemma CallShape(n: string, args: string)
    requires Balanced(n) && Balanced(args)
    ensures Balanced(n + Paren(args))
  {
    BalancedParen(args);
    BalancedCat(n, Paren(args));
  }

  lemma CondactShape(c: string, n: string, cargs: string, ds: string)
    requires Balanced(c) && Balanced(n) && Balanced(cargs) && Balanced(ds)
    ensures Balanced("condact" + Paren(c + ", " + n + Paren(cargs) + ", " + ds))
  {
    ParenFreeText(", ");
    ParenFreeText("condact");
    BalancedParen(cargs);
    BalancedCat3(c, ", ", n);
    BalancedCat3(c + ", " + n, Paren(cargs), ", ");
    BalancedCat(c + ", " + n + Paren(cargs) + ", ", ds);
    BalancedParen(c + ", " + n + Paren(cargs) + ", " + ds);
    BalancedCat("condact", Paren(c + ", " + n + Paren(cargs) + ", " + ds));
  }

  lemma Wrap3Shape(a: string, b: string, c: string, d: string, e: string)
    requires Balanced(a) && Balanced(b) && Balanced(c) && Balanced(d) && Balanced(e)
    ensures Balanced(a + b + c + d + e)
  {
    BalancedCat3(a, b, c);
    BalancedCat3(a + b + c, d, e);
  }

  /** A record or array update printed as `(base open field := value close)`, with paren-free brackets. */
  lemma UpdateShape(r: string, open: string, f: string, v: string, close: string)
    requires Balanced(r) && Balanced(f) && Balanced(v)
    requires '(' !in open && ')' !in open && '(' !in close && ')' !in close
    ensures Balanced(Paren(r + open + f + " := " + v + close))
  {
    ParenFreeText(open);
    ParenFreeText(" := ");
    ParenFreeText(close);
    Wrap3Shape(r, open, f, " := ", v);
    BalancedCat(r + open + f + " := " + v, close);
    BalancedParen(r + open + f + " := " + v + close);
  }

  /** Every name and literal text inside `e` is free of parentheses. */
  predicate TextsParenFree(e: Expr)
    decreases e, 1
  {
    match e
    case BoolExpr(_) => true
    case IntExpr(_) => true
    case RealExpr(d) => NoParens(d)
    case IdExpr(id) => NoParens(id)
    case RecordAccessExpr(r, f) => TextsParenFree(r) && NoParens(f)
    case UnaryExpr(_, x) => TextsParenFree(x)
    case BinaryExpr(l, _, r) => TextsParenFree(l) && TextsParenFree(r)
    case IfThenElseExpr(c, t, f) => TextsParenFree(c) && TextsParenFree(t) && TextsParenFree(f)
    case NodeCallExpr(n, args) => NoParens(n) && ListParenFree(args)
    case CastExpr(_, x) => TextsParenFree(x)
    case CondactExpr(c, n, cargs, ds) => TextsParenFree(c) && NoParens(n) && ListParenFree(cargs) && ListParenFree(ds)
    case RecordExpr(id, fs) => NoParens(id) && FieldsParenFree(fs)
    case RecordUpdateExpr(r, f, v) => TextsParenFree(r) && NoParens(f) && TextsParenFree(v)
    case ArrayAccessExpr(a, i) => TextsParenFree(a) && TextsParenFree(i)
    case ArrayExpr(es) => ListParenFree(es)
    case ArrayUpdateExpr(a, i, v) => TextsParenFree(a) && TextsParenFree(i) && TextsParenFree(v)
    case TupleExpr(es) => ListParenFree(es)
    case QuantExpr(t) => Balanced(t)
    case InductDataExpr(t) => Balanced(t)
  }

  predicate ListParenFree(es: seq<Expr>)
    decreases es, 0
  {
    es == [] || (TextsParenFree(es[0]) && ListParenFree(es[1..]))
  }

  predicate FieldsParenFree(fs: seq<(string, Expr)>)
    decreases fs, 0
  {
    fs == [] || (assert fs[0].1 < fs[0]; NoParens(fs[0].0) && TextsParenFree(fs[0].1) && FieldsParenFree(fs[1..]))
  }

  /** The printer opens exactly as many parentheses as it closes. */
  lemma {:induction false} RenderBalanced(e: Expr)
    requires TextsParenFree(e)
    ensures Balanced(Render(e))
    decreases e, 1
  {
    match e
    case BoolExpr(b) =>
      ParenFreeText(Render(e));
    case IntExpr(i) =>
      IntTextBalanced(i);
    case RealExpr(d) =>
    case IdExpr(id) =>
    case RecordAccessExpr(r, f) =>
      RenderBalanced(r);
      ParenFreeText(".");
      BalancedCat3(Render(r), ".", f);
    case UnaryExpr(op, x) =>
      RenderBalanced(x);
      UnaryShape(op, Render(x));
    case BinaryExpr(l, op, r) =>
      RenderBalanced(l);
      RenderBalanced(r);
      BinaryShape(Render(l), op, Render(r));
    case IfThenElseExpr(c, t, f) =>
      RenderBalanced(c);
      RenderBalanced(t);
      RenderBalanced(f);
      IteShape(Render(c), Render(t), Render(f));
    case NodeCallExpr(n, args) =>
      RenderListBalanced(args);
      CallShape(n, RenderList(args));
    case CastExpr(t, x) =>
      RenderBalanced(x);
      ParenFreeText(CastText(t));
      CallShape(CastText(t), Render(x));
    case CondactExpr(c, n, cargs, ds) =>
      RenderBalanced(c);
      RenderListBalanced(cargs);
      RenderListBalanced(ds);
      CondactShape(Render(c), n, RenderList(cargs), RenderList(ds));
    case RecordExpr(id, fs) =>
      RenderFieldsBalanced(fs);
      ParenFreeText(" {");
      ParenFreeText("}");
      BalancedCat3(id, " {", RenderFields(fs));
      BalancedCat(id + " {" + RenderFields(fs), "}");
    case RecordUpdateExpr(r, f, v) =>
      RenderBalanced(r);
      RenderBalanced(v);
      UpdateShape(Render(r), " {", f, Render(v), "}");
    case ArrayAccessExpr(a, i) =>
      RenderBalanced(a);
      RenderBalanced(i);
      ParenFreeText("[");
      ParenFreeText("]");
      BalancedCat3(Render(a), "[", Render(i));
      BalancedCat(Render(a) + "[" + Render(i), "]");
    case ArrayExpr(es) =>
      RenderListBalanced(es);
      ParenFreeText("[");
      ParenFreeText("]");
      BalancedCat3("[", RenderList(es), "]");
    case ArrayUpdateExpr(a, i, v) =>
      RenderBalanced(a);
      RenderBalanced(i);
      RenderBalanced(v);
      UpdateShape(Render(a), "[", Render(i), Render(v), "]");
    case TupleExpr(es) =>
      RenderListBalanced(es);
      BalancedParen(RenderList(es));
    case QuantExpr(t) =>
    case InductDataExpr(t) =>
  }

  lemma {:induction false} RenderListBalanced(es: seq<Expr>)
    requires ListParenFree(es)
    ensures Balanced(RenderList(es))
    decreases es, 0
  {
    if es != [] {
      RenderBalanced(es[0]);
      if |es| > 1 {
        RenderListBalanced(es[1..]);
        ParenFreeText(", ");
        BalancedCat3(Render(es[0]), ", ", RenderList(es[1..]));
      }
    }
  }

  lemma {:induction false} RenderFieldsBalanced(fs: seq<(string, Expr)>)
    requires FieldsParenFree(fs)
    ensures Balanced(RenderFields(fs))
    decreases fs, 0
  {
    if fs != [] {
      assert fs[0].1 < fs[0];
      RenderBalanced(fs[0].1);
      ParenFreeText(" = ");
      ParenFreeText("; ");
      ParenFreeText("");
      BalancedCat3(fs[0].0, " = ", Render(fs[0].1));
      var tail := if |fs| == 1 then "" else "; " + RenderFields(fs[1..]);
      if |fs| > 1 {
        RenderFieldsBalanced(fs[1..]);
        BalancedCat("; ", RenderFields(fs[1..]));
      }
      BalancedCat(fs[0].0 + " = " + Render(fs[0].1), tail);
    }
  }
}
