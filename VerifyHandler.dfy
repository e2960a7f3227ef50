/**
 * The sequential bookkeeping of the AGREE verify handler: the messages of a
 * cause chain, the references and renamings recorded for the variables of a
 * main node, the Kind 2 property numbering, the creation of the one queued
 * result of an analysis, and the analysis thread's drain of that queue.
 */
module VerifyHandler {
  import opened Wrappers
  import opened Text
  import opened Ast
  import opened ResultsLinker
  import RedlogScript

  type Failure = RedlogScript.Failure

  // ---------------------------------------------------------------------
  // Messages of a cause chain

  /** The line `println` adds for one throwable: only a non-null, non-empty message gets one. */
  function MessageLine(m: Option<string>, eol: string): string {
    if m.Some? && m.value != "" then m.value + eol else ""
  }

  /** The messages of a cause chain (outermost first, `None` for a null message), one per line. */
  function NestedMessages(chain: seq<Option<string>>, eol: string): string {
    if chain == [] then ""
    else NestedMessages(chain[..|chain| - 1], eol) + MessageLine(chain[|chain| - 1], eol)
  }

  /** The non-null, non-empty messages of a chain, in order. */
  function Present(chain: seq<Option<string>>): seq<string> {
    if chain == [] then []
    else
      var m := chain[|chain| - 1];
      Present(chain[..|chain| - 1]) + (if m.Some? && m.value != "" then [m.value] else [])
  }

  /** getNestedMessages: the chain is followed from the outermost throwable through its causes. */
  method GetNestedMessages(chain: seq<Option<string>>, eol: string) returns (messages: string)
    ensures messages == NestedMessages(chain, eol)
  {
    messages := "";
    var i := 0;
    while i < |chain|
      invariant 0 <= i <= |chain|
      invariant messages == NestedMessages(chain[..i], eol)
    {
      var m := chain[i];
      if m.Some? && m.value != "" {
        messages := messages + m.value + eol;
      }
      assert chain[..i + 1][..i] == chain[..i];
      i := i + 1;
    }
    assert chain[..i] == chain;
  }

  /** The result is one line per present message, outermost first. */
  lemma {:induction false} NestedMessagesLines(chain: seq<Option<string>>, eol: string)
    ensures NestedMessages(chain, eol) == AppendEach(Present(chain), eol)
  {
    if chain != [] {
      var init, m := chain[..|chain| - 1], chain[|chain| - 1];
      NestedMessagesLines(init, eol);
      if m.Some? && m.value != "" {
        AppendEachSnoc(Present(init), m.value, eol);
      } else {
        assert Present(chain) == Present(init);
      }
    }
  }

  /** Exactly the non-empty messages of the chain are present. */
  lemma {:induction false} PresentMessages(chain: seq<Option<string>>)
    ensures forall s :: s in Present(chain) <==> s != "" && Some(s) in chain
  {
    if chain != [] {
      var init := chain[..|chain| - 1];
      PresentMessages(init);
      assert chain == init + [chain[|chain| - 1]];
    }
  }

  /** Wrapping a throwable around a chain puts the wrapper's line first. */
  lemma {:induction false} NestedMessagesWrap(m: Option<string>, chain: seq<Option<string>>, eol: string)
    ensures NestedMessages([m] + chain, eol) == MessageLine(m, eol) + NestedMessages(chain, eol)
    decreases |chain|
  {
    if chain == [] {
      assert ([m] + chain)[..0] == [];
    } else {
      var init, last := chain[..|chain| - 1], chain[|chain| - 1];
      assert ([m] + chain)[..|chain|] == [m] + init;
      assert ([m] + chain)[|chain|] == last;
      NestedMessagesWrap(m, init, eol);
      SeqAssoc(MessageLine(m, eol), NestedMessages(init, eol), MessageLine(last, eol));
    }
  }

  // ---------------------------------------------------------------------
  // Kind 2 property numbering

  /** One statement's record: the explicit rename it adds and the property it names. */
  datatype Kind2Entry = Kind2Entry(renamedFrom: string, renamedTo: string, property: string)

  function PropPrefix(userPropPrefix: string): string {
    if userPropPrefix == "" then "" else userPropPrefix + ": "
  }

  function SubPrefix(userPropPrefix: string): string {
    if userPropPrefix == "" then "" else userPropPrefix + "."
  }

  function Numbered(prefix: string, i: nat): string {
    prefix + "[" + NatToString(i) + "]"
  }

  /** The prefix with every `.` replaced by the dot substitute. */
  function Escaped(prefix: string): string {
    ReplaceChar(prefix, '.', DotChar)
  }

  function Entry(prefix: string, propPrefix: string, s: AgreeStatement, i: nat): Kind2Entry {
    Kind2Entry(Numbered(prefix, i), propPrefix + s.text, Numbered(Escaped(prefix), i))
  }

  /** The entries of a node's own statements, the k-th numbered k + 1. */
  function StatementEntries(stmts: seq<AgreeStatement>, prefix: string, propPrefix: string): seq<Kind2Entry> {
    if stmts == [] then []
    else StatementEntries(stmts[..|stmts| - 1], prefix, propPrefix) + [Entry(prefix, propPrefix, stmts[|stmts| - 1], |stmts|)]
  }

  /** addKind2Properties: a node's lemmas, then its guarantees, then its sub-nodes in order. */
  function Kind2Entries(node: AgreeNode, prefix: string, userPropPrefix: string): seq<Kind2Entry>
    decreases node, 1
  {
    StatementEntries(node.lemmas + node.guarantees, prefix, PropPrefix(userPropPrefix))
      + SubNodeEntries(node, |node.subNodes|, prefix, SubPrefix(userPropPrefix))
  }

  /** The entries of the first `k` sub-nodes of `node`. */
  function SubNodeEntries(node: AgreeNode, k: nat, prefix: string, userPrefix: string): seq<Kind2Entry>
    requires k <= |node.subNodes|
    decreases node, 0, k
  {
    if k == 0 then []
    else
      var sub := node.subNodes[k - 1];
      SubNodeEntries(node, k - 1, prefix, userPrefix) + Kind2Entries(sub, prefix + "." + sub.id, userPrefix + sub.id)
  }

  function PropertiesOf(es: seq<Kind2Entry>): seq<string> {
    if es == [] then [] else PropertiesOf(es[..|es| - 1]) + [es[|es| - 1].property]
  }

  function RenamesOf(es: seq<Kind2Entry>): seq<(string, Option<string>)> {
    if es == [] then []
    else RenamesOf(es[..|es| - 1]) + [RenameOf(es[|es| - 1])]
  }

  /** The explicit rename an entry records: from the numbered name to the property text. */
  function RenameOf(e: Kind2Entry): (string, Option<string>) {
    (e.renamedFrom, Some(e.renamedTo))
  }

  lemma {:induction false} EntriesAppend(a: seq<Kind2Entry>, b: seq<Kind2Entry>)
    ensures PropertiesOf(a + b) == PropertiesOf(a) + PropertiesOf(b)
    ensures RenamesOf(a + b) == RenamesOf(a) + RenamesOf(b)
    decreases |b|
  {
    if b == [] {
      assert a + b == a;
    } else {
      assert (a + b)[..|a + b| - 1] == a + b[..|b| - 1];
      EntriesAppend(a, b[..|b| - 1]);
    }
  }

  /** Regrouping a concatenation, stated on variables so the solver need not compare elements. */
  lemma SeqAssoc<T>(a: seq<T>, b: seq<T>, c: seq<T>)
    ensures a + b + c == a + (b + c)
  {
  }

  lemma SubNodeSmaller(node: AgreeNode, k: nat)
    requires k < |node.subNodes|
    ensures node.subNodes[k] < node
  {
  }

  /** The state after one more numbered statement, regrouped. */
  lemma NumberedStep(stmts: seq<AgreeStatement>, i: nat, prefix: string, propPrefix: string,
                     p0: seq<string>, r0: seq<(string, Option<string>)>)
    requires i < |stmts|
    ensures var e := Entry(prefix, propPrefix, stmts[i], i + 1);
      && p0 + PropertiesOf(StatementEntries(stmts[..i + 1], prefix, propPrefix)) == p0 + PropertiesOf(StatementEntries(stmts[..i], prefix, propPrefix)) + [e.property]
      && r0 + RenamesOf(StatementEntries(stmts[..i + 1], prefix, propPrefix)) == r0 + RenamesOf(StatementEntries(stmts[..i], prefix, propPrefix)) + [RenameOf(e)]
  {
    var e := Entry(prefix, propPrefix, stmts[i], i + 1);
    EntriesSnoc(stmts, i, prefix, propPrefix);
    SeqAssoc(p0, PropertiesOf(StatementEntries(stmts[..i], prefix, propPrefix)), [e.property]);
    SeqAssoc(r0, RenamesOf(StatementEntries(stmts[..i], prefix, propPrefix)), [RenameOf(e)]);
  }

  /** The state after the entries `a` and then `b`, regrouped. */
  lemma EntriesExtend(p0: seq<string>, r0: seq<(string, Option<string>)>, a: seq<Kind2Entry>, b: seq<Kind2Entry>)
    ensures p0 + PropertiesOf(a + b) == p0 + PropertiesOf(a) + PropertiesOf(b)
    ensures r0 + RenamesOf(a + b) == r0 + RenamesOf(a) + RenamesOf(b)
  {
    EntriesAppend(a, b);
    SeqAssoc(p0, PropertiesOf(a), PropertiesOf(b));
    SeqAssoc(r0, RenamesOf(a), RenamesOf(b));
  }

  /** Adding the next sub-node appends its own entries. */
  lemma SubNodeEntriesStep(node: AgreeNode, k: nat, prefix: string, userPrefix: string,
                            p0: seq<string>, r0: seq<(string, Option<string>)>)
    requires k < |node.subNodes|
    ensures var sub := node.subNodes[k];
      var added := Kind2Entries(sub, prefix + "." + sub.id, userPrefix + sub.id);
      && p0 + PropertiesOf(SubNodeEntries(node, k + 1, prefix, userPrefix)) == p0 + PropertiesOf(SubNodeEntries(node, k, prefix, userPrefix)) + PropertiesOf(added)
      && r0 + RenamesOf(SubNodeEntries(node, k + 1, prefix, userPrefix)) == r0 + RenamesOf(SubNodeEntries(node, k, prefix, userPrefix)) + RenamesOf(added)
  {
    var sub := node.subNodes[k];
    EntriesExtend(p0, r0, SubNodeEntries(node, k, prefix, userPrefix), Kind2Entries(sub, prefix + "." + sub.id, userPrefix + sub.id));
  }

  lemma EntriesSnoc(stmts: seq<AgreeStatement>, j: nat, prefix: string, propPrefix: string)
    requires j < |stmts|
    ensures var e := Entry(prefix, propPrefix, stmts[j], j + 1);
      && PropertiesOf(StatementEntries(stmts[..j + 1], prefix, propPrefix)) == PropertiesOf(StatementEntries(stmts[..j], prefix, propPrefix)) + [e.property]
      && RenamesOf(StatementEntries(stmts[..j + 1], prefix, propPrefix)) == RenamesOf(StatementEntries(stmts[..j], prefix, propPrefix)) + [RenameOf(e)]
  {
    assert stmts[..j + 1][..j] == stmts[..j];
    EntriesAppend(StatementEntries(stmts[..j], prefix, propPrefix), [Entry(prefix, propPrefix, stmts[j], j + 1)]);
  }

  lemma {:induction false} StatementEntriesEach(stmts: seq<AgreeStatement>, prefix: string, propPrefix: string)
    ensures var es := StatementEntries(stmts, prefix, propPrefix);
      |es| == |stmts| && forall k :: 0 <= k < |stmts| ==> es[k] == Entry(prefix, propPrefix, stmts[k], k + 1)
  {
    if stmts != [] {
      StatementEntriesEach(stmts[..|stmts| - 1], prefix, propPrefix);
    }
  }

  /**
   * Within a node, lemma k is numbered k + 1 and guarantee j is numbered
   * L + j + 1 (L lemmas), and all of them come before any sub-node's entry.
   */
  lemma Kind2Numbering(node: AgreeNode, prefix: string, userPropPrefix: string)
    ensures var es, L := Kind2Entries(node, prefix, userPropPrefix), |node.lemmas|;
      var pp := PropPrefix(userPropPrefix);
      && L + |node.guarantees| <= |es|
      && (forall k :: 0 <= k < L ==> es[k] == Entry(prefix, pp, node.lemmas[k], k + 1))
      && (forall j :: 0 <= j < |node.guarantees| ==> es[L + j] == Entry(prefix, pp, node.guarantees[j], L + j + 1))
  {
    var stmts, pp := node.lemmas + node.guarantees, PropPrefix(userPropPrefix);
    var own := StatementEntries(stmts, prefix, pp);
    var es := own + SubNodeEntries(node, |node.subNodes|, prefix, SubPrefix(userPropPrefix));
    assert Kind2Entries(node, prefix, userPropPrefix) == es;
    StatementEntriesEach(stmts, prefix, pp);
    forall k | 0 <= k < |node.lemmas|
      ensures es[k] == Entry(prefix, pp, node.lemmas[k], k + 1)
    {
      assert es[k] == own[k] && stmts[k] == node.lemmas[k];
    }
    forall j | 0 <= j < |node.guarantees|
      ensures es[|node.lemmas| + j] == Entry(prefix, pp, node.guarantees[j], |node.lemmas| + j + 1)
    {
      assert es[|node.lemmas| + j] == own[|node.lemmas| + j] && stmts[|node.lemmas| + j] == node.guarantees[j];
    }
  }

  lemma NumberedInjective(p: string, i: nat, j: nat)
    requires Numbered(p, i) == Numbered(p, j)
    ensures i == j
  {
    var a, b := NatToString(i), NatToString(j);
    var x, y := Numbered(p, i), Numbered(p, j);
    assert x == p + "[" + a + "]" && y == p + "[" + b + "]";
    assert |a| == |b|;
    assert x[|p| + 1..|x| - 1] == a;
    assert y[|p| + 1..|y| - 1] == b;
    NatToStringInjective(i, j);
  }

  /** The properties and rename sources of one node's statements are pairwise distinct. */
  lemma OwnEntriesDistinct(node: AgreeNode, prefix: string, userPropPrefix: string)
    ensures var es, n := Kind2Entries(node, prefix, userPropPrefix), |node.lemmas| + |node.guarantees|;
      n <= |es| &&
      forall a, b :: 0 <= a < b < n ==> es[a].property != es[b].property && es[a].renamedFrom != es[b].renamedFrom
  {
    var es, n := Kind2Entries(node, prefix, userPropPrefix), |node.lemmas| + |node.guarantees|;
    var stmts := node.lemmas + node.guarantees;
    StatementEntriesEach(stmts, prefix, PropPrefix(userPropPrefix));
    forall a, b | 0 <= a < b < n
      ensures es[a].property != es[b].property && es[a].renamedFrom != es[b].renamedFrom
    {
      assert es[a] == Entry(prefix, PropPrefix(userPropPrefix), stmts[a], a + 1);
      assert es[b] == Entry(prefix, PropPrefix(userPropPrefix), stmts[b], b + 1);
      if es[a].property == es[b].property {
        NumberedInjective(Escaped(prefix), a + 1, b + 1);
      }
      if es[a].renamedFrom == es[b].renamedFrom {
        NumberedInjective(prefix, a + 1, b + 1);
      }
    }
  }

  lemma StartsWithTrans(s: string, p: string, q: string)
    requires StartsWith(s, p) && StartsWith(p, q)
    ensures StartsWith(s, q)
  {
    assert s[..|q|] == s[..|p|][..|q|];
  }

  lemma NumberedStarts(p: string, i: nat)
    ensures StartsWith(Numbered(p, i), p)
  {
    assert Numbered(p, i) == p + ("[" + NatToString(i) + "]");
  }

  /** A sub-node's prefix extends its parent's by `.` and the sub-node's id, in both spellings. */
  lemma SubPrefixStarts(prefix: string, id: string)
    ensures StartsWith(prefix + "." + id, prefix + ".")
    ensures Escaped(prefix + "." + id) == Escaped(prefix) + DotChar + Escaped(id)
    ensures StartsWith(Escaped(prefix + "." + id), Escaped(prefix) + DotChar)
  {
    ReplaceCharAppend(prefix + ".", id, '.', DotChar);
    ReplaceCharAppend(prefix, ".", '.', DotChar);
    assert ReplaceChar(".", '.', DotChar) == DotChar;
    assert Escaped(prefix) + DotChar + Escaped(id) == (Escaped(prefix) + DotChar) + Escaped(id);
  }

  /** Every entry of a node is named under the node's prefix; a sub-node's under `prefix.` and `prefix` with the dot substitute. */
  lemma {:induction false} Kind2UnderPrefix(node: AgreeNode, prefix: string, userPropPrefix: string)
    ensures forall e | e in Kind2Entries(node, prefix, userPropPrefix) ::
      StartsWith(e.renamedFrom, prefix) && StartsWith(e.property, Escaped(prefix))
    decreases node, 1
  {
    var pp := PropPrefix(userPropPrefix);
    var stmts := node.lemmas + node.guarantees;
    var own := StatementEntries(stmts, prefix, pp);
    StatementEntriesEach(stmts, prefix, pp);
    forall e | e in own
      ensures StartsWith(e.renamedFrom, prefix) && StartsWith(e.property, Escaped(prefix))
    {
      var k :| 0 <= k < |own| && own[k] == e;
      NumberedStarts(prefix, k + 1);
      NumberedStarts(Escaped(prefix), k + 1);
    }
    SubNodesUnderPrefix(node, |node.subNodes|, prefix, SubPrefix(userPropPrefix));
    forall e | e in SubNodeEntries(node, |node.subNodes|, prefix, SubPrefix(userPropPrefix))
      ensures StartsWith(e.renamedFrom, prefix) && StartsWith(e.property, Escaped(prefix))
    {
      assert StartsWith(prefix + ".", prefix);
      assert StartsWith(Escaped(prefix) + DotChar, Escaped(prefix));
      StartsWithTrans(e.renamedFrom, prefix + ".", prefix);
      StartsWithTrans(e.property, Escaped(prefix) + DotChar, Escaped(prefix));
    }
  }

  lemma {:induction false} SubNodesUnderPrefix(node: AgreeNode, k: nat, prefix: string, userPrefix: string)
    requires k <= |node.subNodes|
    ensures forall e | e in SubNodeEntries(node, k, prefix, userPrefix) ::
      StartsWith(e.renamedFrom, prefix + ".") && StartsWith(e.property, Escaped(prefix) + DotChar)
    decreases node, 0, k
  {
    if k > 0 {
      var sub := node.subNodes[k - 1];
      var p := prefix + "." + sub.id;
      SubNodesUnderPrefix(node, k - 1, prefix, userPrefix);
      Kind2UnderPrefix(sub, p, userPrefix + sub.id);
      SubPrefixStarts(prefix, sub.id);
      forall e | e in Kind2Entries(sub, p, userPrefix + sub.id)
        ensures StartsWith(e.renamedFrom, prefix + ".") && StartsWith(e.property, Escaped(prefix) + DotChar)
      {
        StartsWithTrans(e.renamedFrom, p, prefix + ".");
        StartsWithTrans(e.property, Escaped(p), Escaped(prefix) + DotChar);
      }
    }
  }

  // ---------------------------------------------------------------------
  // Reference strings

  /** getCategory: the relative location of the variable's component, when it has both a component and a reference. */
  function Category(v: VarDecl): Option<string>
    requires v.AgreeVar?
  {
    if v.compInst.None? || v.reference.None? then None else Some(v.compInst.value.relativeLocation)
  }

  const AssertMessage: string := "We really didn't expect to see an assert statement here"
  const UnhandledPrefix: string := "Unhandled reference type: '"

  /** getReferenceStr: the name the results view shows for a variable, or null. */
  function ReferenceStr(v: VarDecl): Result<Option<string>, Failure>
    requires v.AgreeVar?
  {
    match Category(v)
    case None => Ok(None)
    case Some(prefix) =>
      if EndsWith(v.id, ClockIdSuffix) then Ok(None)
      else
        var sep := if prefix == "" then "" else ".";
        match v.reference.value
        case GuaranteeStatement(s) => Ok(Some(s))
        case AssumeStatement(s) => Ok(Some(prefix + " assume: " + s))
        case LemmaStatement(s) => Ok(Some(prefix + " lemma: " + s))
        case AssertStatement(_) => Err(RedlogScript.AgreeException(AssertMessage))
        case ArgRef(n) => Ok(Some(prefix + sep + n))
        case DataPort(n) => Ok(Some(prefix + sep + n))
        case EventDataPort(n) => Ok(Some(prefix + sep + n))
        case FeatureGroup(n) => Ok(Some(prefix + sep + n))
        case PropertyStatement(n) => Ok(Some(prefix + sep + n))
        case ComponentTypeRef(_) => Ok(Some("Result"))
        case ComponentImplementationRef(_) => Ok(Some("Result"))
        case OtherElement(c) => Err(RedlogScript.AgreeException(UnhandledPrefix + c + "'"))
  }

  /** The name of a named element, null for the others. */
  function ElementName(r: Ref): Option<string> {
    match r
    case ArgRef(n) => Some(n)
    case DataPort(n) => Some(n)
    case EventDataPort(n) => Some(n)
    case FeatureGroup(n) => Some(n)
    case PropertyStatement(n) => Some(n)
    case _ => None
  }

  /**
   * Null exactly without a category or for a clock variable; an error
   * exactly for an assert statement or an unhandled element; a named element
   * is qualified by its component's location.
   */
  lemma ReferenceStrCases(v: VarDecl)
    requires v.AgreeVar?
    ensures ReferenceStr(v) == Ok(None) <==> Category(v).None? || EndsWith(v.id, ClockIdSuffix)
    ensures ReferenceStr(v).Err? <==>
      Category(v).Some? && !EndsWith(v.id, ClockIdSuffix) && (v.reference.value.AssertStatement? || v.reference.value.OtherElement?)
    ensures ReferenceStr(v).Err? ==> ReferenceStr(v).error.AgreeException?
    ensures Category(v).Some? && !EndsWith(v.id, ClockIdSuffix) && ElementName(v.reference.value).Some? ==>
      var prefix, n := Category(v).value, ElementName(v.reference.value).value;
      ReferenceStr(v) == Ok(Some(prefix + (if prefix == "" then "" else ".") + n))
  {
  }

  // ---------------------------------------------------------------------
  // References and renamings

  /** The reference map, the explicit renames (in the order they are added) and the layout. */
  datatype Book = Book(refMap: ReferenceMap, renames: seq<(string, Option<string>)>, layout: Layout)

  const EmptyBook: Book := Book(map[], [], Layout([], []))

  /** A category is added once; the element is always appended. */
  function AddElement(layout: Layout, category: Option<string>, name: Option<string>): Layout {
    var cats := if category.Some? && category.value !in layout.categories then layout.categories + [category.value]
                else layout.categories;
    Layout(cats, layout.elements + [(category, name)])
  }

  /** addReference: nothing changes when the reference string cannot be formed. */
  function Referenced(b: Book, v: VarDecl): Result<Book, Failure>
    requires v.AgreeVar?
  {
    match ReferenceStr(v)
    case Err(e) => Err(e)
    case Ok(refStr) =>
      Ok(Book(b.refMap[refStr := v.reference][Some(v.id) := v.reference],
              b.renames + [(v.id, refStr)],
              AddElement(b.layout, Category(v), refStr)))
  }

  /** The references of the AGREE variables among `vars`, up to the first failure. */
  function AllReferenced(b: Book, vars: seq<VarDecl>): (Book, Option<Failure>) {
    if vars == [] then (b, None)
    else
      var (b', f) := AllReferenced(b, vars[..|vars| - 1]);
      var v := vars[|vars| - 1];
      if f.Some? || !v.AgreeVar? then (b', f)
      else match Referenced(b', v)
        case Ok(b'') => (b'', None)
        case Err(e) => (b', Some(e))
  }

  lemma {:induction false} AllReferencedFailFinal(b: Book, vars: seq<VarDecl>, i: nat)
    requires i <= |vars| && AllReferenced(b, vars[..i]).1.Some?
    ensures AllReferenced(b, vars) == AllReferenced(b, vars[..i])
    decreases |vars|
  {
    if i < |vars| {
      assert vars[..|vars| - 1][..i] == vars[..i];
      AllReferencedFailFinal(b, vars[..|vars| - 1], i);
    } else {
      assert vars[..i] == vars;
    }
  }

  /**
   * Referencing fails exactly when some AGREE variable's reference string
   * fails, and then with an AGREE exception.
   */
  lemma {:induction false} AllReferencedFails(b: Book, vars: seq<VarDecl>)
    ensures AllReferenced(b, vars).1.Some? ==> AllReferenced(b, vars).1.value.AgreeException?
    ensures AllReferenced(b, vars).1.Some? <==>
      exists k :: 0 <= k < |vars| && vars[k].AgreeVar? && ReferenceStr(vars[k]).Err?
  {
    if vars != [] {
      var init, v := vars[..|vars| - 1], vars[|vars| - 1];
      AllReferencedFails(b, init);
      if v.AgreeVar? {
        ReferenceStrCases(v);
      }
      assert forall k :: 0 <= k < |init| ==> vars[k] == init[k];
      if exists k :: 0 <= k < |vars| && vars[k].AgreeVar? && ReferenceStr(vars[k]).Err? {
        var k :| 0 <= k < |vars| && vars[k].AgreeVar? && ReferenceStr(vars[k]).Err?;
        if k < |init| {
          assert init[k].AgreeVar? && ReferenceStr(init[k]).Err?;
        }
      }
    }
  }

  /** Referencing a concatenation references the first part, then (unless it failed) the second. */
  lemma {:induction false} AllReferencedAppend(b: Book, xs: seq<VarDecl>, ys: seq<VarDecl>)
    ensures AllReferenced(b, xs + ys) ==
      (var (b', f) := AllReferenced(b, xs); if f.Some? then (b', f) else AllReferenced(b', ys))
    decreases |ys|
  {
    if ys == [] {
      assert xs + ys == xs;
    } else {
      assert (xs + ys)[..|xs + ys| - 1] == xs + ys[..|ys| - 1];
      AllReferencedAppend(b, xs, ys[..|ys| - 1]);
    }
  }

  predicate DistinctCategories(cats: seq<string>) {
    forall a, b :: 0 <= a < b < |cats| ==> cats[a] != cats[b]
  }

  predicate CategoriesKnown(l: Layout) {
    forall k :: 0 <= k < |l.elements| ==> l.elements[k].0.Some? ==> l.elements[k].0.value in l.categories
  }

  /** No category is listed twice, and every element's category is listed. */
  predicate LayoutValid(l: Layout) {
    DistinctCategories(l.categories) && CategoriesKnown(l)
  }

  lemma AddElementValid(l: Layout, category: Option<string>, name: Option<string>)
    requires LayoutValid(l)
    ensures LayoutValid(AddElement(l, category, name))
  {
    var l' := AddElement(l, category, name);
    assert forall k :: 0 <= k < |l.elements| ==> l'.elements[k] == l.elements[k];
  }

  /**
   * Every AGREE variable's id becomes a key of the reference map (mapped to
   * its reference when no later variable reuses the key), no key is lost,
   * one rename is added per AGREE variable, and the layout stays valid.
   */
  lemma {:induction false} AllReferencedRecords(b: Book, vars: seq<VarDecl>)
    requires LayoutValid(b.layout)
    ensures var (b', f) := AllReferenced(b, vars);
      && b.refMap.Keys <= b'.refMap.Keys
      && LayoutValid(b'.layout)
      && |b.renames| <= |b'.renames| && b'.renames[..|b.renames|] == b.renames
      && (f.None? ==> forall v | v in vars && v.AgreeVar? :: Some(v.id) in b'.refMap)
      && (f.None? ==> (|b'.renames| == |b.renames| + |AgreeIds(vars)|
                       && forall k :: 0 <= k < |AgreeIds(vars)| ==> b'.renames[|b.renames| + k].0 == AgreeIds(vars)[k]))
  {
    if vars != [] {
      var init, v := vars[..|vars| - 1], vars[|vars| - 1];
      AllReferencedRecords(b, init);
      var (b1, f1) := AllReferenced(b, init);
      assert vars == init + [v];
      if f1.None? && v.AgreeVar? && Referenced(b1, v).Ok? {
        AddElementValid(b1.layout, Category(v), ReferenceStr(v).value);
        var b2 := Referenced(b1, v).value;
        assert b2.renames[..|b1.renames|] == b1.renames;
        assert b2.renames[..|b.renames|] == b1.renames[..|b.renames|];
        assert AgreeIds(vars) == AgreeIds(init) + [v.id];
      }
    }
  }

  /** The ids of the AGREE variables, in order. */
  function AgreeIds(vars: seq<VarDecl>): seq<string> {
    if vars == [] then []
    else AgreeIds(vars[..|vars| - 1]) + (if vars[|vars| - 1].AgreeVar? then [vars[|vars| - 1].id] else [])
  }

  /**
   * addRenamings: the references of the main node's inputs, locals and
   * outputs, then either the Kind 2 entries of the top node (under `_TOP`)
   * or the main node's own properties.
   */
  function Renamings(b: Book, properties: seq<string>, main: Node, top: AgreeNode, usingKind2: bool)
    : Result<(Book, seq<string>), Failure>
  {
    var (b', f) := AllReferenced(b, main.inputs + main.locals + main.outputs);
    if f.Some? then Err(f.value)
    else if usingKind2 then
      var es := Kind2Entries(top, TopPrefix, "");
      Ok((b'.(renames := b'.renames + RenamesOf(es)), properties + PropertiesOf(es)))
    else Ok((b', properties + main.properties))
  }

  const TopPrefix: string := "_TOP"

  /** The local objects `createVerification` builds its result from. */
  class Bookkeeping {
    var refMap: ReferenceMap
    var renames: seq<(string, Option<string>)>
    var layout: Layout
    var properties: seq<string>

    constructor ()
      ensures refMap == map[] && renames == [] && layout == Layout([], []) && properties == []
    {
      refMap := map[];
      renames := [];
      layout := Layout([], []);
      properties := [];
    }

    function State(): Book
      reads this`refMap, this`renames, this`layout
    {
      Book(refMap, renames, layout)
    }

    method AddReference(v: VarDecl) returns (failure: Option<Failure>)
      requires v.AgreeVar?
      modifies this`refMap, this`renames, this`layout
      ensures match Referenced(old(State()), v)
        case Ok(b) => failure.None? && State() == b
        case Err(e) => failure == Some(e) && State() == old(State())
    {
      var refStr := ReferenceStr(v);
      if refStr.Err? {
        return Some(refStr.error);
      }
      refMap := refMap[refStr.value := v.reference];
      refMap := refMap[Some(v.id) := v.reference];
      renames := renames + [(v.id, refStr.value)];
      var category := Category(v);
      if category.Some? && category.value !in layout.categories {
        layout := layout.(categories := layout.categories + [category.value]);
      }
      layout := layout.(elements := layout.elements + [(category, refStr.value)]);
      failure := None;
    }

    /** One `for (VarDecl var : …) if (var instanceof AgreeVar) addReference(…)` loop. */
    method AddReferences(vars: seq<VarDecl>) returns (failure: Option<Failure>)
      modifies this`refMap, this`renames, this`layout
      ensures (State(), failure) == AllReferenced(old(State()), vars)
    {
      failure := None;
      for i := 0 to |vars|
        invariant (State(), failure) == AllReferenced(old(State()), vars[..i])
        invariant failure.None?
      {
        assert vars[..i + 1][..i] == vars[..i];
        if vars[i].AgreeVar? {
          failure := AddReference(vars[i]);
          if failure.Some? {
            AllReferencedFailFinal(old(State()), vars, i + 1);
            return;
          }
        }
      }
      assert vars[..|vars|] == vars;
    }

    /** One iteration of either statement loop: the next number, its rename and its property. */
    method AddNumbered(prefix: string, propPrefix: string, statement: AgreeStatement, i: nat) returns (i': nat)
      modifies this`properties, this`renames
      ensures i' == i + 1
      ensures properties == old(properties) + [Entry(prefix, propPrefix, statement, i').property]
      ensures renames == old(renames) + [RenameOf(Entry(prefix, propPrefix, statement, i'))]
    {
      i' := i + 1;
      renames := renames + [(prefix + "[" + NatToString(i') + "]", Some(propPrefix + statement.text))];
      properties := properties + [ReplaceChar(prefix, '.', DotChar) + "[" + NatToString(i') + "]"];
    }

    /** addKind2Properties: one node's statements, then its sub-nodes with extended prefixes. */
    method AddKind2Properties(node: AgreeNode, prefix: string, userPropPrefix: string)
      modifies this`properties, this`renames
      ensures properties == old(properties) + PropertiesOf(Kind2Entries(node, prefix, userPropPrefix))
      ensures renames == old(renames) + RenamesOf(Kind2Entries(node, prefix, userPropPrefix))
      decreases node, 1
    {
      var propPrefix := if userPropPrefix == "" then "" else userPropPrefix + ": ";
      var userPrefix := if userPropPrefix == "" then "" else userPropPrefix + ".";
      ghost var own := StatementEntries(node.lemmas + node.guarantees, prefix, propPrefix);
      ghost var subs := SubNodeEntries(node, |node.subNodes|, prefix, userPrefix);
      EntriesExtend(properties, renames, own, subs);
      AddStatements(node, prefix, propPrefix);
      AddSubNodes(node, prefix, userPrefix);
    }

    /** The two numbering loops: the lemmas, then the guarantees, counting on. */
    method AddStatements(node: AgreeNode, prefix: string, propPrefix: string)
      modifies this`properties, this`renames
      ensures properties == old(properties) + PropertiesOf(StatementEntries(node.lemmas + node.guarantees, prefix, propPrefix))
      ensures renames == old(renames) + RenamesOf(StatementEntries(node.lemmas + node.guarantees, prefix, propPrefix))
    {
      var i := 0;
      ghost var stmts := node.lemmas + node.guarantees;
      ghost var p0, r0 := properties, renames;
      for j := 0 to |node.lemmas|
        invariant i == j
        invariant properties == p0 + PropertiesOf(StatementEntries(stmts[..i], prefix, propPrefix))
        invariant renames == r0 + RenamesOf(StatementEntries(stmts[..i], prefix, propPrefix))
      {
        assert stmts[i] == node.lemmas[j];
        NumberedStep(stmts, i, prefix, propPrefix, p0, r0);
        i := AddNumbered(prefix, propPrefix, node.lemmas[j], i);
      }
      for j := 0 to |node.guarantees|
        invariant i == |node.lemmas| + j
        invariant properties == p0 + PropertiesOf(StatementEntries(stmts[..i], prefix, propPrefix))
        invariant renames == r0 + RenamesOf(StatementEntries(stmts[..i], prefix, propPrefix))
      {
        assert stmts[i] == node.guarantees[j];
        NumberedStep(stmts, i, prefix, propPrefix, p0, r0);
        i := AddNumbered(prefix, propPrefix, node.guarantees[j], i);
      }
      assert stmts[..i] == stmts;
    }

    /** The loop over the sub-nodes, each with its extended prefixes. */
    method AddSubNodes(node: AgreeNode, prefix: string, userPrefix: string)
      modifies this`properties, this`renames
      ensures properties == old(properties) + PropertiesOf(SubNodeEntries(node, |node.subNodes|, prefix, userPrefix))
      ensures renames == old(renames) + RenamesOf(SubNodeEntries(node, |node.subNodes|, prefix, userPrefix))
      decreases node, 0
    {
      ghost var p0, r0 := properties, renames;
      for k := 0 to |node.subNodes|
        invariant properties == p0 + PropertiesOf(SubNodeEntries(node, k, prefix, userPrefix))
        invariant renames == r0 + RenamesOf(SubNodeEntries(node, k, prefix, userPrefix))
      {
        var subNode := node.subNodes[k];
        SubNodeSmaller(node, k);
        SubNodeEntriesStep(node, k, prefix, userPrefix, p0, r0);
        AddKind2Properties(subNode, prefix + "." + subNode.id, userPrefix + subNode.id);
      }
    }

    method AddRenamings(mainNode: Node, agreeProgram: AgreeProgram, usingKind2: bool) returns (failure: Option<Failure>)
      modifies this`refMap, this`renames, this`layout, this`properties
      ensures match Renamings(old(State()), old(properties), mainNode, agreeProgram.topNode, usingKind2)
        case Ok((b, props)) => failure.None? && State() == b && properties == props
        case Err(e) => failure == Some(e) && properties == old(properties)
    {
      ghost var b0 := State();
      AllReferencedAppend(b0, mainNode.inputs + mainNode.locals, mainNode.outputs);
      AllReferencedAppend(b0, mainNode.inputs, mainNode.locals);
      failure := AddReferences(mainNode.inputs);
      if failure.Some? {
        return;
      }
      failure := AddReferences(mainNode.locals);
      if failure.Some? {
        return;
      }
      failure := AddReferences(mainNode.outputs);
      if failure.Some? {
        return;
      }
      if usingKind2 {
        AddKind2Properties(agreeProgram.topNode, TopPrefix, "");
      } else {
        properties := properties + mainNode.properties;
      }
    }
  }

  // ---------------------------------------------------------------------
  // Creating the queued result

  datatype AnalysisType = Consistency | Realizability | AssumeGuarantee

  const NoMainNodeMessage: string := "Could not find main lustre node after translation"

  /** The first node whose id is the program's main name. */
  function MainNode(nodes: seq<Node>, main: string): Option<Node> {
    if nodes == [] then None
    else if nodes[0].nid == main then Some(nodes[0])
    else MainNode(nodes[1..], main)
  }

  /** A main node is found exactly when some node has the main id, and it is the first such node. */
  lemma {:induction false} MainNodeFirst(nodes: seq<Node>, main: string)
    ensures MainNode(nodes, main).Some? <==> exists k :: 0 <= k < |nodes| && nodes[k].nid == main
    ensures MainNode(nodes, main).Some? ==>
      exists k :: 0 <= k < |nodes| && nodes[k] == MainNode(nodes, main).value && nodes[k].nid == main
        && forall j :: 0 <= j < k ==> nodes[j].nid != main
  {
    if nodes != [] && nodes[0].nid != main {
      MainNodeFirst(nodes[1..], main);
      if MainNode(nodes, main).Some? {
        var k :| 0 <= k < |nodes| - 1 && nodes[1..][k] == MainNode(nodes, main).value && nodes[1..][k].nid == main
          && forall j :: 0 <= j < k ==> nodes[1..][j].nid != main;
        assert nodes[k + 1] == nodes[1..][k];
        assert forall j :: 0 < j < k + 1 ==> nodes[j] == nodes[1..][j - 1];
      }
      assert (exists k :: 0 <= k < |nodes| && nodes[k].nid == main) ==> exists k :: 0 <= k < |nodes| - 1 && nodes[1..][k].nid == main;
    } else if nodes != [] {
      assert nodes[0].nid == main;
    }
  }

  method FindMainNode(program: Program) returns (mainNode: Option<Node>)
    ensures mainNode == MainNode(program.nodes, program.main)
  {
    mainNode := None;
    for k := 0 to |program.nodes|
      invariant MainNode(program.nodes, program.main) == MainNode(program.nodes[k..], program.main)
    {
      assert program.nodes[k..][1..] == program.nodes[k + 1..];
      if program.nodes[k].nid == program.main {
        mainNode := Some(program.nodes[k]);
        return;
      }
    }
  }

  /** The first AGREE subclause the realised type owns, or null. */
  function FirstAgreeSubclause(annexes: seq<Annex>): Option<AgreeSubclause> {
    if annexes == [] then None
    else if annexes[0].AgreeAnnex? then Some(annexes[0].subclause)
    else FirstAgreeSubclause(annexes[1..])
  }

  lemma {:induction false} FirstAgreeSubclauseFirst(annexes: seq<Annex>)
    ensures FirstAgreeSubclause(annexes).Some? <==> exists k :: 0 <= k < |annexes| && annexes[k].AgreeAnnex?
    ensures FirstAgreeSubclause(annexes).Some? ==>
      exists k :: 0 <= k < |annexes| && annexes[k] == AgreeAnnex(FirstAgreeSubclause(annexes).value)
        && forall j :: 0 <= j < k ==> !annexes[j].AgreeAnnex?
  {
    if annexes != [] && !annexes[0].AgreeAnnex? {
      FirstAgreeSubclauseFirst(annexes[1..]);
      if FirstAgreeSubclause(annexes).Some? {
        var k :| 0 <= k < |annexes| - 1 && annexes[1..][k] == AgreeAnnex(FirstAgreeSubclause(annexes).value)
          && forall j :: 0 <= j < k ==> !annexes[1..][j].AgreeAnnex?;
        assert annexes[k + 1] == annexes[1..][k];
        assert forall j :: 0 < j < k + 1 ==> annexes[j] == annexes[1..][j - 1];
      }
      assert (exists k :: 0 <= k < |annexes| && annexes[k].AgreeAnnex?) ==>
        exists k :: 0 <= k < |annexes| - 1 && annexes[1..][k].AgreeAnnex?;
    } else if annexes != [] {
      assert annexes[0] == AgreeAnnex(annexes[0].subclause);
    }
  }

  /** getContract. */
  method GetContract(ci: ComponentImpl) returns (contract: Option<AgreeSubclause>)
    ensures contract == FirstAgreeSubclause(ci.implemented.ownedAnnexes)
  {
    var annexes := ci.implemented.ownedAnnexes;
    for k := 0 to |annexes|
      invariant FirstAgreeSubclause(annexes) == FirstAgreeSubclause(annexes[k..])
    {
      assert annexes[k..][1..] == annexes[k + 1..];
      if annexes[k].AgreeAnnex? {
        return Some(annexes[k].subclause);
      }
    }
    return None;
  }

  /** The properties a result of each analysis is built over. */
  function ResultProperties(analysisType: AnalysisType, mainNode: Node, properties: seq<string>): seq<string> {
    match analysisType
    case Consistency => mainNode.properties
    case Realizability => []
    case AssumeGuarantee => properties
  }

  /** A jkind result: its name, its analysis, its properties and the renames of its renaming. */
  class JKindResult {
    const name: string
    const analysis: AnalysisType
    const properties: seq<string>
    const renames: seq<(string, Option<string>)>

    constructor (name: string, analysis: AnalysisType, properties: seq<string>, renames: seq<(string, Option<string>)>)
      ensures this.name == name && this.analysis == analysis
      ensures this.properties == properties && this.renames == renames
    {
      this.name := name;
      this.analysis := analysis;
      this.properties := properties;
      this.renames := renames;
    }
  }

  // ---------------------------------------------------------------------
  // The analysis thread's drain

  /**
   * How executing one queued result ends: it returns, it throws the
   * exception the drain catches, it throws anything else (which ends the
   * analysis thread), or it never returns.
   */
  datatype Step = Completes | Raises | Escapes | Stalls

  /** How the analysis thread ends: past the cancelling loop, killed by an exception, or never. */
  datatype ThreadEnd = Finished | Died | Hung

  /** The results executed, the results still queued when the first loop ends, and how the thread ends. */
  datatype Drain = Drain(executed: seq<object>, rest: seq<object>, end: ThreadEnd)

  /**
   * The first loop from its k-th test of the monitor on: run the head while
   * the queue is not empty and the monitor is not cancelled; remove it only
   * once it completes.
   */
  function Drained(queue: seq<object>, steps: object -> Step, canceled: nat -> bool, k: nat): Drain
    decreases |queue|
  {
    if queue == [] || canceled(k) then Drain([], queue, Finished)
    else match steps(queue[0])
      case Completes =>
        var d := Drained(queue[1..], steps, canceled, k + 1);
        d.(executed := [queue[0]] + d.executed)
      case Raises => Drain([queue[0]], queue, Finished)
      case Escapes => Drain([queue[0]], queue, Died)
      case Stalls => Drain([queue[0]], queue, Hung)
  }

  /** FIFO: what is left when the first loop ends is a suffix of the queue. */
  lemma {:induction false} DrainedSuffix(queue: seq<object>, steps: object -> Step, canceled: nat -> bool, k: nat)
    ensures var d := Drained(queue, steps, canceled, k);
      |d.rest| <= |queue| && d.rest == queue[|queue| - |d.rest|..]
    decreases |queue|
  {
    if queue != [] && !canceled(k) && steps(queue[0]) == Completes {
      DrainedSuffix(queue[1..], steps, canceled, k + 1);
    }
  }

  /**
   * Every result removed completed, and the only other execution is the
   * head left behind, which did not complete.
   */
  lemma {:induction false} DrainedExecuted(queue: seq<object>, steps: object -> Step, canceled: nat -> bool, k: nat)
    ensures |Drained(queue, steps, canceled, k).rest| <= |queue|
    ensures var d := Drained(queue, steps, canceled, k);
      var n := |queue| - |d.rest|;
      && (forall i | 0 <= i < n :: steps(queue[i]) == Completes)
      && (d.executed == queue[..n] || (n < |queue| && d.executed == queue[..n + 1] && steps(queue[n]) != Completes))
    decreases |queue|
  {
    DrainedSuffix(queue, steps, canceled, k);
    if queue != [] && !canceled(k) && steps(queue[0]) == Completes {
      var t := queue[1..];
      DrainedExecuted(t, steps, canceled, k + 1);
      var d' := Drained(t, steps, canceled, k + 1);
      var n' := |t| - |d'.rest|;
      assert [queue[0]] + t[..n'] == queue[..n' + 1];
      if n' < |t| {
        assert [queue[0]] + t[..n' + 1] == queue[..n' + 2];
      }
    }
  }

  /**
   * The first loop stops only at an empty queue, a cancelled monitor or a
   * failed head; the thread dies exactly on an escaping head and hangs
   * exactly on a stalling one.
   */
  lemma {:induction false} DrainedStops(queue: seq<object>, steps: object -> Step, canceled: nat -> bool, k: nat)
    ensures |Drained(queue, steps, canceled, k).rest| <= |queue|
    ensures var d := Drained(queue, steps, canceled, k);
      var n := k + |queue| - |d.rest|;
      && (d.rest == [] || canceled(n) || steps(d.rest[0]) != Completes)
      && (d.end == Died <==> d.rest != [] && !canceled(n) && steps(d.rest[0]) == Escapes)
      && (d.end == Hung <==> d.rest != [] && !canceled(n) && steps(d.rest[0]) == Stalls)
    decreases |queue|
  {
    if queue != [] && !canceled(k) && steps(queue[0]) == Completes {
      var t := queue[1..];
      DrainedStops(t, steps, canceled, k + 1);
      var d' := Drained(t, steps, canceled, k + 1);
      assert Drained(queue, steps, canceled, k).rest == d'.rest;
      assert Drained(queue, steps, canceled, k).end == d'.end;
      assert k + |queue| - |d'.rest| == k + 1 + |t| - |d'.rest|;
    } else {
      assert Drained(queue, steps, canceled, k).rest == queue;
    }
  }

  /** When no execution escapes or stalls, the thread gets to the loop that cancels what is left. */
  lemma {:induction false} DrainFinishes(queue: seq<object>, steps: object -> Step, canceled: nat -> bool, k: nat)
    requires forall r | r in queue :: steps(r) != Escapes && steps(r) != Stalls
    ensures Drained(queue, steps, canceled, k).end == Finished
    decreases |queue|
  {
    if queue != [] && !canceled(k) && steps(queue[0]) == Completes {
      DrainFinishes(queue[1..], steps, canceled, k + 1);
    }
  }

  /** The handler's state: the linker and the queue of results, with the thread's execute and cancel calls in order. */
  class VerifyHandler {
    const linker: AgreeResultsLinker
    var queue: seq<object>
    var executed: seq<object>
    var cancelled: seq<object>

    constructor (linker: AgreeResultsLinker)
      ensures this.linker == linker && queue == [] && executed == [] && cancelled == []
    {
      this.linker := linker;
      queue := [];
      executed := [];
      cancelled := [];
    }

    /**
     * createVerification for a Lustre program: no main node is an AGREE
     * exception; otherwise one result is queued and registered in the
     * linker. The component implementation is taken as non-null.
     */
    method CreateVerification(resultName: string, compImpl: ComponentImpl, lustreProgram: Program, agreeProgram: AgreeProgram,
                              analysisType: AnalysisType, usingKind2: bool, log: string)
      returns (r: Result<JKindResult, Failure>)
      modifies this`queue, linker`programs, linker`components, linker`contracts, linker`layouts, linker`referenceMaps, linker`logs
      ensures MainNode(lustreProgram.nodes, lustreProgram.main).None? ==>
        r == Err(RedlogScript.AgreeException(NoMainNodeMessage)) && queue == old(queue) && unchanged(linker)
      ensures MainNode(lustreProgram.nodes, lustreProgram.main).Some? ==>
        var mainNode := MainNode(lustreProgram.nodes, lustreProgram.main).value;
        match Renamings(EmptyBook, [], mainNode, agreeProgram.topNode, usingKind2)
        case Err(e) => r == Err(e) && queue == old(queue) && unchanged(linker)
        case Ok((b, props)) =>
          && r.Ok? && fresh(r.value) && queue == old(queue) + [r.value]
          && r.value.name == resultName && r.value.analysis == analysisType
          && r.value.properties == ResultProperties(analysisType, mainNode, props) && r.value.renames == b.renames
          && linker.programs == old(linker.programs)[r.value := lustreProgram]
          && linker.components == old(linker.components)[r.value := Some(compImpl)]
          && linker.contracts == old(linker.contracts)[r.value := FirstAgreeSubclause(compImpl.implemented.ownedAnnexes)]
          && linker.layouts == old(linker.layouts)[r.value := b.layout]
          && linker.referenceMaps == old(linker.referenceMaps)[r.value := b.refMap]
          && linker.logs == old(linker.logs)[r.value := log]
    {
      var book := new Bookkeeping();
      var mainNode := FindMainNode(lustreProgram);
      if mainNode.None? {
        return Err(RedlogScript.AgreeException(NoMainNodeMessage));
      }
      var failure := book.AddRenamings(mainNode.value, agreeProgram, usingKind2);
      if failure.Some? {
        return Err(failure.value);
      }
      var properties := match analysisType
        case Consistency => mainNode.value.properties
        case Realizability => []
        case AssumeGuarantee => book.properties;
      var result := new JKindResult(resultName, analysisType, properties, book.renames);
      queue := queue + [result];
      Register(result, lustreProgram, compImpl, book.layout, book.refMap, log);
      r := Ok(result);
    }

    /** The linker entries createVerification makes for a new result. */
    method Register(result: object, lustreProgram: Program, compImpl: ComponentImpl, layout: Layout, refMap: ReferenceMap, log: string)
      modifies linker`programs, linker`components, linker`contracts, linker`layouts, linker`referenceMaps, linker`logs
      ensures linker.programs == old(linker.programs)[result := lustreProgram]
      ensures linker.components == old(linker.components)[result := Some(compImpl)]
      ensures linker.contracts == old(linker.contracts)[result := FirstAgreeSubclause(compImpl.implemented.ownedAnnexes)]
      ensures linker.layouts == old(linker.layouts)[result := layout]
      ensures linker.referenceMaps == old(linker.referenceMaps)[result := refMap]
      ensures linker.logs == old(linker.logs)[result := log]
    {
      linker.SetProgram(result, lustreProgram);
      linker.SetComponent(result, Some(compImpl));
      var contract := GetContract(compImpl);
      linker.SetContract(result, contract);
      linker.SetLayout(result, layout);
      linker.SetReferenceMap(result, refMap);
      linker.SetLog(result, log);
    }

    /**
     * doAnalysis's thread: execute heads while the monitor is not
     * cancelled, stop at the caught exception, then cancel and remove
     * whatever is left. An exception the loop does not catch ends the thread
     * with the queue as it was.
     */
    method DoAnalysis(steps: object -> Step, canceled: nat -> bool) returns (end: ThreadEnd)
      modifies this`queue, this`executed, this`cancelled
      ensures var d := Drained(old(queue), steps, canceled, 0);
        && executed == old(executed) + d.executed && end == d.end
        && (d.end == Finished ==> queue == [] && cancelled == old(cancelled) + d.rest)
        && (d.end != Finished ==> queue == d.rest && cancelled == old(cancelled))
    {
      var stopped := RunHeads(steps, canceled);
      if stopped != Finished {
        return stopped;
      }
      CancelRest();
      end := Finished;
    }

    /** The first loop: `break` on the caught exception, the thread ends on any other. */
    method RunHeads(steps: object -> Step, canceled: nat -> bool) returns (end: ThreadEnd)
      modifies this`queue, this`executed
      ensures var d := Drained(old(queue), steps, canceled, 0);
        executed == old(executed) + d.executed && end == d.end && queue == d.rest
    {
      var k := 0;
      ghost var done: seq<object> := [];
      while queue != [] && !canceled(k)
        invariant Drained(old(queue), steps, canceled, 0) ==
          (var d := Drained(queue, steps, canceled, k); d.(executed := done + d.executed))
        invariant executed == old(executed) + done
        decreases |queue|
      {
        var result := queue[0];
        executed := executed + [result];
        done := done + [result];
        var step := steps(result);
        if step == Raises {
          return Finished;
        } else if step == Escapes {
          return Died;
        } else if step == Stalls {
          return Hung;
        }
        queue := queue[1..];
        k := k + 1;
      }
      end := Finished;
    }

    /** The second loop: every result left is removed and cancelled, in order. */
    method CancelRest()
      modifies this`queue, this`cancelled
      ensures queue == [] && cancelled == old(cancelled) + old(queue)
    {
      while queue != []
        invariant old(cancelled) + old(queue) == cancelled + queue
        decreases |queue|
      {
        cancelled := cancelled + [queue[0]];
        queue := queue[1..];
      }
    }
  }
}
