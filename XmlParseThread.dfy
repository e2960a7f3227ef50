/**
 * The thread that reads the XML result file line by line, cuts it into
 * `Property` blocks, turns each block into a jkind property and records it
 * in the result object.
 */
module XmlParseThread {
  import opened Wrappers
  import opened Text
  import opened XmlWriter

  /** What the thread stores in `throwable` when its loop stops. */
  datatype ParseFailure =
    | MissingBuffer                  // a closing line before any opening line: NullPointerException
    | ErrorParsing(xml: string)      // the DOM rejects a block: RedlogException
    | MissingAnswer                  // no `Answer` element: NullPointerException
    | BadTime(time: string)          // a `time` attribute that is not an int: NumberFormatException
    | UnknownAnswer(answer: string)  // neither valid nor falsifiable: RedlogException

  /** The message of each RedlogException the thread raises. */
  function Message(f: ParseFailure): Option<string> {
    match f
    case ErrorParsing(xml) => Some("Error parsing: " + xml)
    case UnknownAnswer(a) => Some("Unknown property answer in XML file: " + a)
    case _ => None
  }

  const BeginTag: string := "<Property "
  const EndTag: string := Close("Property")

  // ---------------------------------------------------------------------
  // Which lines open and close a block

  /** A line that neither opens nor closes a `Property` block. */
  predicate Plain(s: string) {
    !Contains(s, BeginTag) && !Contains(s, EndTag)
  }

  lemma PlainEmpty()
    ensures Plain("")
  {
    NothingInEmpty(BeginTag);
    NothingInEmpty(EndTag);
  }

  /** Text without `<` cannot start either tag. */
  lemma PlainFree(a: string, rest: string)
    requires '<' !in a
    ensures Plain(a + rest) <==> Plain(rest)
  {
    SkipFree(a, rest, BeginTag);
    SkipFree(a, rest, EndTag);
  }

  /** An opening tag of another element starts neither tag. */
  lemma PlainOpen(t: string, rest: string)
    requires t != [] && t[0] != 'P' && t[0] != '/' && '<' !in t
    ensures Plain(Open(t) + rest) <==> Plain(rest)
  {
    var x := Open(t);
    assert x[1] == t[0];
    SkipHead(x, rest, BeginTag, 1);
    SkipHead(x, rest, EndTag, 1);
    assert x[1..] == t + ">";
    PlainFree(x[1..], rest);
  }

  /** A closing tag of another element starts neither tag. */
  lemma PlainClose(t: string, rest: string)
    requires t != [] && t[0] != 'P' && '<' !in t
    ensures Plain(Close(t) + rest) <==> Plain(rest)
  {
    var x := Close(t);
    assert x[1] == '/' && x[2] == t[0];
    SkipHead(x, rest, BeginTag, 1);
    SkipHead(x, rest, EndTag, 2);
    assert x[1..] == "/" + t + ">";
    PlainFree(x[1..], rest);
  }

  /** An indented element with text content and no `<` in the text. */
  lemma PlainElement(indent: string, t: string, text: string, u: string)
    requires '<' !in indent && '<' !in text
    requires t != [] && t[0] != 'P' && t[0] != '/' && '<' !in t
    requires u != [] && u[0] != 'P' && '<' !in u
    ensures Plain(indent + Open(t) + text + Close(u))
  {
    PlainEmpty();
    assert Close(u) + "" == Close(u);
    PlainClose(u, "");
    PlainFree(text, Close(u));
    PlainOpen(t, text + Close(u));
    PlainFree(indent, Open(t) + (text + Close(u)));
    assert indent + Open(t) + text + Close(u) == indent + (Open(t) + (text + Close(u)));
  }

  /** An indented opening tag of another element. */
  lemma PlainTag(indent: string, t: string)
    requires '<' !in indent
    requires t != [] && t[0] != 'P' && t[0] != '/' && '<' !in t
    ensures Plain(indent + Open(t))
  {
    PlainEmpty();
    PlainOpen(t, "");
    assert Open(t) + "" == Open(t);
    PlainFree(indent, Open(t));
  }

  /** An indented closing tag of another element. */
  lemma PlainEndTag(indent: string, t: string)
    requires '<' !in indent
    requires t != [] && t[0] != 'P' && '<' !in t
    ensures Plain(indent + Close(t))
  {
    PlainEmpty();
    PlainClose(t, "");
    assert Close(t) + "" == Close(t);
    PlainFree(indent, Close(t));
  }

  /** An indented opening tag whose last attribute value has no `<`, followed by other text. */
  lemma PlainAttrTag(indent: string, t: string, value: string, rest: string)
    requires '<' !in indent && '<' !in value && Plain(rest)
    requires t != [] && t[0] != 'P' && t[0] != '/' && '<' !in t
    ensures Plain(indent + "<" + t + value + AttributeEnd + rest)
  {
    var x := "<" + t + value + AttributeEnd;
    assert x[1] == t[0];
    SkipHead(x, rest, BeginTag, 1);
    SkipHead(x, rest, EndTag, 1);
    assert x[1..] == t + value + AttributeEnd;
    PlainFree(x[1..], rest);
    PlainFree(indent, x + rest);
    assert indent + "<" + t + value + AttributeEnd + rest == indent + (x + rest);
  }

  // ---------------------------------------------------------------------
  // The elements a block holds

  /** A `Value` element: its `time` attribute and its text, both unparsed. */
  datatype ValueElement = ValueElement(time: string, text: string)

  /** A `Signal` element: its `name` attribute and its `Value` children in order. */
  datatype SignalElement = SignalElement(name: string, values: seq<ValueElement>)

  /** A `Property` element: its name and its first `Runtime`, `Answer` and `Counterexample` children. */
  datatype PropertyElement = PropertyElement(
    name: string,
    runtime: Option<string>,
    answer: Option<string>,
    cex: Option<seq<SignalElement>>)

  /** The text between a known prefix and a known suffix. */
  function Between(line: string, pre: string, suf: string): (r: Option<string>)
    ensures r.Some? ==> line == pre + r.value + suf
  {
    if |pre| + |suf| <= |line| && StartsWith(line, pre) && EndsWith(line, suf) then
      var x := line[|pre|..|line| - |suf|];
      assert line == pre + x + suf;
      Some(x)
    else
      None
  }

  lemma BetweenOf(pre: string, x: string, suf: string)
    ensures Between(pre + x + suf, pre, suf) == Some(x)
  {
    var r := Between(pre + x + suf, pre, suf).value;
    assert |r| == |x|;
    assert pre + r + suf == pre + x + suf;
    assert forall i :: 0 <= i < |x| ==> r[i] == (pre + r + suf)[|pre| + i];
  }

  /** The index of the first occurrence of `c`. */
  function FirstIndex(s: string, c: char): (r: Option<nat>)
    ensures r.Some? ==> r.value < |s| && s[r.value] == c && c !in s[..r.value]
    ensures r.None? ==> c !in s
  {
    if s == [] then None
    else if s[0] == c then Some(0)
    else match FirstIndex(s[1..], c)
      case None => None
      case Some(i) =>
        assert s[..i + 1] == [s[0]] + s[1..][..i];
        Some(i + 1)
  }

  lemma FirstIndexOf(a: string, c: char, b: string)
    requires c !in a
    ensures FirstIndex(a + [c] + b, c) == Some(|a|)
  {
    var s := a + [c] + b;
    assert s[|a|] == c;
    assert s[..|a|] == a;
  }

  /** A `Value` line: the time runs up to the first quote, and `">` follows it. */
  function ValueOf(line: string): Option<ValueElement> {
    match Between(line, ValuePrefix, ValueSuffix)
    case None => None
    case Some(m) =>
      match FirstIndex(m, '"')
      case None => None
      case Some(i) =>
        if StartsWith(m[i..], AttributeEnd) then Some(ValueElement(m[..i], m[i + 2..])) else None
  }

  /** The `Value` lines of one signal, up to and including its closing line. */
  function ParseValues(ls: seq<string>): (r: Option<(seq<ValueElement>, seq<string>)>)
    ensures r.Some? ==> |r.value.1| < |ls|
  {
    if ls == [] then None
    else if ls[0] == SignalClose then Some(([], ls[1..]))
    else match ValueOf(ls[0])
      case None => None
      case Some(v) =>
        match ParseValues(ls[1..])
        case None => None
        case Some((vs, rest)) => Some(([v] + vs, rest))
  }

  /** The `Signal` elements of a counterexample, up to and including its closing line. */
  function ParseSignals(ls: seq<string>): (r: Option<(seq<SignalElement>, seq<string>)>)
    ensures r.Some? ==> |r.value.1| < |ls|
    decreases |ls|
  {
    if ls == [] then None
    else if ls[0] == CexClose then Some(([], ls[1..]))
    else match Between(ls[0], SignalPrefix, AttributeEnd)
      case None => None
      case Some(name) =>
        match ParseValues(ls[1..])
        case None => None
        case Some((vs, rest)) =>
          match ParseSignals(rest)
          case None => None
          case Some((ss, rest')) => Some(([SignalElement(name, vs)] + ss, rest'))
  }

  /** The children of a `Property` element: an optional runtime, answer and counterexample, in that order. */
  function ParseBody(name: string, body: seq<string>): Option<PropertyElement> {
    var runtime := if body != [] then Between(body[0], RuntimePrefix, RuntimeSuffix) else None;
    var afterRuntime := if runtime.Some? then body[1..] else body;
    var answer := if afterRuntime != [] then Between(afterRuntime[0], AnswerPrefix, AnswerSuffix) else None;
    var afterAnswer := if answer.Some? then afterRuntime[1..] else afterRuntime;
    if afterAnswer == [] then Some(PropertyElement(name, runtime, answer, None))
    else if afterAnswer[0] != CexOpen then None
    else match ParseSignals(afterAnswer[1..])
      case None => None
      case Some((ss, rest)) => if rest == [] then Some(PropertyElement(name, runtime, answer, Some(ss))) else None
  }

  /**
   * The DOM step: one buffered block becomes its `Property` element, or
   * is rejected. Only the layout the writer produces is recognised.
   */
  function ParseXml(block: seq<string>): Option<PropertyElement> {
    if |block| < 2 || block[|block| - 1] != PropertyClose then None
    else match Between(block[0], PropertyPrefix, AttributeEnd)
      case None => None
      case Some(name) => ParseBody(name, block[1..|block| - 1])
  }

  // ---------------------------------------------------------------------
  // From elements to jkind properties

  /** The runtime of a verdict: Java uses 0 when the element is missing. */
  datatype Runtime = NoRuntime | RuntimeText(text: string)

  /** The jkind property a block describes. */
  datatype Property =
    | ValidProperty(name: string, source: string, runtime: Runtime)
    | InvalidProperty(name: string, cex: Option<Counterexample>, runtime: Runtime)

  function RuntimeOf(runtime: Option<string>): Runtime {
    if runtime.Some? then RuntimeText(runtime.value) else NoRuntime
  }

  /** The values of a signal, in document order: a later value for the same step replaces an earlier one. */
  function ValuesOf(vs: seq<ValueElement>): Result<map<int, string>, ParseFailure> {
    if vs == [] then Ok(map[])
    else
      var last := vs[|vs| - 1];
      match ValuesOf(vs[..|vs| - 1])
      case Err(f) => Err(f)
      case Ok(m) =>
        match ParseInt(last.time)
        case None => Err(BadTime(last.time))
        case Some(t) => Ok(m[t := last.text])
  }

  /**
   * A signal's values parse exactly when every time does; each parsed time
   * is a step of the result, and a failure names a time that is not an int.
   */
  lemma {:induction false} ValuesOfEach(vs: seq<ValueElement>)
    ensures var r := ValuesOf(vs);
      && (r.Ok? <==> forall j :: 0 <= j < |vs| ==> ParseInt(vs[j].time).Some?)
      && (r.Ok? ==> forall j :: 0 <= j < |vs| ==> ParseInt(vs[j].time).value in r.value)
      && (r.Err? ==> exists j :: 0 <= j < |vs| && r.error == BadTime(vs[j].time) && ParseInt(vs[j].time).None?)
  {
    if vs != [] {
      var front := vs[..|vs| - 1];
      ValuesOfEach(front);
      assert forall j :: 0 <= j < |front| ==> front[j] == vs[j];
    }
  }

  function SignalOf(el: SignalElement): Result<Signal, ParseFailure> {
    match ValuesOf(el.values)
    case Err(f) => Err(f)
    case Ok(m) => Ok(Signal(el.name, m))
  }

  /** The signals of a counterexample, in document order; the first bad one is the failure. */
  function SignalsOf(ss: seq<SignalElement>): Result<seq<Signal>, ParseFailure> {
    if ss == [] then Ok([])
    else
      match SignalsOf(ss[..|ss| - 1])
      case Err(f) => Err(f)
      case Ok(prefix) =>
        match SignalOf(ss[|ss| - 1])
        case Err(f) => Err(f)
        case Ok(s) => Ok(prefix + [s])
  }

  /** Each signal read is the reading of its element, and a failure is the failure of one of them. */
  lemma {:induction false} SignalsOfEach(ss: seq<SignalElement>)
    ensures var r := SignalsOf(ss);
      && (r.Ok? ==> |r.value| == |ss| && forall j :: 0 <= j < |ss| ==> SignalOf(ss[j]) == Ok(r.value[j]))
      && (r.Err? ==> exists j :: 0 <= j < |ss| && SignalOf(ss[j]) == Err(r.error))
  {
    if ss != [] {
      var front := ss[..|ss| - 1];
      SignalsOfEach(front);
      assert forall j :: 0 <= j < |front| ==> front[j] == ss[j];
    }
  }

  function CounterexampleOf(cex: Option<seq<SignalElement>>, k: nat): Result<Option<Counterexample>, ParseFailure> {
    if cex.None? then Ok(None)
    else match SignalsOf(cex.value)
      case Err(f) => Err(f)
      case Ok(signals) => Ok(Some(Counterexample(k, signals)))
  }

  /**
   * The property of an element: the answer must be present, the
   * counterexample (always of length 1) must parse, and the answer, in
   * lower case, must be valid or falsifiable.
   */
  function PropertyOf(el: PropertyElement): (r: Result<Property, ParseFailure>)
    ensures r.Ok? ==> r.value.name == el.name && r.value.runtime == RuntimeOf(el.runtime)
    ensures el.answer.None? ==> r == Err(MissingAnswer)
    ensures r.Ok? && r.value.ValidProperty? <==>
      el.answer.Some? && Lower(el.answer.value) == Valid && CounterexampleOf(el.cex, 1).Ok?
    ensures r.Ok? && r.value.InvalidProperty? <==>
      el.answer.Some? && Lower(el.answer.value) == Falsifiable && CounterexampleOf(el.cex, 1).Ok?
    ensures r.Ok? && r.value.InvalidProperty? ==> Ok(r.value.cex) == CounterexampleOf(el.cex, 1)
  {
    if el.answer.None? then Err(MissingAnswer)
    else
      var answer := el.answer.value;
      match CounterexampleOf(el.cex, 1)
      case Err(f) => Err(f)
      case Ok(cex) =>
        if Lower(answer) == Valid then Ok(ValidProperty(el.name, answer, RuntimeOf(el.runtime)))
        else if Lower(answer) == Falsifiable then Ok(InvalidProperty(el.name, cex, RuntimeOf(el.runtime)))
        else Err(UnknownAnswer(answer))
  }

  /** A buffered block: rejected by the DOM step, or turned into its property. */
  function PropertyBlock(block: seq<string>): Result<Property, ParseFailure> {
    match ParseXml(block)
    case None => Err(ErrorParsing(Concat(block)))
    case Some(el) => PropertyOf(el)
  }

  // ---------------------------------------------------------------------
  // The result object the thread fills in

  /** The property results of a run, in order, and the property recorded for each. */
  datatype Table = Table(names: seq<string>, recorded: map<string, Property>)

  /**
   * Recording a parsed property: an existing result takes it; otherwise a
   * new result is added, unless the renaming drops the name.
   */
  function Record(t: Table, erased: set<string>, p: Property): Table {
    if p.name in t.names then Table(t.names, t.recorded[p.name := p])
    else if p.name in erased then t
    else Table(t.names + [p.name], t.recorded[p.name := p])
  }

  /** The properties a renaming keeps, in order. */
  function Kept(properties: seq<string>, erased: set<string>): (r: seq<string>)
    ensures forall q :: q in r <==> q in properties && q !in erased
  {
    if properties == [] then []
    else
      var last := properties[|properties| - 1];
      Kept(properties[..|properties| - 1], erased) + (if last in erased then [] else [last])
  }

  /** The last of jkind's `start`, `done` and `cancel` calls a result received. */
  datatype Progress = Waiting | Working | Completed | Canceled

  /** Everything a run can change in a result. */
  datatype Snapshot = Snapshot(table: Table, strongest: Option<string>, text: string, progress: Progress)

  /**
   * The jkind result of a Redlog run. `erased` stands for the names the
   * renaming maps to null; the names it keeps are used unchanged.
   */
  class RedlogResult {
    var names: seq<string>
    var recorded: map<string, Property>
    var strongest: Option<string>
    /** The solver's result text (jkind's `getText`). */
    var text: string
    var progress: Progress
    const erased: set<string>
    const name: string

    constructor (name: string, properties: seq<string>, erased: set<string>)
      ensures names == Kept(properties, erased) && recorded == map[] && strongest == None
      ensures text == "" && progress == Waiting
      ensures this.erased == erased && this.name == name
    {
      this.name := name;
      names := Kept(properties, erased);
      recorded := map[];
      strongest := None;
      text := "";
      progress := Waiting;
      this.erased := erased;
    }

    function State(): Snapshot
      reads this
    {
      Snapshot(Table(names, recorded), strongest, text, progress)
    }

    function Contents(): Table
      reads this`names, this`recorded
    {
      Table(names, recorded)
    }

    predicate HasPropertyResult(name: string)
      reads this`names
    {
      name in names
    }

    /** Adds a result for `name`; false when the renaming drops it. */
    method AddProperty(name: string) returns (added: bool)
      modifies this`names
      ensures added <==> name !in erased
      ensures names == if added then old(names) + [name] else old(names)
    {
      added := name !in erased;
      if added {
        names := names + [name];
      }
    }

    method SetProperty(name: string, p: Property)
      modifies this`recorded
      ensures recorded == old(recorded)[name := p]
    {
      recorded := recorded[name := p];
    }

    method SetSystemStrongestProperty(ssp: string)
      modifies this`strongest
      ensures strongest == Some(ssp)
    {
      strongest := Some(ssp);
    }

    method SetText(t: string)
      modifies this`text
      ensures text == t
    {
      text := t;
    }

    method Start()
      modifies this`progress
      ensures progress == Working
    {
      progress := Working;
    }

    method Done()
      modifies this`progress
      ensures progress == Completed
    {
      progress := Completed;
    }

    method Cancel()
      modifies this`progress
      ensures progress == Canceled
    {
      progress := Canceled;
    }
  }

  // ---------------------------------------------------------------------
  // The line loop

  /** The loop's state: the open block's lines, the results so far, and the failure that stopped it. */
  datatype RunState = RunState(buffer: Option<seq<string>>, table: Table, failure: Option<ParseFailure>)

  /**
   * One line: an opening line starts a fresh block, a closing line ends
   * and parses the block, and any other line joins an open block. After a
   * failure the loop has stopped and later lines change nothing.
   */
  function StepLine(erased: set<string>, st: RunState, line: string): RunState {
    if st.failure.Some? then st
    else if Contains(line, BeginTag) then st.(buffer := Some([line]))
    else if Contains(line, EndTag) then
      if st.buffer.None? then st.(failure := Some(MissingBuffer))
      else match PropertyBlock(st.buffer.value + [line])
        case Err(f) => st.(failure := Some(f))
        case Ok(p) => RunState(None, Record(st.table, erased, p), None)
    else if st.buffer.Some? then st.(buffer := Some(st.buffer.value + [line]))
    else st
  }

  function RunLines(erased: set<string>, st: RunState, lines: seq<string>): RunState {
    if lines == [] then st
    else StepLine(erased, RunLines(erased, st, lines[..|lines| - 1]), lines[|lines| - 1])
  }

  /** Reading two stretches of lines is reading the first, then the second. */
  lemma {:induction false} RunLinesAppend(erased: set<string>, st: RunState, a: seq<string>, b: seq<string>)
    ensures RunLines(erased, st, a + b) == RunLines(erased, RunLines(erased, st, a), b)
    decreases |b|
  {
    if b == [] {
      assert a + b == a;
    } else {
      assert (a + b)[..|a + b| - 1] == a + b[..|b| - 1];
      RunLinesAppend(erased, st, a, b[..|b| - 1]);
    }
  }

  /** Once the loop has failed, no later line changes the outcome. */
  lemma {:induction false} FailureFinal(erased: set<string>, st: RunState, lines: seq<string>)
    requires st.failure.Some?
    ensures RunLines(erased, st, lines) == st
  {
    if lines != [] {
      FailureFinal(erased, st, lines[..|lines| - 1]);
    }
  }

  class XmlParseThread {
    const result: RedlogResult
    var throwable: Option<ParseFailure>

    constructor (result: RedlogResult)
      ensures this.result == result && throwable == None
    {
      this.result := result;
      throwable := None;
    }

    /**
     * Reads the file's lines in order; the loop ends at the last line or
     * at the first failure, which is kept in `throwable`.
     */
    method Run(lines: seq<string>)
      modifies this`throwable, result`names, result`recorded
      ensures var st := RunLines(result.erased, RunState(None, old(result.Contents()), None), lines);
        && result.Contents() == st.table
        && throwable == (if st.failure.Some? then st.failure else old(throwable))
    {
      ghost var start := RunState(None, result.Contents(), None);
      var buffer: Option<seq<string>> := None;
      var i := 0;
      while i < |lines|
        invariant 0 <= i <= |lines|
        invariant RunLines(result.erased, start, lines[..i]) == RunState(buffer, result.Contents(), None)
        invariant throwable == old(throwable)
      {
        var line := lines[i];
        assert lines[..i + 1][..i] == lines[..i];
        ghost var before := RunState(buffer, result.Contents(), None);
        if Contains(line, BeginTag) {
          buffer := Some([line]);
        } else if Contains(line, EndTag) {
          if buffer.None? {
            throwable := Some(MissingBuffer);
            FinishFailed(start, lines, i + 1);
            return;
          }
          var failure := ParsePropertyXml(buffer.value + [line]);
          if failure.Some? {
            throwable := failure;
            FinishFailed(start, lines, i + 1);
            return;
          }
          buffer := None;
        } else if buffer.Some? {
          buffer := Some(buffer.value + [line]);
        }
        assert StepLine(result.erased, before, line) == RunState(buffer, result.Contents(), None);
        i := i + 1;
      }
      assert lines[..i] == lines;
    }

    lemma FinishFailed(start: RunState, lines: seq<string>, i: nat)
      requires i <= |lines| && RunLines(result.erased, start, lines[..i]).failure.Some?
      ensures RunLines(result.erased, start, lines) == RunLines(result.erased, start, lines[..i])
    {
      RunLinesAppend(result.erased, start, lines[..i], lines[i..]);
      FailureFinal(result.erased, RunLines(result.erased, start, lines[..i]), lines[i..]);
      assert lines[..i] + lines[i..] == lines;
    }

    /** Parses one block and records its property; a failure leaves the result unchanged. */
    method ParsePropertyXml(block: seq<string>) returns (failure: Option<ParseFailure>)
      modifies result`names, result`recorded
      ensures match PropertyBlock(block)
        case Err(f) => failure == Some(f) && result.Contents() == old(result.Contents())
        case Ok(p) => failure == None && result.Contents() == Record(old(result.Contents()), result.erased, p)
    {
      var el := ParseXml(block);
      if el.None? {
        return Some(ErrorParsing(Concat(block)));
      }
      var prop := GetProperty(el.value);
      if prop.Err? {
        return Some(prop.error);
      }
      var p := prop.value;
      if !result.HasPropertyResult(p.name) {
        var added := result.AddProperty(p.name);
        if !added {
          return None;
        }
      }
      result.SetProperty(p.name, p);
      return None;
    }

    method GetProperty(el: PropertyElement) returns (r: Result<Property, ParseFailure>)
      ensures r == PropertyOf(el)
    {
      if el.answer.None? {
        return Err(MissingAnswer);
      }
      var answer := el.answer.value;
      var cex := GetCounterexample(el.cex, 1);
      if cex.Err? {
        return Err(cex.error);
      }
      var lower := Lower(answer);
      if lower == Valid {
        r := Ok(ValidProperty(el.name, answer, RuntimeOf(el.runtime)));
      } else if lower == Falsifiable {
        r := Ok(InvalidProperty(el.name, cex.value, RuntimeOf(el.runtime)));
      } else {
        r := Err(UnknownAnswer(answer));
      }
    }

    method GetCounterexample(cexElement: Option<seq<SignalElement>>, k: nat)
      returns (r: Result<Option<Counterexample>, ParseFailure>)
      ensures r == CounterexampleOf(cexElement, k)
    {
      if cexElement.None? {
        return Ok(None);
      }
      var elements := cexElement.value;
      var signals: seq<Signal> := [];
      for j := 0 to |elements|
        invariant SignalsOf(elements[..j]) == Ok(signals)
      {
        assert elements[..j + 1][..j] == elements[..j] && elements[..j + 1][j] == elements[j];
        var signal := GetSignal(elements[j]);
        if signal.Err? {
          assert SignalsOf(elements[..j + 1]) == Err(signal.error);
          SignalsFailFinal(elements, j + 1);
          return Err(signal.error);
        }
        signals := signals + [signal.value];
      }
      assert elements[..|elements|] == elements;
      return Ok(Some(Counterexample(k, signals)));
    }

    method GetSignal(el: SignalElement) returns (r: Result<Signal, ParseFailure>)
      ensures r == SignalOf(el)
    {
      var values: map<int, string> := map[];
      for j := 0 to |el.values|
        invariant ValuesOf(el.values[..j]) == Ok(values)
      {
        assert el.values[..j + 1][..j] == el.values[..j];
        var v := el.values[j];
        var time := ParseInt(v.time);
        if time.None? {
          assert ValuesOf(el.values[..j + 1]) == Err(BadTime(v.time));
          ValuesFailFinal(el.values, j + 1);
          return Err(BadTime(v.time));
        }
        values := values[time.value := v.text];
      }
      assert el.values[..|el.values|] == el.values;
      return Ok(Signal(el.name, values));
    }
  }

  /** The first bad value decides the failure of the whole signal. */
  lemma {:induction false} ValuesFailFinal(vs: seq<ValueElement>, j: nat)
    requires j <= |vs| && ValuesOf(vs[..j]).Err?
    ensures ValuesOf(vs) == ValuesOf(vs[..j])
    decreases |vs| - j
  {
    if j < |vs| {
      assert vs[..j + 1][..j] == vs[..j];
      ValuesFailFinal(vs, j + 1);
    } else {
      assert vs[..j] == vs;
    }
  }

  /** The first bad signal decides the failure of the whole counterexample. */
  lemma {:induction false} SignalsFailFinal(ss: seq<SignalElement>, j: nat)
    requires j <= |ss| && SignalsOf(ss[..j]).Err?
    ensures SignalsOf(ss) == SignalsOf(ss[..j])
    decreases |ss| - j
  {
    if j < |ss| {
      assert ss[..j + 1][..j] == ss[..j];
      SignalsFailFinal(ss, j + 1);
    } else {
      assert ss[..j] == ss;
    }
  }

  // ---------------------------------------------------------------------
  // The writer's lines, as the loop classifies them

  lemma PlainDeclaration()
    ensures Plain(Declaration)
  {
    PlainTag("", "?xml version=\"1.0\"?");
    assert "" + Open("?xml version=\"1.0\"?") == Declaration;
  }

  lemma PlainRootOpen()
    ensures Plain(RootOpen)
  {
    var piece1, piece2, piece3 := " xmlns:xsi=\"http:", "//www.w3.org/2001/", "XMLSchema-instance\"";
    assert '<' !in RootName + Namespace by {
      assert '<' !in RootName && '<' !in piece1 && '<' !in piece2 && '<' !in piece3;
      assert Namespace == piece1 + piece2 + piece3;
    }
    PlainTag("", RootName + Namespace);
    assert "" + Open(RootName + Namespace) == RootOpen;
  }

  lemma PlainRootClose()
    ensures Plain(RootClose)
  {
    PlainEndTag("", ClosedRootName);
    assert "" + Close(ClosedRootName) == RootClose;
  }

  lemma PlainCounterexampleFrame()
    ensures Plain(CexOpen) && Plain(CexClose) && Plain(SignalClose)
  {
    PlainTag("    ", "Counterexample");
    PlainEndTag("    ", "Counterexample");
    PlainEndTag("      ", "Signal");
  }

  lemma PlainRuntime(runtime: string)
    requires '<' !in runtime
    ensures Plain(RuntimeLine(runtime))
  {
    PlainElement("    ", "Runtime unit=\"sec\"", runtime, "Runtime");
  }

  lemma PlainAnswer(answer: string)
    requires '<' !in answer
    ensures Plain(AnswerLine(answer))
  {
    PlainElement("    ", "Answer", answer, "Answer");
  }

  lemma PlainSignalOpen(name: string)
    requires '<' !in name
    ensures Plain(SignalOpen(name))
  {
    PlainAttrTag("      ", "Signal name=\"", name, "");
    assert SignalOpen(name) + "" == SignalOpen(name);
  }

  lemma PlainValue(i: nat, value: string)
    requires '<' !in value
    ensures Plain(ValueLine(i, value))
  {
    PlainAttrTag("        ", "Value time=\"", NatToString(i), value + ValueSuffix) by {
      PlainEmpty();
      PlainClose("Value", "");
      assert ValueSuffix + "" == ValueSuffix;
      PlainFree(value, ValueSuffix);
    }
    assert ValueLine(i, value) == "        " + "<" + "Value time=\"" + NatToString(i) + AttributeEnd + (value + ValueSuffix);
  }

  /** The opening line of a block starts a new buffer. */
  lemma OpensBlock(prop: string)
    ensures Contains(PropertyOpen(prop), BeginTag)
  {
    var rest := BeginTag + "name=\"" + prop + AttributeEnd;
    assert StartsWith(rest, BeginTag);
    StartsWithContains(rest, BeginTag);
    ContainsAfter("  ", rest, BeginTag);
    assert PropertyOpen(prop) == "  " + rest;
  }

  /** The closing line of a block ends it and does not reopen one. */
  lemma ClosesBlock()
    ensures Contains(PropertyClose, EndTag) && !Contains(PropertyClose, BeginTag)
  {
    assert PropertyClose == "  " + EndTag;
    assert Contains(EndTag, EndTag) by {
      assert StartsWith(EndTag, EndTag);
      StartsWithContains(EndTag, EndTag);
    }
    ContainsAfter("  ", EndTag, EndTag);
    assert !Contains(EndTag, BeginTag) by {
      EndTagNotBegin();
    }
    SkipFree("  ", EndTag, BeginTag);
  }

  lemma EndTagNotBegin()
    ensures !Contains(EndTag, BeginTag)
  {
    var tail := "/" + "Property" + ">";
    assert EndTag[1] == '/' && EndTag[1..] == tail;
    assert '<' !in tail;
    assert EndTag + "" == EndTag && tail + "" == tail;
    SkipHead(EndTag, "", BeginTag, 1);
    SkipFree(tail, "", BeginTag);
    NothingInEmpty(BeginTag);
  }



  // ---------------------------------------------------------------------
  // The loop over a written block

  /** Lines that neither open nor close a block are ignored outside one. */
  lemma {:induction false} IdleLines(erased: set<string>, st: RunState, ls: seq<string>)
    requires st.failure.None? && st.buffer.None?
    requires forall j :: 0 <= j < |ls| ==> Plain(ls[j])
    ensures RunLines(erased, st, ls) == st
  {
    if ls != [] {
      IdleLines(erased, st, ls[..|ls| - 1]);
    }
  }

  /** ... and appended to the buffer inside one. */
  lemma {:induction false} BufferedLines(erased: set<string>, st: RunState, ls: seq<string>)
    requires st.failure.None? && st.buffer.Some?
    requires forall j :: 0 <= j < |ls| ==> Plain(ls[j])
    ensures RunLines(erased, st, ls) == st.(buffer := Some(st.buffer.value + ls))
  {
    if ls == [] {
      assert st.buffer.value + ls == st.buffer.value;
    } else {
      BufferedLines(erased, st, ls[..|ls| - 1]);
      assert st.buffer.value + ls[..|ls| - 1] + [ls[|ls| - 1]] == st.buffer.value + ls;
    }
  }

  /** A block from an opening line to a closing line is parsed as one whole. */
  lemma BlockRun(erased: set<string>, st: RunState, block: seq<string>)
    requires st.failure.None? && |block| >= 2
    requires Contains(block[0], BeginTag)
    requires forall j :: 0 < j < |block| - 1 ==> Plain(block[j])
    requires !Contains(block[|block| - 1], BeginTag) && Contains(block[|block| - 1], EndTag)
    ensures var r := PropertyBlock(block);
      RunLines(erased, st, block) == if r.Err?
        then st.(buffer := Some(block[..|block| - 1]), failure := Some(r.error))
        else RunState(None, Record(st.table, erased, r.value), None)
  {
    var first, middle, last := block[0], block[1..|block| - 1], block[|block| - 1];
    assert block == [first] + middle + [last];
    RunLinesAppend(erased, st, [first] + middle, [last]);
    RunLinesAppend(erased, st, [first], middle);
    assert [first][..0] == [];
    var started := st.(buffer := Some([first]));
    assert RunLines(erased, st, [first]) == started;
    BufferedLines(erased, started, middle);
    assert [first] + middle + [last] == block;
  }

  // ---------------------------------------------------------------------
  // The recogniser over a written block

  /** The steps of a signal that the writer writes, as `Value` elements. */
  function WrittenValues(values: map<int, string>, n: nat): seq<ValueElement> {
    if n == 0 then []
    else
      var step := if n - 1 in values then [ValueElement(NatToString(n - 1), values[n - 1])] else [];
      WrittenValues(values, n - 1) + step
  }

  /** The signals of a counterexample that the writer writes, as `Signal` elements. */
  function WrittenSignals(k: nat, signals: seq<Signal>): seq<SignalElement> {
    if signals == [] then []
    else [SignalElement(signals[0].name, WrittenValues(signals[0].values, k))] + WrittenSignals(k, signals[1..])
  }

  lemma {:induction false} WrittenSignalsEach(k: nat, signals: seq<Signal>)
    ensures |WrittenSignals(k, signals)| == |signals|
    ensures forall j :: 0 <= j < |signals| ==>
      WrittenSignals(k, signals)[j] == SignalElement(signals[j].name, WrittenValues(signals[j].values, k))
  {
    if signals != [] {
      WrittenSignalsEach(k, signals[1..]);
    }
  }

  lemma ValueLineRead(i: nat, value: string)
    ensures ValueOf(ValueLine(i, value)) == Some(ValueElement(NatToString(i), value))
    ensures ValueLine(i, value) != SignalClose
  {
    var digits := NatToString(i);
    var middle := digits + AttributeEnd + value;
    assert ValueLine(i, value) == ValuePrefix + middle + ValueSuffix;
    BetweenOf(ValuePrefix, middle, ValueSuffix);
    ValueMiddle(digits, value);
    assert ValueLine(i, value)[6] != SignalClose[6];
  }

  lemma ValueMiddle(digits: string, value: string)
    requires forall j :: 0 <= j < |digits| ==> IsDigit(digits[j])
    ensures var middle := digits + AttributeEnd + value;
      && FirstIndex(middle, '"') == Some(|digits|)
      && StartsWith(middle[|digits|..], AttributeEnd)
      && middle[..|digits|] == digits && middle[|digits| + 2..] == value
  {
    var middle := digits + AttributeEnd + value;
    assert middle == digits + ['"'] + (">" + value);
    FirstIndexOf(digits, '"', ">" + value);
    assert middle[|digits|..] == AttributeEnd + value;
  }

  /** Value lines before the signal's closing line are read in order. */
  lemma {:induction false} ReadValueLines(ls: seq<string>, es: seq<ValueElement>, tail: seq<string>)
    requires |ls| == |es|
    requires forall j :: 0 <= j < |ls| ==> ValueOf(ls[j]) == Some(es[j]) && ls[j] != SignalClose
    ensures var r := ParseValues(tail);
      ParseValues(ls + tail) == if r.None? then None else Some((es + r.value.0, r.value.1))
  {
    var r := ParseValues(tail);
    if ls == [] {
      assert ls + tail == tail;
      if r.Some? {
        assert es + r.value.0 == r.value.0;
      }
    } else {
      var whole := ls + tail;
      assert whole[1..] == ls[1..] + tail;
      ReadValueLines(ls[1..], es[1..], tail);
      var inner := ParseValues(ls[1..] + tail);
      assert whole[0] == ls[0] && whole[0] != SignalClose && ValueOf(whole[0]) == Some(es[0]);
      assert ParseValues(whole) == if inner.None? then None else Some(([es[0]] + inner.value.0, inner.value.1));
      if r.Some? {
        ConsAppend(es, r.value.0);
      }
    }
  }

  lemma AppendAssoc<T>(a: seq<T>, b: seq<T>, c: seq<T>, d: seq<T>)
    ensures a + b + c + d == a + (b + c + d)
  {
  }

  lemma ConsAppend<T>(a: seq<T>, b: seq<T>)
    requires a != []
    ensures [a[0]] + (a[1..] + b) == a + b
  {
    assert [a[0]] + a[1..] == a;
  }

  lemma {:induction false} WrittenValueLines(values: map<int, string>, n: nat)
    ensures var ls, es := ValueLines(values, n), WrittenValues(values, n);
      |ls| == |es| && forall j :: 0 <= j < |ls| ==> ValueOf(ls[j]) == Some(es[j]) && ls[j] != SignalClose
  {
    if n > 0 {
      WrittenValueLines(values, n - 1);
      if n - 1 in values {
        ValueLineRead(n - 1, values[n - 1]);
      }
    }
  }

  lemma {:induction false} SignalsLinesCons(k: nat, s: Signal, ss: seq<Signal>)
    ensures SignalsLines(k, [s] + ss) == SignalLines(k, s) + SignalsLines(k, ss)
    decreases |ss|
  {
    var whole := [s] + ss;
    if ss == [] {
      assert whole[..0] == [];
      assert SignalsLines(k, whole) == SignalsLines(k, []) + SignalLines(k, s);
    } else {
      var front, last := ss[..|ss| - 1], ss[|ss| - 1];
      assert whole[..|ss|] == [s] + front && whole[|ss|] == last;
      assert SignalsLines(k, whole) == SignalsLines(k, [s] + front) + SignalLines(k, last);
      SignalsLinesCons(k, s, front);
      assert SignalsLines(k, ss) == SignalsLines(k, front) + SignalLines(k, last);
    }
  }

  /** The signal blocks of a counterexample are read in order, up to its closing line. */
  lemma {:induction false} ReadSignalLines(k: nat, ss: seq<Signal>, rest: seq<string>)
    ensures ParseSignals(SignalsLines(k, ss) + [CexClose] + rest) == Some((WrittenSignals(k, ss), rest))
    decreases |ss|
  {
    if ss == [] {
      var whole := [CexClose] + rest;
      assert SignalsLines(k, ss) + [CexClose] + rest == whole;
      assert whole[0] == CexClose && whole[1..] == rest;
      assert WrittenSignals(k, ss) == [];
    } else {
      var s := ss[0];
      var later := SignalsLines(k, ss[1..]) + [CexClose] + rest;
      var here, after := SignalLines(k, s), SignalsLines(k, ss[1..]);
      assert SignalsLines(k, ss) == here + after by {
        assert [s] + ss[1..] == ss;
        SignalsLinesCons(k, s, ss[1..]);
      }
      AppendAssoc(here, after, [CexClose], rest);
      ReadSignalLines(k, ss[1..], rest);
      ReadOneSignal(k, s, later);
    }
  }

  /** One signal block is read as its name and written values, and reading goes on after it. */
  lemma ReadOneSignal(k: nat, s: Signal, later: seq<string>)
    ensures var r := ParseSignals(later);
      ParseSignals(SignalLines(k, s) + later)
        == if r.None? then None else Some(([SignalElement(s.name, WrittenValues(s.values, k))] + r.value.0, r.value.1))
  {
    var values := ValueLines(s.values, k);
    var whole := [SignalOpen(s.name)] + (values + ([SignalClose] + later));
    assert SignalLines(k, s) + later == whole;
    assert whole[0] == SignalOpen(s.name) && whole[0] != CexClose by {
      assert SignalOpen(s.name)[4] != CexClose[4];
    }
    BetweenOf(SignalPrefix, s.name, AttributeEnd);
    assert whole[1..] == values + ([SignalClose] + later);
    assert ParseValues([SignalClose] + later) == Some(([], later)) by {
      assert ([SignalClose] + later)[1..] == later;
    }
    WrittenValueLines(s.values, k);
    ReadValueLines(values, WrittenValues(s.values, k), [SignalClose] + later);
    assert WrittenValues(s.values, k) + [] == WrittenValues(s.values, k);
  }

  /** A block without a counterexample is read as its name, runtime and answer. */
  lemma ReadPlainBlock(prop: string, runtime: string, answer: string)
    ensures ParseXml(Block(prop, runtime, answer, [])) == Some(PropertyElement(prop, Some(runtime), Some(answer), None))
  {
    var block := Block(prop, runtime, answer, []);
    BetweenOf(PropertyPrefix, prop, AttributeEnd);
    BetweenOf(RuntimePrefix, runtime, RuntimeSuffix);
    BetweenOf(AnswerPrefix, answer, AnswerSuffix);
    assert block[1..|block| - 1] == [RuntimeLine(runtime), AnswerLine(answer)];
  }

  /** A falsifiable block is read with the signal elements the writer wrote. */
  lemma ReadInvalidBlock(prop: string, cex: Counterexample, runtime: string)
    ensures ParseXml(InvalidBlock(prop, cex, runtime))
      == Some(PropertyElement(prop, Some(runtime), Some(Falsifiable), Some(WrittenSignals(cex.length, cex.signals))))
  {
    var block := InvalidBlock(prop, cex, runtime);
    var signals := SignalsLines(cex.length, cex.signals);
    BetweenOf(PropertyPrefix, prop, AttributeEnd);
    BetweenOf(RuntimePrefix, runtime, RuntimeSuffix);
    BetweenOf(AnswerPrefix, Falsifiable, AnswerSuffix);
    var lines := CounterexampleLines(cex);
    var body := block[1..|block| - 1];
    assert body == [RuntimeLine(runtime), AnswerLine(Falsifiable)] + lines;
    assert body[1..][1..] == lines;
    assert lines[0] == CexOpen && lines[1..] == signals + [CexClose] + [];
    ReadSignalLines(cex.length, cex.signals, []);
    assert ParseBody(prop, body)
      == Some(PropertyElement(prop, Some(runtime), Some(Falsifiable), Some(WrittenSignals(cex.length, cex.signals))));
  }

  // ---------------------------------------------------------------------
  // What the thread makes of a written verdict

  /** The values of a signal at the steps below `n`. */
  function Restrict(values: map<int, string>, n: nat): map<int, string> {
    map t | t in values && 0 <= t < n :: values[t]
  }

  /** The counterexample signals the thread reads back when `k` steps were written. */
  function ReadSignals(k: nat, signals: seq<Signal>): seq<Signal> {
    seq(|signals|, j requires 0 <= j < |signals| => Signal(signals[j].name, Restrict(signals[j].values, k)))
  }

  lemma {:induction false} WrittenValuesRead(values: map<int, string>, n: nat)
    requires n <= IntMax + 1
    ensures ValuesOf(WrittenValues(values, n)) == Ok(Restrict(values, n))
  {
    if n > 0 {
      WrittenValuesRead(values, n - 1);
      var front := WrittenValues(values, n - 1);
      if n - 1 in values {
        var e := ValueElement(NatToString(n - 1), values[n - 1]);
        assert (front + [e])[..|front|] == front;
        ParsePrintedNat(n - 1);
      } else {
        assert front + [] == front;
      }
      RestrictStep(values, n);
    }
  }

  lemma RestrictStep(values: map<int, string>, n: nat)
    requires n > 0
    ensures Restrict(values, n)
      == if n - 1 in values then Restrict(values, n - 1)[n - 1 := values[n - 1]] else Restrict(values, n - 1)
  {
  }

  lemma WrittenSignalsRead(k: nat, signals: seq<Signal>)
    requires k <= IntMax + 1
    ensures SignalsOf(WrittenSignals(k, signals)) == Ok(ReadSignals(k, signals))
  {
    var elements := WrittenSignals(k, signals);
    WrittenSignalsEach(k, signals);
    forall j | 0 <= j < |signals|
      ensures SignalOf(elements[j]) == Ok(ReadSignals(k, signals)[j])
    {
      WrittenValuesRead(signals[j].values, k);
    }
    var r := SignalsOf(elements);
    SignalsOfEach(elements);
    assert r.Ok?;
    assert |elements| == |signals| == |ReadSignals(k, signals)|;
    assert forall j :: 0 <= j < |signals| ==> r.value[j] == ReadSignals(k, signals)[j];
    assert r.value == ReadSignals(k, signals);
  }

  lemma {:induction false} LowerUnchanged(s: string)
    requires forall i :: 0 <= i < |s| ==> !('A' <= s[i] <= 'Z')
    ensures Lower(s) == s
  {
    assert forall i :: 0 <= i < |s| ==> Lower(s)[i] == s[i];
  }

  lemma AnswersLowered()
    ensures Lower(Valid) == Valid && Lower(Falsifiable) == Falsifiable
    ensures Lower(Unknown) != Valid && Lower(Unknown) != Falsifiable
  {
    LowerUnchanged(Valid);
    LowerUnchanged("falsi");
    LowerUnchanged("fiable");
    LowerAppend("falsi", "fiable");
  }

  /** A valid verdict is read back as a valid property whose source is the answer text. */
  lemma ValidBlockRead(prop: string, runtime: string)
    ensures PropertyBlock(ValidBlock(prop, runtime)) == Ok(ValidProperty(prop, Valid, RuntimeText(runtime)))
  {
    ReadPlainBlock(prop, runtime, Valid);
    AnswersLowered();
  }

  /**
   * A falsifiable verdict is read back with its signals in order, each
   * with the values at the steps that were written; the counterexample's
   * length is always 1, whatever length was written.
   */
  lemma InvalidBlockRead(prop: string, cex: Counterexample, runtime: string)
    requires cex.length <= IntMax + 1
    ensures PropertyBlock(InvalidBlock(prop, cex, runtime))
      == Ok(InvalidProperty(prop, Some(Counterexample(1, ReadSignals(cex.length, cex.signals))), RuntimeText(runtime)))
  {
    ReadInvalidBlock(prop, cex, runtime);
    WrittenSignalsRead(cex.length, cex.signals);
    AnswersLowered();
  }

  /** An unknown verdict cannot be read back: the thread stops with an unknown-answer failure. */
  lemma UnknownBlockRead(prop: string, runtime: string)
    ensures PropertyBlock(UnknownBlock(prop, runtime)) == Err(UnknownAnswer(Unknown))
  {
    ReadPlainBlock(prop, runtime, Unknown);
    AnswersLowered();
  }

  // ---------------------------------------------------------------------
  // Reading back a whole written file

  /** Names and values a counterexample block can carry without being taken for a tag. */
  predicate PrintableCex(cex: Counterexample) {
    forall j :: 0 <= j < |cex.signals| ==> PrintableSignal(cex.signals[j])
  }

  predicate PrintableSignal(s: Signal) {
    '<' !in s.name && forall t :: t in s.values ==> '<' !in s.values[t]
  }

  /**
   * Text the writer prints as it is and an XML parser reads back unchanged:
   * printable ASCII without `<`, `>`, `&` or `"`, so it holds no markup, no
   * entity reference and nothing that ends an attribute value.
   */
  predicate XmlText(s: string) {
    forall i :: 0 <= i < |s| ==> ' ' <= s[i] <= '~' && s[i] != '<' && s[i] != '>' && s[i] != '&' && s[i] != '"'
  }

  /** A counterexample whose signal names and values are all such text. */
  predicate XmlCex(cex: Counterexample) {
    forall j :: 0 <= j < |cex.signals| ==>
      XmlText(cex.signals[j].name) && forall t :: t in cex.signals[j].values ==> XmlText(cex.signals[j].values[t])
  }

  lemma XmlTextPrintable(s: string)
    requires XmlText(s)
    ensures '<' !in s
  {
  }

  lemma XmlCexPrintable(cex: Counterexample)
    requires XmlCex(cex)
    ensures PrintableCex(cex)
  {
  }

  lemma {:induction false} PlainValueLines(values: map<int, string>, n: nat)
    requires forall t :: t in values ==> '<' !in values[t]
    ensures forall j :: 0 <= j < |ValueLines(values, n)| ==> Plain(ValueLines(values, n)[j])
  {
    if n > 0 {
      PlainValueLines(values, n - 1);
      if n - 1 in values {
        PlainValue(n - 1, values[n - 1]);
      }
    }
  }

  lemma {:induction false} PlainSignalsLines(k: nat, ss: seq<Signal>)
    requires forall j :: 0 <= j < |ss| ==> PrintableSignal(ss[j])
    ensures forall j :: 0 <= j < |SignalsLines(k, ss)| ==> Plain(SignalsLines(k, ss)[j])
  {
    if ss != [] {
      var s := ss[|ss| - 1];
      PlainSignalsLines(k, ss[..|ss| - 1]);
      PlainSignalOpen(s.name);
      PlainValueLines(s.values, k);
      PlainCounterexampleFrame();
    }
  }

  lemma PlainCounterexampleLines(cex: Counterexample)
    requires PrintableCex(cex)
    ensures forall j :: 0 <= j < |CounterexampleLines(cex)| ==> Plain(CounterexampleLines(cex)[j])
  {
    PlainSignalsLines(cex.length, cex.signals);
    PlainCounterexampleFrame();
  }

  /** A written valid verdict, met anywhere in the loop, records its property. */
  lemma ValidBlockRun(erased: set<string>, st: RunState, prop: string, runtime: string)
    requires st.failure.None? && '<' !in runtime
    ensures RunLines(erased, st, ValidBlock(prop, runtime))
      == RunState(None, Record(st.table, erased, ValidProperty(prop, Valid, RuntimeText(runtime))), None)
  {
    var block := ValidBlock(prop, runtime);
    assert forall j :: 0 < j < |block| - 1 ==> Plain(block[j]) by {
      PlainRuntime(runtime);
      PlainAnswer(Valid);
    }
    assert PropertyBlock(block) == Ok(ValidProperty(prop, Valid, RuntimeText(runtime))) by {
      ValidBlockRead(prop, runtime);
    }
    WrittenBlockRun(erased, st, prop, block);
  }

  /** A written falsifiable verdict, met anywhere in the loop, records its property. */
  lemma InvalidBlockRun(erased: set<string>, st: RunState, prop: string, cex: Counterexample, runtime: string)
    requires st.failure.None? && '<' !in runtime && PrintableCex(cex) && cex.length <= IntMax + 1
    ensures RunLines(erased, st, InvalidBlock(prop, cex, runtime)) == RunState(None, Record(st.table, erased,
      InvalidProperty(prop, Some(Counterexample(1, ReadSignals(cex.length, cex.signals))), RuntimeText(runtime))), None)
  {
    var block := InvalidBlock(prop, cex, runtime);
    assert forall j :: 0 < j < |block| - 1 ==> Plain(block[j]) by {
      var lines := CounterexampleLines(cex);
      PlainRuntime(runtime);
      PlainAnswer(Falsifiable);
      PlainCounterexampleLines(cex);
      assert forall j :: 3 <= j < |block| - 1 ==> block[j] == lines[j - 3];
    }
    assert PropertyBlock(block) == Ok(InvalidProperty(prop,
      Some(Counterexample(1, ReadSignals(cex.length, cex.signals))), RuntimeText(runtime))) by {
      InvalidBlockRead(prop, cex, runtime);
    }
    WrittenBlockRun(erased, st, prop, block);
  }

  /** A written unknown verdict stops the loop with an unknown-answer failure. */
  lemma UnknownBlockRun(erased: set<string>, st: RunState, prop: string, runtime: string)
    requires st.failure.None? && '<' !in runtime
    ensures RunLines(erased, st, UnknownBlock(prop, runtime)).failure == Some(UnknownAnswer(Unknown))
    ensures RunLines(erased, st, UnknownBlock(prop, runtime)).table == st.table
  {
    var block := UnknownBlock(prop, runtime);
    assert forall j :: 0 < j < |block| - 1 ==> Plain(block[j]) by {
      PlainRuntime(runtime);
      PlainAnswer(Unknown);
    }
    assert PropertyBlock(block) == Err(UnknownAnswer(Unknown)) by {
      UnknownBlockRead(prop, runtime);
    }
    WrittenBlockRun(erased, st, prop, block);
  }

  /** A block the writer opens and closes, whose other lines are plain, is read as one whole. */
  lemma WrittenBlockRun(erased: set<string>, st: RunState, prop: string, block: seq<string>)
    requires st.failure.None? && |block| >= 2
    requires block[0] == PropertyOpen(prop) && block[|block| - 1] == PropertyClose
    requires forall j :: 0 < j < |block| - 1 ==> Plain(block[j])
    ensures var r := PropertyBlock(block);
      RunLines(erased, st, block) == if r.Err?
        then st.(buffer := Some(block[..|block| - 1]), failure := Some(r.error))
        else RunState(None, Record(st.table, erased, r.value), None)
  {
    OpensBlock(prop);
    ClosesBlock();
    BlockRun(erased, st, block);
  }

  /** A verdict the Redlog back end writes: proved valid, or falsified. */
  datatype Verdict =
    | Proved(prop: string, runtime: string)
    | Falsified(prop: string, cex: Counterexample, runtime: string)

  predicate Printable(v: Verdict) {
    '<' !in v.runtime && (v.Falsified? ==> PrintableCex(v.cex) && v.cex.length <= IntMax + 1)
  }

  function VerdictBlock(v: Verdict): seq<string> {
    match v
    case Proved(prop, runtime) => ValidBlock(prop, runtime)
    case Falsified(prop, cex, runtime) => InvalidBlock(prop, cex, runtime)
  }

  function VerdictsLines(vs: seq<Verdict>): seq<string> {
    if vs == [] then [] else VerdictsLines(vs[..|vs| - 1]) + VerdictBlock(vs[|vs| - 1])
  }

  /** The property the thread should make of a verdict. */
  function Expected(v: Verdict): Property {
    match v
    case Proved(prop, runtime) => ValidProperty(prop, Valid, RuntimeText(runtime))
    case Falsified(prop, cex, runtime) =>
      InvalidProperty(prop, Some(Counterexample(1, ReadSignals(cex.length, cex.signals))), RuntimeText(runtime))
  }

  function RecordAll(t: Table, erased: set<string>, vs: seq<Verdict>): Table {
    if vs == [] then t else Record(RecordAll(t, erased, vs[..|vs| - 1]), erased, Expected(vs[|vs| - 1]))
  }

  lemma {:induction false} VerdictsRun(erased: set<string>, st: RunState, vs: seq<Verdict>)
    requires st.failure.None? && st.buffer.None?
    requires forall j :: 0 <= j < |vs| ==> Printable(vs[j])
    ensures RunLines(erased, st, VerdictsLines(vs)) == RunState(None, RecordAll(st.table, erased, vs), None)
  {
    if vs != [] {
      var front, v := vs[..|vs| - 1], vs[|vs| - 1];
      VerdictsRun(erased, st, front);
      RunLinesAppend(erased, st, VerdictsLines(front), VerdictBlock(v));
      var mid := RunLines(erased, st, VerdictsLines(front));
      match v
      case Proved(prop, runtime) => ValidBlockRun(erased, mid, prop, runtime);
      case Falsified(prop, cex, runtime) => InvalidBlockRun(erased, mid, prop, cex, runtime);
    }
  }

  /**
   * The round trip between the writer and the parse thread: the file
   * written for valid and falsified verdicts is read back, verdict by
   * verdict in order, with no failure and no block left open.
   */
  lemma WrittenFileRead(erased: set<string>, t: Table, vs: seq<Verdict>)
    requires forall j :: 0 <= j < |vs| ==> Printable(vs[j])
    ensures RunLines(erased, RunState(None, t, None), BeginLines() + VerdictsLines(vs) + EndLines())
      == RunState(None, RecordAll(t, erased, vs), None)
  {
    var st := RunState(None, t, None);
    PlainDeclaration();
    PlainRootOpen();
    PlainRootClose();
    IdleLines(erased, st, BeginLines());
    RunLinesAppend(erased, st, BeginLines(), VerdictsLines(vs));
    VerdictsRun(erased, st, vs);
    RunLinesAppend(erased, st, BeginLines() + VerdictsLines(vs), EndLines());
    IdleLines(erased, RunState(None, RecordAll(t, erased, vs), None), EndLines());
  }
}
