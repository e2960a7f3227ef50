/**
 * The XML result file the Redlog back end writes for its parse thread: a
 * declaration and root line, one `Property` block per verdict, and a
 * closing line. The writer appends whole lines to its output.
 */
module XmlWriter {
  import opened Wrappers
  import opened Text

  /** A jkind signal: the values of one variable, by time step. */
  datatype Signal = Signal(name: string, values: map<int, string>)

  /** A jkind counterexample: its length in steps and its signals, in order. */
  datatype Counterexample = Counterexample(length: nat, signals: seq<Signal>)

  function Open(t: string): string {
    "<" + t + ">"
  }

  function Close(t: string): string {
    "</" + t + ">"
  }

  const RootName: string := "RedlogResults"
  // In pieces, so that the proof that it holds no `<` can take each short piece on its own.
  const Namespace: string := " xmlns:xsi=\"http:" + "//www.w3.org/2001/" + "XMLSchema-instance\""
  const ClosedRootName: string := "Results"

  const Declaration: string := Open("?xml version=\"1.0\"?")
  const RootOpen: string := Open(RootName + Namespace)
  const RootClose: string := Close(ClosedRootName)

  const PropertyPrefix: string := "  " + "<Property " + "name=\""
  const AttributeEnd: string := "\">"
  const PropertyClose: string := "  " + Close("Property")
  const RuntimePrefix: string := "    " + Open("Runtime unit=\"sec\"")
  const RuntimeSuffix: string := Close("Runtime")
  const AnswerPrefix: string := "    " + Open("Answer")
  const AnswerSuffix: string := Close("Answer")
  const CexOpen: string := "    " + Open("Counterexample")
  const CexClose: string := "    " + Close("Counterexample")
  const SignalPrefix: string := "      " + "<" + "Signal name=\""
  const SignalClose: string := "      " + Close("Signal")
  const ValuePrefix: string := "        " + "<" + "Value time=\""
  const ValueSuffix: string := Close("Value")

  const Valid: string := "valid"
  const Falsifiable: string := "falsi" + "fiable"
  const Unknown: string := "unknown"

  function PropertyOpen(prop: string): string {
    PropertyPrefix + prop + AttributeEnd
  }

  /** The runtime is carried as the text Java prints for the double. */
  function RuntimeLine(runtime: string): string {
    RuntimePrefix + runtime + RuntimeSuffix
  }

  function AnswerLine(answer: string): string {
    AnswerPrefix + answer + AnswerSuffix
  }

  function SignalOpen(name: string): string {
    SignalPrefix + name + AttributeEnd
  }

  function ValueLine(i: nat, value: string): string {
    ValuePrefix + NatToString(i) + AttributeEnd + value + ValueSuffix
  }

  // ---------------------------------------------------------------------
  // The lines each call emits

  function BeginLines(): seq<string> {
    [Declaration, RootOpen]
  }

  function EndLines(): seq<string> {
    [RootClose]
  }

  function Block(prop: string, runtime: string, answer: string, cex: seq<string>): seq<string> {
    [PropertyOpen(prop), RuntimeLine(runtime), AnswerLine(answer)] + cex + [PropertyClose]
  }

  function ValidBlock(prop: string, runtime: string): seq<string> {
    Block(prop, runtime, Valid, [])
  }

  function InvalidBlock(prop: string, cex: Counterexample, runtime: string): seq<string> {
    Block(prop, runtime, Falsifiable, CounterexampleLines(cex))
  }

  function UnknownBlock(prop: string, runtime: string): seq<string> {
    Block(prop, runtime, Unknown, [])
  }

  function CounterexampleLines(cex: Counterexample): seq<string> {
    [CexOpen] + SignalsLines(cex.length, cex.signals) + [CexClose]
  }

  function SignalsLines(k: nat, signals: seq<Signal>): seq<string> {
    if signals == [] then []
    else SignalsLines(k, signals[..|signals| - 1]) + SignalLines(k, signals[|signals| - 1])
  }

  function SignalLines(k: nat, signal: Signal): seq<string> {
    [SignalOpen(signal.name)] + ValueLines(signal.values, k) + [SignalClose]
  }

  /** One line per step below `n` that has a value; a step without one is arbitrary and skipped. */
  function ValueLines(values: map<int, string>, n: nat): seq<string> {
    if n == 0 then []
    else ValueLines(values, n - 1) + (if n - 1 in values then [ValueLine(n - 1, values[n - 1])] else [])
  }

  /** The steps `ValueLines` writes, in the order it writes them. */
  function ValueTimes(values: map<int, string>, n: nat): seq<nat> {
    if n == 0 then []
    else ValueTimes(values, n - 1) + (if n - 1 in values then [n - 1] else [])
  }

  // ---------------------------------------------------------------------
  // The writer

  class XmlWriter {
    /** The lines printed so far. */
    var out: seq<string>

    /** The file or standard-output target is not part of this model. */
    constructor ()
      ensures out == []
    {
      out := [];
    }

    method Begin()
      modifies this`out
      ensures out == old(out) + BeginLines()
    {
      out := out + [Declaration];
      out := out + [RootOpen];
    }

    method End()
      modifies this`out
      ensures out == old(out) + EndLines()
    {
      out := out + [RootClose];
    }

    method WriteValid(prop: string, runtime: string)
      modifies this`out
      ensures out == old(out) + ValidBlock(prop, runtime)
    {
      out := out + [PropertyOpen(prop), RuntimeLine(runtime), AnswerLine(Valid), PropertyClose];
    }

    method WriteInvalid(prop: string, cex: Counterexample, runtime: string)
      modifies this`out
      ensures out == old(out) + InvalidBlock(prop, cex, runtime)
    {
      out := out + [PropertyOpen(prop), RuntimeLine(runtime), AnswerLine(Falsifiable)];
      ghost var head := out;
      WriteCounterexample(cex);
      out := out + [PropertyClose];
      assert out == head + CounterexampleLines(cex) + [PropertyClose];
    }

    method WriteUnknown(prop: string, runtime: string)
      modifies this`out
      ensures out == old(out) + UnknownBlock(prop, runtime)
    {
      out := out + [PropertyOpen(prop), RuntimeLine(runtime), AnswerLine(Unknown), PropertyClose];
    }

    method WriteCounterexample(cex: Counterexample)
      modifies this`out
      ensures out == old(out) + CounterexampleLines(cex)
    {
      out := out + [CexOpen];
      for j := 0 to |cex.signals|
        invariant out == old(out) + [CexOpen] + SignalsLines(cex.length, cex.signals[..j])
      {
        WriteSignal(cex.length, cex.signals[j]);
        assert cex.signals[..j + 1][..j] == cex.signals[..j];
      }
      out := out + [CexClose];
      assert cex.signals[..|cex.signals|] == cex.signals;
    }

    method WriteSignal(k: nat, signal: Signal)
      modifies this`out
      ensures out == old(out) + SignalLines(k, signal)
    {
      out := out + [SignalOpen(signal.name)];
      for i := 0 to k
        invariant out == old(out) + [SignalOpen(signal.name)] + ValueLines(signal.values, i)
      {
        if i in signal.values {
          out := out + [ValueLine(i, signal.values[i])];
        }
      }
      out := out + [SignalClose];
    }
  }

  // ---------------------------------------------------------------------
  // Properties of the written text

  /**
   * The root element opened by `begin` is not the one `end` closes, so the
   * document breaks the element-type-match constraint of section 3 of
   * XML 1.0; the parse thread reads only the `Property` blocks, so it is
   * not affected.
   */
  lemma RootNotClosed()
    ensures RootOpen == "<" + RootName + Namespace + ">" && RootClose == "</" + ClosedRootName + ">"
    ensures RootName != ClosedRootName
  {
    assert RootName[2] != ClosedRootName[2];
  }

  /** A step is written exactly when it is below `n` and has a value, in increasing order, each with its value. */
  lemma {:induction false} ValueLinesWritten(values: map<int, string>, n: nat)
    ensures var lines, times := ValueLines(values, n), ValueTimes(values, n);
      && |lines| == |times|
      && (forall j :: 0 <= j < |times| ==> times[j] in values && lines[j] == ValueLine(times[j], values[times[j]]))
      && (forall a, b :: 0 <= a < b < |times| ==> times[a] < times[b])
      && (forall t: nat :: t in times <==> t < n && t in values)
  {
    if n > 0 {
      ValueLinesWritten(values, n - 1);
      var times := ValueTimes(values, n - 1);
      assert forall j :: 0 <= j < |times| ==> times[j] < n - 1;
    }
  }

  /** Only a falsifiable verdict carries a counterexample block. */
  lemma OnlyInvalidHasCounterexample(prop: string, cex: Counterexample, runtime: string)
    ensures CexOpen in InvalidBlock(prop, cex, runtime)
    ensures CexOpen !in ValidBlock(prop, runtime) && CexOpen !in UnknownBlock(prop, runtime)
  {
    assert InvalidBlock(prop, cex, runtime)[3] == CexOpen;
    NotCexOpen(prop, runtime, Valid);
    NotCexOpen(prop, runtime, Unknown);
  }

  lemma NotCexOpen(prop: string, runtime: string, answer: string)
    ensures CexOpen !in Block(prop, runtime, answer, [])
  {
    var b := Block(prop, runtime, answer, []);
    assert CexOpen[5] == 'C';
    assert b[0][2] == '<' && CexOpen[2] == ' ';
    assert b[1][5] == 'R' && b[2][5] == 'A';
    assert b[3] != CexOpen by {
      assert |b[3]| != |CexOpen|;
    }
  }
}
