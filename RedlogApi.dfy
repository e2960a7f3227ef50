/**
 * The Redlog driver: how the solver's printed output is cut into the
 * strongest-property band and the verification-result band, how the
 * verdict and the counterexample are read from the result text and
 * written as the XML result file, and how `execute` combines the solver
 * process, the writer and the parse thread into one outcome.
 */
module RedlogApi {
  import opened Wrappers
  import opened Text
  import opened XmlWriter
  import opened XmlParseThread
  import RedlogScript
  import Ast

  // ---------------------------------------------------------------------
  // Failures

  /** The throwables other than `RedlogException` a run can raise, by what raises them. */
  datatype Cause =
    | NoProcess                                      // `builder.start()` throws IOException
    | NoOutput                                       // `pair` is null: cancelled, or the process died first
    | OutputEndsInBand                               // a band is still open when the output ends: `line` is null
    | NoPropertyResult                               // `getPropertyResults().get(0)` on an empty list
    | NoTime                                         // `substring(-1)`: the result text has no "Time: "
    | BadRuntime(runtime: string)                    // Double.parseDouble rejects the runtime text
    | MissingValue(line: string)                     // an `=` line without a name or a value
    | AbnormalTermination(code: int, text: string)   // JKindException for a nonzero exit code
    | ErrorParsingXml(failure: ParseFailure)         // JKindException carrying the parse thread's throwable

  /** What `execute` throws: a `RedlogException` raised as such, or one wrapping another throwable with the result text. */
  datatype ApiFailure =
    | RedlogException(message: string)
    | Wrapped(text: string, cause: Cause)

  /** How a call ends: it returns, it throws, or it never comes back. */
  datatype Outcome<+F> = Returned | Threw(failure: F) | Hangs

  const TimeoutMessage: string := "Timeout must be positive"
  const ExistingXmlMessage: string := "Existing XML file cannot be removed: "

  // ---------------------------------------------------------------------
  // The timeout

  class RedlogApi {
    var timeout: Option<int>

    constructor ()
      ensures timeout == None
    {
      timeout := None;
    }

    /** A timeout must be positive; a rejected one leaves the old value. */
    method SetTimeout(t: int) returns (failure: Option<ApiFailure>)
      modifies this`timeout
      ensures t <= 0 ==> failure == Some(RedlogException(TimeoutMessage)) && timeout == old(timeout)
      ensures t > 0 ==> failure == None && timeout == Some(t)
    {
      if t <= 0 {
        return Some(RedlogException(TimeoutMessage));
      }
      timeout := Some(t);
      failure := None;
    }
  }

  // ---------------------------------------------------------------------
  // Reading the solver's output

  const EndOfFile: string := "End-of-file"
  const Quitting: string := "Quitting"
  const BeginStrongest: string := "//begin printing system strongest property:"
  const BeginResult: string := "//begin printing system property verification result:"
  const EndPrinting: string := "//end printing"
  const TimePrefix: string := "Time: "

  /** Where the scan is: outside the bands, inside one of them, or past the end marker. */
  datatype Band = Outside | StrongestBand | ResultBand | Stopped

  /** The scan's position and the two texts it has built. */
  datatype Scan = Scan(band: Band, ssp: string, vr: string)

  const Initial: Scan := Scan(Outside, "", "")

  /**
   * One line of output. Outside the bands, an end marker stops the scan, a
   * begin sentinel opens its band and a time line joins the result text;
   * inside a band, an end sentinel closes it and every other line without
   * a colon joins the band's text.
   */
  function ScanLine(s: Scan, line: string): Scan {
    match s.band
    case Stopped => s
    case Outside =>
      if Contains(line, EndOfFile) || Contains(line, Quitting) then s.(band := Stopped)
      else if StartsWith(line, BeginStrongest) then s.(band := StrongestBand)
      else if StartsWith(line, BeginResult) then s.(band := ResultBand)
      else if StartsWith(line, TimePrefix) then s.(vr := s.vr + line)
      else s
    case StrongestBand =>
      if StartsWith(line, EndPrinting) then s.(band := Outside)
      else if Contains(line, ":") then s
      else s.(ssp := s.ssp + line)
    case ResultBand =>
      if StartsWith(line, EndPrinting) then s.(band := Outside)
      else if Contains(line, ":") then s
      else s.(vr := s.vr + line)
  }

  function ScanFrom(s: Scan, lines: seq<string>): Scan {
    if lines == [] then s else ScanLine(ScanFrom(s, lines[..|lines| - 1]), lines[|lines| - 1])
  }

  /** When the polling loop first sees the output ready, the monitor cancelled, or the process gone. */
  datatype Readiness = Ready | CanceledFirst | DiedFirst

  /** The pair `readRedlogOutput` returns, null, a null line inside a band, or a scan that never ends. */
  datatype ReadOutcome = Pair(strongest: string, result: string) | NoPair | NullLine | Spins

  /**
   * The output ends where the lines end. Past the end marker the pair is
   * returned; inside a band the next line is null; outside the bands
   * `readLine` keeps returning null and the loop keeps waiting.
   */
  function ReadOutput(start: Readiness, lines: seq<string>): ReadOutcome {
    if start != Ready then NoPair
    else
      var s := ScanFrom(Initial, lines);
      match s.band
      case Stopped => Pair(CleanStrongest(s.ssp), CleanResult(s.vr))
      case Outside => Spins
      case StrongestBand => NullLine
      case ResultBand => NullLine
  }

  const Dropped: set<char> := {'!', '\r', '\n'}

  /** The strongest property's text: `!`, CR and LF removed, `$` made a line break. */
  function CleanStrongest(s: string): string {
    ReplaceChar(RemoveChars(s, Dropped), '$', CRLF)
  }

  /** The result text: as the strongest property's, and a line break after every comma. */
  function CleanResult(s: string): string {
    ReplaceChar(ReplaceChar(RemoveChars(s, Dropped), ',', "," + CRLF), '$', CRLF)
  }

  /** The strongest property as the result stores it: every ` or ` on a line of its own. */
  function StrongestText(ssp: string): string {
    ReplaceAll(ssp, " or ", CRLF + " or " + CRLF)
  }

  method ReadRedlogOutput(start: Readiness, lines: seq<string>) returns (r: ReadOutcome)
    ensures r == ReadOutput(start, lines)
  {
    if start != Ready {
      return NoPair;
    }
    var ssp, vr := "", "";
    var i := 0;
    while i < |lines|
      invariant i <= |lines|
      invariant ScanFrom(Initial, lines[..i]) == Scan(Outside, ssp, vr)
    {
      var line := lines[i];
      ScanStep(lines, i);
      i := i + 1;
      if Contains(line, EndOfFile) || Contains(line, Quitting) {
        StoppedRest(lines, i);
        return Pair(CleanStrongest(ssp), CleanResult(vr));
      } else if StartsWith(line, BeginStrongest) || StartsWith(line, BeginResult) {
        var band := if StartsWith(line, BeginStrongest) then StrongestBand else ResultBand;
        i, ssp, vr := ReadBand(lines, i, band, ssp, vr);
        if i == |lines| {
          assert lines[..i] == lines;
          return NullLine;
        }
        ScanStep(lines, i);
        i := i + 1;
      } else if StartsWith(line, TimePrefix) {
        vr := vr + line;
      }
    }
    assert lines[..i] == lines;
    return Spins;
  }

  /**
   * The inner loop of a band: from the line after its begin sentinel up to
   * its end sentinel, or to the end of the output.
   */
  method ReadBand(lines: seq<string>, i0: nat, band: Band, ssp0: string, vr0: string)
    returns (i: nat, ssp: string, vr: string)
    requires i0 <= |lines| && (band == StrongestBand || band == ResultBand)
    requires ScanFrom(Initial, lines[..i0]) == Scan(band, ssp0, vr0)
    ensures i0 <= i <= |lines| && ScanFrom(Initial, lines[..i]) == Scan(band, ssp, vr)
    ensures i < |lines| ==> StartsWith(lines[i], EndPrinting)
  {
    i, ssp, vr := i0, ssp0, vr0;
    while i < |lines| && !StartsWith(lines[i], EndPrinting)
      invariant i0 <= i <= |lines|
      invariant ScanFrom(Initial, lines[..i]) == Scan(band, ssp, vr)
    {
      ScanStep(lines, i);
      if !Contains(lines[i], ":") {
        if band == StrongestBand {
          ssp := ssp + lines[i];
        } else {
          vr := vr + lines[i];
        }
      }
      i := i + 1;
    }
  }

  lemma ScanStep(lines: seq<string>, i: nat)
    requires i < |lines|
    ensures ScanFrom(Initial, lines[..i + 1]) == ScanLine(ScanFrom(Initial, lines[..i]), lines[i])
  {
    assert lines[..i + 1][..i] == lines[..i];
  }

  lemma {:induction false} ScanAppend(s: Scan, a: seq<string>, b: seq<string>)
    ensures ScanFrom(s, a + b) == ScanFrom(ScanFrom(s, a), b)
    decreases |b|
  {
    if b == [] {
      assert a + b == a;
    } else {
      assert (a + b)[..|a + b| - 1] == a + b[..|b| - 1];
      ScanAppend(s, a, b[..|b| - 1]);
    }
  }

  /** Nothing after the end marker is read. */
  lemma {:induction false} StoppedFinal(s: Scan, lines: seq<string>)
    requires s.band == Stopped
    ensures ScanFrom(s, lines) == s
  {
    if lines != [] {
      StoppedFinal(s, lines[..|lines| - 1]);
    }
  }

  lemma StoppedRest(lines: seq<string>, i: nat)
    requires i <= |lines| && ScanFrom(Initial, lines[..i]).band == Stopped
    ensures ScanFrom(Initial, lines) == ScanFrom(Initial, lines[..i])
  {
    assert lines == lines[..i] + lines[i..];
    ScanAppend(Initial, lines[..i], lines[i..]);
    StoppedFinal(ScanFrom(Initial, lines[..i]), lines[i..]);
  }

  // ---------------------------------------------------------------------
  // What the scan reads

  /** The lines of a band that join its text: those without a colon. */
  function WithoutColon(lines: seq<string>): seq<string> {
    if lines == [] then []
    else
      var last := lines[|lines| - 1];
      WithoutColon(lines[..|lines| - 1]) + (if Contains(last, ":") then [] else [last])
  }

  /** A line outside the bands that the scan passes over. */
  predicate Noise(line: string) {
    && !Contains(line, EndOfFile) && !Contains(line, Quitting)
    && !StartsWith(line, BeginStrongest) && !StartsWith(line, BeginResult) && !StartsWith(line, TimePrefix)
  }

  /** A line starting with `sentinel` that is not an end marker. */
  predicate Opens(line: string, sentinel: string) {
    StartsWith(line, sentinel) && !Contains(line, EndOfFile) && !Contains(line, Quitting)
  }

  lemma {:induction false} NoiseIgnored(s: Scan, ls: seq<string>)
    requires s.band == Outside
    requires forall j :: 0 <= j < |ls| ==> Noise(ls[j])
    ensures ScanFrom(s, ls) == s
  {
    if ls != [] {
      NoiseIgnored(s, ls[..|ls| - 1]);
    }
  }

  /** Inside a band, every line up to the end sentinel joins the band's text when it has no colon. */
  lemma {:induction false} BandLines(s: Scan, band: seq<string>)
    requires s.band == StrongestBand || s.band == ResultBand
    requires forall j :: 0 <= j < |band| ==> !StartsWith(band[j], EndPrinting)
    ensures ScanFrom(s, band) ==
      if s.band == StrongestBand then s.(ssp := s.ssp + Concat(WithoutColon(band)))
      else s.(vr := s.vr + Concat(WithoutColon(band)))
  {
    if band != [] {
      var front, last := band[..|band| - 1], band[|band| - 1];
      BandLines(s, front);
      if !Contains(last, ":") {
        ConcatSnoc(WithoutColon(front), last);
      } else {
        assert WithoutColon(front) + [] == WithoutColon(front);
        assert !StartsWith(last, EndPrinting);
      }
    } else {
      assert s.ssp + Concat([]) == s.ssp && s.vr + Concat([]) == s.vr;
    }
  }

  /** The two begin sentinels differ in their 25th character. */
  lemma SentinelsDiffer(line: string)
    requires StartsWith(line, BeginResult)
    ensures !StartsWith(line, BeginStrongest)
  {
    assert line[24] == BeginResult[24] == 'p';
    assert BeginStrongest[24] == 's';
  }

  /**
   * A band from its begin sentinel to the next end sentinel adds exactly
   * the band's lines without a colon to the band's text.
   */
  lemma StrongestBandRead(s: Scan, begin: string, band: seq<string>, end: string)
    requires s.band == Outside && Opens(begin, BeginStrongest) && StartsWith(end, EndPrinting)
    requires forall j :: 0 <= j < |band| ==> !StartsWith(band[j], EndPrinting)
    ensures ScanFrom(s, [begin] + band + [end]) == s.(ssp := s.ssp + Concat(WithoutColon(band)))
  {
    var inBand := s.(band := StrongestBand);
    assert ScanFrom(s, [begin]) == inBand by {
      assert [begin][..0] == [];
    }
    ScanAppend(s, [begin], band);
    BandLines(inBand, band);
    ScanAppend(s, [begin] + band, [end]);
    assert ScanFrom(ScanFrom(s, [begin] + band), [end]) == ScanLine(ScanFrom(s, [begin] + band), end) by {
      assert [end][..0] == [];
    }
  }

  lemma ResultBandRead(s: Scan, begin: string, band: seq<string>, end: string)
    requires s.band == Outside && Opens(begin, BeginResult) && StartsWith(end, EndPrinting)
    requires forall j :: 0 <= j < |band| ==> !StartsWith(band[j], EndPrinting)
    ensures ScanFrom(s, [begin] + band + [end]) == s.(vr := s.vr + Concat(WithoutColon(band)))
  {
    SentinelsDiffer(begin);
    var inBand := s.(band := ResultBand);
    assert ScanFrom(s, [begin]) == inBand by {
      assert [begin][..0] == [];
    }
    ScanAppend(s, [begin], band);
    BandLines(inBand, band);
    ScanAppend(s, [begin] + band, [end]);
    assert ScanFrom(ScanFrom(s, [begin] + band), [end]) == ScanLine(ScanFrom(s, [begin] + band), end) by {
      assert [end][..0] == [];
    }
  }

  /** A time line outside the bands joins the result text. */
  lemma TimeLineRead(s: Scan, time: string)
    requires s.band == Outside && Opens(time, TimePrefix)
    ensures ScanFrom(s, [time]) == s.(vr := s.vr + time)
  {
    assert [time][..0] == [];
    assert time[0] == 'T';
    assert BeginStrongest[0] == '/' && BeginResult[0] == '/';
  }

  /** At the end marker the pair is returned, whatever follows. */
  lemma StopRead(s: Scan, stop: string, rest: seq<string>)
    requires s.band == Outside && (Contains(stop, EndOfFile) || Contains(stop, Quitting))
    ensures ScanFrom(s, [stop] + rest) == s.(band := Stopped)
  {
    assert ScanFrom(s, [stop]) == s.(band := Stopped) by {
      assert [stop][..0] == [];
    }
    ScanAppend(s, [stop], rest);
    StoppedFinal(s.(band := Stopped), rest);
  }

  /**
   * The output of the script `toString` writes: noise, the strongest
   * property's band, noise, the verification band, noise, the time line,
   * noise and the end marker, then anything. The pair holds the bands'
   * colon-free lines, the time line after the verification result.
   */
  lemma ScriptOutputRead(a: seq<string>, b0: string, band0: seq<string>, e0: string,
                         c: seq<string>, b1: string, band1: seq<string>, e1: string,
                         d: seq<string>, time: string, f: seq<string>, stop: string, rest: seq<string>)
    requires forall j :: 0 <= j < |a| ==> Noise(a[j])
    requires forall j :: 0 <= j < |c| ==> Noise(c[j])
    requires forall j :: 0 <= j < |d| ==> Noise(d[j])
    requires forall j :: 0 <= j < |f| ==> Noise(f[j])
    requires Opens(b0, BeginStrongest) && Opens(b1, BeginResult) && Opens(time, TimePrefix)
    requires StartsWith(e0, EndPrinting) && StartsWith(e1, EndPrinting)
    requires forall j :: 0 <= j < |band0| ==> !StartsWith(band0[j], EndPrinting)
    requires forall j :: 0 <= j < |band1| ==> !StartsWith(band1[j], EndPrinting)
    requires Contains(stop, EndOfFile) || Contains(stop, Quitting)
    ensures ReadOutput(Ready, a + ([b0] + band0 + [e0]) + c + ([b1] + band1 + [e1]) + d + [time] + f + ([stop] + rest))
      == Pair(CleanStrongest(Concat(WithoutColon(band0))), CleanResult(Concat(WithoutColon(band1)) + time))
  {
    var ssp, vr := Concat(WithoutColon(band0)), Concat(WithoutColon(band1));
    var p0, p1 := [b0] + band0 + [e0], [b1] + band1 + [e1];
    NoiseIgnored(Initial, a);
    StrongestBandRead(Initial, b0, band0, e0);
    var s1 := Scan(Outside, ssp, "");
    assert ScanFrom(Initial, a + p0) == s1 by {
      ScanAppend(Initial, a, p0);
    }
    NoiseIgnored(s1, c);
    ResultBandRead(s1, b1, band1, e1);
    var s2 := Scan(Outside, ssp, vr);
    assert ScanFrom(Initial, a + p0 + c + p1) == s2 by {
      ScanAppend(Initial, a + p0, c);
      ScanAppend(Initial, a + p0 + c, p1);
    }
    NoiseIgnored(s2, d);
    TimeLineRead(s2, time);
    var s3 := Scan(Outside, ssp, vr + time);
    assert ScanFrom(Initial, a + p0 + c + p1 + d + [time]) == s3 by {
      ScanAppend(Initial, a + p0 + c + p1, d);
      ScanAppend(Initial, a + p0 + c + p1 + d, [time]);
    }
    NoiseIgnored(s3, f);
    StopRead(s3, stop, rest);
    assert ScanFrom(Initial, a + p0 + c + p1 + d + [time] + f + ([stop] + rest)) == s3.(band := Stopped) by {
      ScanAppend(Initial, a + p0 + c + p1 + d + [time], f);
      ScanAppend(Initial, a + p0 + c + p1 + d + [time] + f, [stop] + rest);
    }
  }

  // ---------------------------------------------------------------------
  // The clean-up of the two texts

  /**
   * The cleaned strongest property has no `!` and no `$`, one line break
   * for every `$` of the raw text, and otherwise the raw text's characters
   * less `!`, CR, LF and `$`.
   */
  lemma CleanStrongestMeaning(s: string)
    ensures var r := CleanStrongest(s);
      && '!' !in r && '$' !in r
      && Count(r, '\r') == Count(s, '$') && Count(r, '\n') == Count(s, '$')
      && RemoveChars(r, {'\r', '\n'}) == RemoveChars(s, {'!', '\r', '\n', '$'})
  {
    var t := RemoveChars(s, Dropped);
    assert '!' !in t && '\r' !in t && '\n' !in t;
    ReplaceCharKeepsOut(t, '$', CRLF, '!');
    ReplaceCharRemoves(t, '$', CRLF);
    LineBreaks(t, '$', CRLF);
    CountRemoveOthers(s, Dropped, '$');
    Unbroken(s);
  }

  /**
   * The cleaned result text has no `!` and no `$`, one line break for
   * every comma and every `$` of the raw text, and otherwise the raw
   * text's characters less `!`, CR, LF and `$`.
   */
  lemma CleanResultMeaning(s: string)
    ensures var r := CleanResult(s);
      && '!' !in r && '$' !in r
      && Count(r, '\r') == Count(s, ',') + Count(s, '$') && Count(r, '\n') == Count(s, ',') + Count(s, '$')
      && RemoveChars(r, {'\r', '\n'}) == RemoveChars(s, {'!', '\r', '\n', '$'})
  {
    var t := RemoveChars(s, Dropped);
    var u := ReplaceChar(t, ',', "," + CRLF);
    assert '!' !in t && '\r' !in t && '\n' !in t;
    ReplaceCharKeepsOut(t, ',', "," + CRLF, '!');
    ReplaceCharKeepsOut(u, '$', CRLF, '!');
    ReplaceCharRemoves(u, '$', CRLF);
    ResultBreaks(s);
    ResultUnbroken(s);
  }

  lemma ResultBreaks(s: string)
    ensures var r := CleanResult(s);
      Count(r, '\r') == Count(s, ',') + Count(s, '$') && Count(r, '\n') == Count(s, ',') + Count(s, '$')
  {
    var t := RemoveChars(s, Dropped);
    var u := ReplaceChar(t, ',', "," + CRLF);
    assert '\r' !in t && '\n' !in t;
    LineBreaks(t, ',', "," + CRLF);
    CountReplaceChar(t, ',', "," + CRLF, '$');
    assert Count("," + CRLF, '$') == 0;
    CountReplaceChar(u, '$', CRLF, '\r');
    CountReplaceChar(u, '$', CRLF, '\n');
    CountRemoveOthers(s, Dropped, '$');
    CountRemoveOthers(s, Dropped, ',');
  }

  lemma ResultUnbroken(s: string)
    ensures RemoveChars(CleanResult(s), {'\r', '\n'}) == RemoveChars(s, {'!', '\r', '\n', '$'})
  {
    var t := RemoveChars(s, Dropped);
    var u := ReplaceChar(t, ',', "," + CRLF);
    assert '\r' !in t && '\n' !in t;
    RemoveCharsReplace(u, '$', CRLF, {'\r', '\n'});
    assert RemoveChars(CRLF, {'\r', '\n'}) == "";
    RemoveCharsReplace(t, ',', "," + CRLF, {'\r', '\n'});
    assert RemoveChars("," + CRLF, {'\r', '\n'}) == ",";
    NoBreaks(t);
    ReplaceCharBySelf(t, ',');
    ReplaceCharByNothing(t, '$');
    RemoveCharsTwice(s, Dropped, {'$'});
    assert Dropped + {'$'} == {'!', '\r', '\n', '$'};
  }

  /** The line breaks after one replacement by a text holding one CR LF, in a text without either. */
  lemma LineBreaks(t: string, c: char, rep: string)
    requires '\r' !in t && '\n' !in t && c != '\r' && c != '\n'
    requires Count(rep, '\r') == 1 && Count(rep, '\n') == 1
    ensures Count(ReplaceChar(t, c, rep), '\r') == Count(t, c) && Count(ReplaceChar(t, c, rep), '\n') == Count(t, c)
  {
    CountAbsent(t, '\r');
    CountAbsent(t, '\n');
    CountReplaceChar(t, c, rep, '\r');
    CountReplaceChar(t, c, rep, '\n');
  }

  lemma NoBreaks(t: string)
    requires '\r' !in t && '\n' !in t
    ensures RemoveChars(t, {'\r', '\n'}) == t
  {
    RemoveCharsAbsent(t, {'\r', '\n'});
  }

  lemma {:induction false} RemoveCharsAbsent(t: string, cs: set<char>)
    requires forall i :: 0 <= i < |t| ==> t[i] !in cs
    ensures RemoveChars(t, cs) == t
  {
    if t != [] {
      RemoveCharsAbsent(t[1..], cs);
      assert t == [t[0]] + t[1..];
    }
  }

  /** Removing the line breaks from the cleaned strongest property. */
  lemma Unbroken(s: string)
    ensures RemoveChars(CleanStrongest(s), {'\r', '\n'}) == RemoveChars(s, {'!', '\r', '\n', '$'})
  {
    var t := RemoveChars(s, Dropped);
    RemoveCharsReplace(t, '$', CRLF, {'\r', '\n'});
    assert RemoveChars(CRLF, {'\r', '\n'}) == "";
    assert '\r' !in t && '\n' !in t;
    NoBreaks(t);
    ReplaceCharByNothing(t, '$');
    RemoveCharsTwice(s, Dropped, {'$'});
    assert Dropped + {'$'} == {'!', '\r', '\n', '$'};
  }

  // ---------------------------------------------------------------------
  // The counterexample in the result text

  const Stripped: set<char> := {',', '{', '}'}

  /** What one line of the result text says: nothing, a value for a name, or an `=` without both sides. */
  datatype Assignment = NoAssignment | Assigns(name: string, value: string) | Broken

  function AssignmentOf(line: string): Assignment {
    if !Contains(line, "=") then NoAssignment
    else
      var segments := Split(RemoveChars(line, Stripped), "=");
      if |segments| < 2 then Broken else Assigns(Trim(segments[0]), Trim(segments[1]))
  }

  /** The position of the signal called `name`, if there is one. */
  function SignalIndex(signals: seq<Signal>, name: string): (r: Option<nat>)
    ensures r.Some? ==> r.value < |signals| && signals[r.value].name == name
    ensures r.None? ==> forall j :: 0 <= j < |signals| ==> signals[j].name != name
  {
    if signals == [] then None
    else if signals[0].name == name then Some(0)
    else
      match SignalIndex(signals[1..], name)
      case None => None
      case Some(j) => Some(j + 1)
  }

  /** `getOrCreateSignal(name).putValue(0, value)`: a new signal goes after the existing ones. */
  function PutValue(signals: seq<Signal>, name: string, value: string): seq<Signal> {
    match SignalIndex(signals, name)
    case None => signals + [Signal(name, map[0 := value])]
    case Some(j) => signals[j := Signal(name, signals[j].values[0 := value])]
  }

  /** The extraction loop over the lines, up to the first line that throws. */
  function ExtractLines(lines: seq<string>): (r: Result<seq<Signal>, Cause>)
    ensures r.Err? ==> r.error.MissingValue? && r.error.line in lines && AssignmentOf(r.error.line) == Broken
  {
    if lines == [] then Ok([])
    else
      var last := lines[|lines| - 1];
      match ExtractLines(lines[..|lines| - 1])
      case Err(c) => Err(c)
      case Ok(signals) =>
        match AssignmentOf(last)
        case NoAssignment => Ok(signals)
        case Broken => Err(MissingValue(last))
        case Assigns(name, value) => Ok(PutValue(signals, name, value))
  }

  /** The one-step counterexample the result text describes, one CRLF-separated line at a time. */
  function CounterexampleFrom(text: string): Result<Counterexample, Cause> {
    match ExtractLines(Split(text, CRLF))
    case Err(c) => Err(c)
    case Ok(signals) => Ok(Counterexample(1, signals))
  }

  /** An independent reading of the lines: the last value each name is given. */
  function Assigned(lines: seq<string>): Result<map<string, string>, Cause> {
    if lines == [] then Ok(map[])
    else
      var last := lines[|lines| - 1];
      match Assigned(lines[..|lines| - 1])
      case Err(c) => Err(c)
      case Ok(m) =>
        match AssignmentOf(last)
        case NoAssignment => Ok(m)
        case Broken => Err(MissingValue(last))
        case Assigns(name, value) => Ok(m[name := value])
  }

  /** One signal per name of `m`, in some order, each holding exactly its value at step 0. */
  predicate Tabulates(signals: seq<Signal>, m: map<string, string>) {
    ValuesFrom(signals, m) && Covers(signals, m) && DistinctNames(signals)
  }

  predicate ValuesFrom(signals: seq<Signal>, m: map<string, string>) {
    forall j :: 0 <= j < |signals| ==> signals[j].name in m && signals[j].values == map[0 := m[signals[j].name]]
  }

  predicate Covers(signals: seq<Signal>, m: map<string, string>) {
    forall name :: name in m ==> exists j :: 0 <= j < |signals| && signals[j].name == name
  }

  predicate DistinctNames(signals: seq<Signal>) {
    forall a, b :: 0 <= a < b < |signals| ==> signals[a].name != signals[b].name
  }

  /** Two signal sequences with the same names, position by position. */
  predicate SameNames(signals: seq<Signal>, r: seq<Signal>) {
    |r| == |signals| && forall j :: 0 <= j < |r| ==> r[j].name == signals[j].name
  }

  lemma SameNamesDistinct(signals: seq<Signal>, r: seq<Signal>)
    requires DistinctNames(signals) && SameNames(signals, r)
    ensures DistinctNames(r)
  {
  }

  lemma SameNamesCover(signals: seq<Signal>, r: seq<Signal>, m: map<string, string>, k: nat, value: string)
    requires Covers(signals, m) && SameNames(signals, r) && k < |signals|
    ensures Covers(r, m[signals[k].name := value])
  {
    var m' := m[signals[k].name := value];
    forall n | n in m'
      ensures exists j :: 0 <= j < |r| && r[j].name == n
    {
      if n == signals[k].name {
        assert r[k].name == n;
      } else {
        var j :| 0 <= j < |signals| && signals[j].name == n;
        assert r[j].name == n;
      }
    }
  }

  lemma PutTabulates(signals: seq<Signal>, m: map<string, string>, name: string, value: string)
    requires Tabulates(signals, m)
    ensures Tabulates(PutValue(signals, name, value), m[name := value])
  {
    match SignalIndex(signals, name)
    case None => PutNewTabulates(signals, m, name, value);
    case Some(k) => PutExistingTabulates(signals, m, name, value, k);
  }

  lemma PutNewTabulates(signals: seq<Signal>, m: map<string, string>, name: string, value: string)
    requires Tabulates(signals, m) && SignalIndex(signals, name).None?
    ensures Tabulates(signals + [Signal(name, map[0 := value])], m[name := value])
  {
    var r, m' := signals + [Signal(name, map[0 := value])], m[name := value];
    assert r[|signals|].name == name;
    forall n | n in m'
      ensures exists j :: 0 <= j < |r| && r[j].name == n
    {
      if n != name {
        var j :| 0 <= j < |signals| && signals[j].name == n;
        assert r[j].name == n;
      }
    }
  }

  lemma PutExistingTabulates(signals: seq<Signal>, m: map<string, string>, name: string, value: string, k: nat)
    requires Tabulates(signals, m) && SignalIndex(signals, name) == Some(k)
    ensures Tabulates(signals[k := Signal(name, signals[k].values[0 := value])], m[name := value])
  {
    var r := signals[k := Signal(name, signals[k].values[0 := value])];
    assert SameNames(signals, r);
    SameNamesDistinct(signals, r);
    SameNamesCover(signals, r, m, k, value);
    ExistingValues(signals, m, value, k);
  }

  lemma ExistingValues(signals: seq<Signal>, m: map<string, string>, value: string, k: nat)
    requires ValuesFrom(signals, m) && DistinctNames(signals) && k < |signals|
    ensures var name := signals[k].name;
      ValuesFrom(signals[k := Signal(name, signals[k].values[0 := value])], m[name := value])
  {
    var name := signals[k].name;
    var r, m' := signals[k := Signal(name, signals[k].values[0 := value])], m[name := value];
    forall j | 0 <= j < |r|
      ensures r[j].name in m' && r[j].values == map[0 := m'[r[j].name]]
    {
      if j == k {
        assert signals[k].values == map[0 := m[name]];
      } else {
        assert signals[j].name != name;
      }
    }
  }

  /**
   * Extraction fails exactly where the reference reading fails, at the
   * first `=` line without both sides; otherwise it yields one signal per
   * name, carrying the value of the last line that names it, at step 0.
   */
  lemma {:induction false} ExtractAssigned(lines: seq<string>)
    ensures ExtractLines(lines).Err? <==> Assigned(lines).Err?
    ensures ExtractLines(lines).Err? ==> ExtractLines(lines).error == Assigned(lines).error
    ensures ExtractLines(lines).Ok? ==> Tabulates(ExtractLines(lines).value, Assigned(lines).value)
  {
    if lines != [] {
      var front, last := lines[..|lines| - 1], lines[|lines| - 1];
      ExtractAssigned(front);
      if ExtractLines(front).Ok? {
        var a := AssignmentOf(last);
        if a.Assigns? {
          PutTabulates(ExtractLines(front).value, Assigned(front).value, a.name, a.value);
        }
      }
    }
  }

  lemma {:induction false} ExtractFailFinal(lines: seq<string>, k: nat)
    requires k <= |lines| && ExtractLines(lines[..k]).Err?
    ensures ExtractLines(lines) == ExtractLines(lines[..k])
    decreases |lines| - k
  {
    if k < |lines| {
      assert lines[..k + 1][..k] == lines[..k];
      ExtractFailFinal(lines, k + 1);
    } else {
      assert lines[..k] == lines;
    }
  }

  /** The parse thread reads an extracted counterexample back unchanged: every value sits at step 0. */
  lemma ExtractedReadBack(signals: seq<Signal>, m: map<string, string>)
    requires Tabulates(signals, m)
    ensures ReadSignals(1, signals) == signals
  {
    forall j | 0 <= j < |signals|
      ensures ReadSignals(1, signals)[j] == signals[j]
    {
      assert Restrict(signals[j].values, 1) == signals[j].values;
    }
  }

  method ExtractCounterexample(text: string) returns (r: Result<Counterexample, Cause>)
    ensures r == CounterexampleFrom(text)
  {
    var lines := Split(text, CRLF);
    var signals: seq<Signal> := [];
    for k := 0 to |lines|
      invariant ExtractLines(lines[..k]) == Ok(signals)
    {
      assert lines[..k + 1][..k] == lines[..k];
      var line := lines[k];
      if Contains(line, "=") {
        var segments := Split(RemoveChars(line, Stripped), "=");
        if |segments| < 2 {
          ExtractFailFinal(lines, k + 1);
          return Err(MissingValue(line));
        }
        signals := PutValue(signals, Trim(segments[0]), Trim(segments[1]));
      }
    }
    assert lines[..|lines|] == lines;
    return Ok(Counterexample(1, signals));
  }

  // ---------------------------------------------------------------------
  // The XML result file

  /** The runtime field: the text from "Time: " on, without "Time:" and "ms", trimmed. */
  function RuntimeField(runtimeLine: string): string {
    Trim(ReplaceAll(ReplaceAll(runtimeLine, "Time:", ""), "ms", ""))
  }

  /**
   * The runtime the writer prints, or why there is none. `seconds` stands
   * for Double.parseDouble, the division by 1000 and the printing of the
   * double, none of which is modelled.
   */
  function RuntimeSeconds(text: string, seconds: string -> Option<string>): Result<string, Cause> {
    match IndexOf(text, TimePrefix)
    case None => Err(NoTime)
    case Some(i) =>
      var field := RuntimeField(text[i..]);
      match seconds(field)
      case None => Err(BadRuntime(field))
      case Some(runtime) => Ok(runtime)
  }

  /** Which `write` call the result text selects. */
  datatype Choice = ChooseValid | ChooseUnknown | ChooseInvalid

  function ChoiceOf(text: string): Choice {
    var t := RemoveChars(text, {'{'});
    if StartsWith(t, "true") then ChooseValid
    else if StartsWith(t, Unknown) then ChooseUnknown
    else ChooseInvalid
  }

  /** The block the result text selects for `prop`, or the throwable extraction raises. */
  function VerdictOf(prop: string, text: string, runtime: string): Result<seq<string>, Cause> {
    match ChoiceOf(text)
    case ChooseValid => Ok(ValidBlock(prop, runtime))
    case ChooseUnknown => Ok(UnknownBlock(prop, runtime))
    case ChooseInvalid =>
      match CounterexampleFrom(text)
      case Err(c) => Err(c)
      case Ok(cex) => Ok(InvalidBlock(prop, cex, runtime))
  }

  /** The block `writeXmlFile` writes for the first property, or the throwable that stops it. */
  function PropertyLines(names: seq<string>, text: string, seconds: string -> Option<string>): (r: Result<seq<string>, Cause>)
    ensures r.Err? ==> r.error == NoPropertyResult || r.error == NoTime || r.error.BadRuntime? || r.error.MissingValue?
    ensures r.Ok? ==> names != [] && RuntimeSeconds(text, seconds).Ok?
  {
    if names == [] then Err(NoPropertyResult)
    else
      match RuntimeSeconds(text, seconds)
      case Err(c) => Err(c)
      case Ok(runtime) => VerdictOf(names[0], text, runtime)
  }

  /** The whole XML file: the declaration and root lines, the property's block, the closing line. */
  function XmlFile(names: seq<string>, text: string, seconds: string -> Option<string>): Result<seq<string>, Cause> {
    match PropertyLines(names, text, seconds)
    case Err(c) => Err(c)
    case Ok(block) => Ok(BeginLines() + block + EndLines())
  }

  method WriteVerdict(writer: XmlWriter, prop: string, text: string, runtime: string) returns (r: Result<seq<string>, Cause>)
    modifies writer`out
    ensures r == VerdictOf(prop, text, runtime)
    ensures r.Ok? ==> writer.out == old(writer.out) + r.value
  {
    var choice := ChoiceOf(text);
    if choice == ChooseValid {
      writer.WriteValid(prop, runtime);
      return Ok(ValidBlock(prop, runtime));
    } else if choice == ChooseUnknown {
      writer.WriteUnknown(prop, runtime);
      return Ok(UnknownBlock(prop, runtime));
    }
    var cex := ExtractCounterexample(text);
    if cex.Err? {
      return Err(cex.error);
    }
    writer.WriteInvalid(prop, cex.value, runtime);
    return Ok(InvalidBlock(prop, cex.value, runtime));
  }

  method WriteProperty(writer: XmlWriter, names: seq<string>, text: string, seconds: string -> Option<string>)
    returns (r: Result<seq<string>, Cause>)
    modifies writer`out
    ensures r == PropertyLines(names, text, seconds)
    ensures r.Ok? ==> writer.out == old(writer.out) + r.value
  {
    if names == [] {
      return Err(NoPropertyResult);
    }
    var runtime := RuntimeSeconds(text, seconds);
    if runtime.Err? {
      return Err(runtime.error);
    }
    r := WriteVerdict(writer, names[0], text, runtime.value);
  }

  method WriteXmlFile(names: seq<string>, text: string, seconds: string -> Option<string>)
    returns (r: Result<seq<string>, Cause>)
    ensures r == XmlFile(names, text, seconds)
  {
    var writer := new XmlWriter();
    writer.Begin();
    var block := WriteProperty(writer, names, text, seconds);
    if block.Err? {
      return Err(block.error);
    }
    writer.End();
    assert writer.out == BeginLines() + block.value + EndLines();
    return Ok(writer.out);
  }

  // ---------------------------------------------------------------------
  // One run of `execute`

  /**
   * What one run meets outside the model: the script file's path, whether
   * a stale XML file cannot be removed, whether the process starts, what
   * `readRedlogOutput`'s outer loop sees first, the printed lines, whether
   * the monitor is cancelled after the output is read, and the exit code.
   */
  datatype Env = Env(
    redlogFile: string,
    staleXml: bool,
    launches: bool,
    start: Readiness,
    output: seq<string>,
    laterCancel: bool,
    code: int)

  /** The monitor's answer in `callRedlog`'s `finally` block. */
  predicate IsCanceled(env: Env) {
    env.start == CanceledFirst || env.laterCancel
  }

  function GetXmlFile(redlogFile: string): string {
    redlogFile + ".xml"
  }

  /** The result's state after a call, and how the call ends. */
  datatype Run<+F> = Run(result: Snapshot, outcome: Outcome<F>)

  /**
   * The `finally` block and what follows it: the result is cancelled or
   * done, a nonzero exit code of an uncancelled run replaces any pending
   * throwable, and otherwise the parse thread's throwable is raised.
   */
  function Finish(env: Env, r: Snapshot, code: int, pending: Option<Cause>, parsing: Option<ParseFailure>): (run: Run<Cause>)
    ensures run.result == r.(progress := run.result.progress)
    ensures run.result.progress == Canceled <==> IsCanceled(env)
    ensures run.result.progress == Completed <==> !IsCanceled(env)
    ensures run.outcome == Returned <==> (code == 0 || IsCanceled(env)) && pending.None? && parsing.None?
    ensures run.outcome != Hangs
  {
    var canceled := IsCanceled(env);
    var finished := r.(progress := if canceled then Canceled else Completed);
    if code != 0 && !canceled then Run(finished, Threw(AbnormalTermination(code, r.text)))
    else if pending.Some? then Run(finished, Threw(pending.value))
    else if parsing.Some? then Run(finished, Threw(ErrorParsingXml(parsing.value)))
    else Run(finished, Returned)
  }

  /** The parse thread's pass over a written file, starting from the result's table. */
  function ParseRun(erased: set<string>, t: Table, file: seq<string>): RunState {
    RunLines(erased, RunState(None, t, None), file)
  }

  /** `callRedlog`: start, read the output, record it, write the XML file, parse it, finish. */
  function CallRun(env: Env, erased: set<string>, r: Snapshot, seconds: string -> Option<string>): Run<Cause> {
    var working := r.(progress := Working);
    if !env.launches then Finish(env, working, 0, Some(NoProcess), None)
    else
      match ReadOutput(env.start, env.output)
      case Spins => Run(working, Hangs)
      case NoPair => Finish(env, working, env.code, Some(NoOutput), None)
      case NullLine => Finish(env, working, env.code, Some(OutputEndsInBand), None)
      case Pair(ssp, vr) =>
        var read := working.(strongest := Some(StrongestText(ssp)), text := vr);
        match XmlFile(read.table.names, vr, seconds)
        case Err(c) => Finish(env, read, env.code, Some(c), None)
        case Ok(file) =>
          var st := ParseRun(erased, read.table, file);
          Finish(env, read.(table := st.table), env.code, None, st.failure)
  }

  /** `execute`: a stale XML file is refused as such; any other throwable is wrapped with the result text. */
  function ExecuteRun(env: Env, erased: set<string>, r: Snapshot, seconds: string -> Option<string>): Run<ApiFailure> {
    if env.staleXml then Run(r, Threw(RedlogException(ExistingXmlMessage + GetXmlFile(env.redlogFile))))
    else
      var run := CallRun(env, erased, r, seconds);
      match run.outcome
      case Returned => Run(run.result, Returned)
      case Hangs => Run(run.result, Hangs)
      case Threw(c) => Run(run.result, Threw(Wrapped(run.result.text, c)))
  }

  method FinishCall(env: Env, result: RedlogResult, code: int, pending: Option<Cause>, thread: XmlParseThread)
    returns (outcome: Outcome<Cause>)
    modifies result`progress
    ensures var run := Finish(env, old(result.State()), code, pending, thread.throwable);
      result.State() == run.result && outcome == run.outcome
  {
    if IsCanceled(env) {
      result.Cancel();
    } else {
      result.Done();
    }
    if code != 0 && !IsCanceled(env) {
      return Threw(AbnormalTermination(code, result.text));
    }
    if pending.Some? {
      return Threw(pending.value);
    }
    if thread.throwable.Some? {
      return Threw(ErrorParsingXml(thread.throwable.value));
    }
    return Returned;
  }

  method ReadAndWrite(env: Env, result: RedlogResult, seconds: string -> Option<string>, thread: XmlParseThread)
    returns (outcome: Outcome<Cause>)
    requires thread.result == result && thread.throwable == None && env.launches
    modifies thread`throwable, result`names, result`recorded, result`strongest, result`text, result`progress
    ensures var run := CallRun(env, result.erased, old(result.State()).(progress := Waiting), seconds);
      result.State() == run.result && outcome == run.outcome
  {
    ghost var r := old(result.State()).(progress := Waiting);
    result.Start();
    var pair := ReadRedlogOutput(env.start, env.output);
    if pair.Spins? {
      return Hangs;
    }
    var pending: Option<Cause> := None;
    if pair.NoPair? {
      pending := Some(NoOutput);
    } else if pair.NullLine? {
      pending := Some(OutputEndsInBand);
    } else {
      result.SetSystemStrongestProperty(StrongestText(pair.strongest));
      result.SetText(pair.result);
      var file := WriteXmlFile(result.names, result.text, seconds);
      if file.Err? {
        pending := Some(file.error);
      } else {
        thread.Run(file.value);
      }
    }
    outcome := FinishCall(env, result, env.code, pending, thread);
  }

  method CallRedlog(env: Env, result: RedlogResult, seconds: string -> Option<string>) returns (outcome: Outcome<Cause>)
    modifies result`names, result`recorded, result`strongest, result`text, result`progress
    ensures var run := CallRun(env, result.erased, old(result.State()), seconds);
      result.State() == run.result && outcome == run.outcome
  {
    var thread := new XmlParseThread(result);
    if !env.launches {
      result.Start();
      outcome := FinishCall(env, result, 0, Some(NoProcess), thread);
      return;
    }
    outcome := ReadAndWrite(env, result, seconds, thread);
  }

  method Execute(env: Env, result: RedlogResult, seconds: string -> Option<string>) returns (outcome: Outcome<ApiFailure>)
    modifies result`names, result`recorded, result`strongest, result`text, result`progress
    ensures var run := ExecuteRun(env, result.erased, old(result.State()), seconds);
      result.State() == run.result && outcome == run.outcome
  {
    var xmlFile := GetXmlFile(env.redlogFile);
    if env.staleXml {
      return Threw(RedlogException(ExistingXmlMessage + xmlFile));
    }
    var called := CallRedlog(env, result, seconds);
    match called
    case Returned => outcome := Returned;
    case Hangs => outcome := Hangs;
    case Threw(c) => outcome := Threw(Wrapped(result.text, c));
  }

  // ---------------------------------------------------------------------
  // What a run promises

  /** Only the stale XML file raises a bare `RedlogException`; every other throwable is wrapped with the final result text. */
  lemma ExceptionsWrapped(env: Env, erased: set<string>, r: Snapshot, seconds: string -> Option<string>)
    ensures var run := ExecuteRun(env, erased, r, seconds);
      && (env.staleXml ==> run.result == r && run.outcome == Threw(RedlogException(ExistingXmlMessage + (env.redlogFile + ".xml"))))
      && (run.outcome.Threw? && run.outcome.failure.RedlogException? ==> env.staleXml)
      && (run.outcome.Threw? && run.outcome.failure.Wrapped? ==> run.outcome.failure.text == run.result.text)
  {
  }

  /**
   * A run that comes back from `callRedlog` ends cancelled exactly when the
   * monitor is cancelled and completed otherwise; only a run that never
   * leaves the output loop stays working.
   */
  lemma FinalProgress(env: Env, erased: set<string>, r: Snapshot, seconds: string -> Option<string>)
    requires !env.staleXml
    ensures var run := ExecuteRun(env, erased, r, seconds);
      && (run.outcome != Hangs ==> (run.result.progress == Canceled <==> IsCanceled(env)))
      && (run.outcome != Hangs ==> (run.result.progress == Completed <==> !IsCanceled(env)))
      && (run.outcome == Hangs <==> env.launches && ReadOutput(env.start, env.output) == Spins)
      && (run.outcome == Hangs ==> run.result == r.(progress := Working))
  {
  }

  /** A nonzero exit code raises the abnormal-termination error exactly when the run is not cancelled. */
  lemma AbnormalExit(env: Env, erased: set<string>, r: Snapshot, seconds: string -> Option<string>)
    requires !env.staleXml && env.launches && ReadOutput(env.start, env.output) != Spins
    ensures var run := ExecuteRun(env, erased, r, seconds);
      (env.code != 0 && !IsCanceled(env)) <==>
        run.outcome == Threw(Wrapped(run.result.text, AbnormalTermination(env.code, run.result.text)))
  {
  }

  /** A monitor cancelled before any output is ready cancels the result, records nothing and reports the missing output. */
  lemma CanceledBeforeOutput(env: Env, erased: set<string>, r: Snapshot, seconds: string -> Option<string>)
    requires !env.staleXml && env.launches && env.start == CanceledFirst
    ensures ExecuteRun(env, erased, r, seconds) == Run(r.(progress := Canceled), Threw(Wrapped(r.text, NoOutput)))
  {
  }

  /**
   * The round trip of a valid verdict: the result text starting with
   * `true` is written as a valid block and read back by the parse thread,
   * which records the first property as valid with the printed runtime.
   */
  lemma ValidRoundTrip(env: Env, erased: set<string>, r: Snapshot, seconds: string -> Option<string>, ssp: string, vr: string, runtime: string)
    requires !env.staleXml && env.launches && ReadOutput(env.start, env.output) == Pair(ssp, vr)
    requires env.code == 0 || IsCanceled(env)
    requires r.table.names != [] && RuntimeSeconds(vr, seconds) == Ok(runtime)
    requires XmlText(r.table.names[0]) && XmlText(runtime)
    requires ChoiceOf(vr) == ChooseValid
    ensures var run := ExecuteRun(env, erased, r, seconds);
      && run.outcome == Returned
      && run.result.table == Record(r.table, erased, ValidProperty(r.table.names[0], Valid, RuntimeText(runtime)))
      && run.result.strongest == Some(StrongestText(ssp)) && run.result.text == vr
  {
    XmlTextPrintable(runtime);
    var v := Proved(r.table.names[0], runtime);
    assert VerdictsLines([v]) == ValidBlock(v.prop, runtime);
    WrittenFileRead(erased, r.table, [v]);
  }

  /**
   * The round trip of a falsified verdict: the counterexample extracted
   * from the result text is written and read back unchanged, as a
   * one-step counterexample of the first property.
   */
  lemma InvalidRoundTrip(env: Env, erased: set<string>, r: Snapshot, seconds: string -> Option<string>, ssp: string, vr: string, runtime: string, cex: Counterexample)
    requires !env.staleXml && env.launches && ReadOutput(env.start, env.output) == Pair(ssp, vr)
    requires env.code == 0 || IsCanceled(env)
    requires r.table.names != [] && RuntimeSeconds(vr, seconds) == Ok(runtime)
    requires XmlText(r.table.names[0]) && XmlText(runtime)
    requires ChoiceOf(vr) == ChooseInvalid && CounterexampleFrom(vr) == Ok(cex) && XmlCex(cex)
    ensures cex.length == 1
    ensures var run := ExecuteRun(env, erased, r, seconds);
      && run.outcome == Returned
      && run.result.table == Record(r.table, erased, InvalidProperty(r.table.names[0], Some(cex), RuntimeText(runtime)))
      && run.result.strongest == Some(StrongestText(ssp)) && run.result.text == vr
  {
    XmlTextPrintable(runtime);
    XmlCexPrintable(cex);
    var lines := Split(vr, CRLF);
    ExtractAssigned(lines);
    ExtractedReadBack(cex.signals, Assigned(lines).value);
    var v := Falsified(r.table.names[0], cex, runtime);
    assert VerdictsLines([v]) == InvalidBlock(v.prop, cex, runtime);
    assert Expected(v) == InvalidProperty(v.prop, Some(cex), RuntimeText(runtime));
    WrittenFileRead(erased, r.table, [v]);
  }

  /** The XML file written for an unknown verdict: the parse thread stops at its block and records nothing. */
  lemma UnknownFileFails(erased: set<string>, t: Table, prop: string, runtime: string)
    requires '<' !in runtime
    ensures var st := ParseRun(erased, t, BeginLines() + UnknownBlock(prop, runtime) + EndLines());
      st.failure == Some(UnknownAnswer(Unknown)) && st.table == t
  {
    var st := RunState(None, t, None);
    PlainDeclaration();
    PlainRootOpen();
    IdleLines(erased, st, BeginLines());
    RunLinesAppend(erased, st, BeginLines(), UnknownBlock(prop, runtime));
    UnknownBlockRun(erased, st, prop, runtime);
    var mid := RunLines(erased, st, BeginLines() + UnknownBlock(prop, runtime));
    RunLinesAppend(erased, st, BeginLines() + UnknownBlock(prop, runtime), EndLines());
    FailureFinal(erased, mid, EndLines());
  }

  /**
   * An unknown verdict never makes `execute` return: the writer emits the
   * `unknown` token that the parse thread refuses, so the run raises the
   * parse error, unless a nonzero exit code of an uncancelled run comes first.
   */
  lemma UnknownNeverReturns(env: Env, erased: set<string>, r: Snapshot, seconds: string -> Option<string>, ssp: string, vr: string, runtime: string)
    requires !env.staleXml && env.launches && ReadOutput(env.start, env.output) == Pair(ssp, vr)
    requires r.table.names != [] && RuntimeSeconds(vr, seconds) == Ok(runtime)
    requires XmlText(r.table.names[0]) && XmlText(runtime)
    requires ChoiceOf(vr) == ChooseUnknown
    ensures var run := ExecuteRun(env, erased, r, seconds);
      && run.outcome.Threw?
      && run.result.table == r.table
      && ((env.code == 0 || IsCanceled(env)) ==>
            run.outcome.failure == Wrapped(vr, ErrorParsingXml(UnknownAnswer(Unknown))))
  {
    XmlTextPrintable(runtime);
    UnknownFileFails(erased, r.table, r.table.names[0], runtime);
  }

  // ---------------------------------------------------------------------
  // Executing a program object

  /** What escapes `execute(RedlogProgram, …)`: the script's own exception, raised outside the `try`, or the driver's. */
  datatype Escape = ScriptError(scriptFailure: RedlogScript.Failure) | ApiError(apiFailure: ApiFailure)

  function Lift(o: Outcome<ApiFailure>): Outcome<Escape> {
    match o
    case Returned => Returned
    case Hangs => Hangs
    case Threw(f) => Threw(ApiError(f))
  }

  /** The run when `toString` yields `script`: a failing script leaves the result as it was. */
  function ProgramRun(script: Result<string, RedlogScript.Failure>, env: Env, erased: set<string>, r: Snapshot,
                      seconds: string -> Option<string>): Run<Escape>
  {
    match script
    case Err(f) => Run(r, Threw(ScriptError(f)))
    case Ok(_) =>
      var run := ExecuteRun(env, erased, r, seconds);
      Run(run.result, Lift(run.outcome))
  }

  /** The system contract `toString` may pick: none for an empty map, otherwise any of its values. */
  predicate Picks(program: RedlogScript.RedlogProgram, sys: Option<Ast.Contract>)
    reads program
  {
    if program.systemContracts == map[] then sys == None
    else sys.Some? && exists key :: key in program.systemContracts && program.systemContracts[key] == sys.value
  }

  method ExecuteProgram(program: RedlogScript.RedlogProgram, env: Env, result: RedlogResult, seconds: string -> Option<string>)
    returns (outcome: Outcome<Escape>)
    modifies result`names, result`recorded, result`strongest, result`text, result`progress
    ensures exists sys :: (Picks(program, sys) &&
      var run := ProgramRun(program.ScriptWith(sys), env, result.erased, old(result.State()), seconds);
      result.State() == run.result && outcome == run.outcome)
  {
    ghost var before := result.State();
    var script := program.ToString();
    ghost var sys: Option<Ast.Contract> := None;
    if program.systemContracts != map[] {
      var key :| key in program.systemContracts && script == program.ScriptWith(Some(program.systemContracts[key]));
      sys := Some(program.systemContracts[key]);
    }
    assert Picks(program, sys) && script == program.ScriptWith(sys);
    outcome := ExecuteScript(script, env, result, seconds);
    assert Picks(program, sys) &&
      var run := ProgramRun(program.ScriptWith(sys), env, result.erased, before, seconds);
      result.State() == run.result && outcome == run.outcome;
  }

  method ExecuteScript(script: Result<string, RedlogScript.Failure>, env: Env, result: RedlogResult, seconds: string -> Option<string>)
    returns (outcome: Outcome<Escape>)
    modifies result`names, result`recorded, result`strongest, result`text, result`progress
    ensures var run := ProgramRun(script, env, result.erased, old(result.State()), seconds);
      result.State() == run.result && outcome == run.outcome
  {
    if script.Err? {
      return Threw(ScriptError(script.error));
    }
    var o := Execute(env, result, seconds);
    outcome := Lift(o);
  }
}
