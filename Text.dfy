/**
 * The java.lang.String operations the core relies on, over `string`
 * (a sequence of UTF-16 code units, as in Java), with the lemmas the other
 * modules need about them.
 */
module Text {
  import opened Wrappers

  const CRLF: string := "\r\n"

  /** Largest value of a Java `int` (Integer.MAX_VALUE). */
  const IntMax: int := 0x7fff_ffff

  predicate StartsWith(s: string, p: string) {
    |p| <= |s| && s[..|p|] == p
  }

  predicate EndsWith(s: string, p: string) {
    |p| <= |s| && s[|s| - |p|..] == p
  }

  /** String.contains: some suffix of `s` starts with `sub`. */
  predicate Contains(s: string, sub: string)
    decreases |s|
  {
    StartsWith(s, sub) || (|s| > 0 && Contains(s[1..], sub))
  }

  lemma StartsWithContains(s: string, sub: string)
    requires StartsWith(s, sub)
    ensures Contains(s, sub)
  {
  }

  /** A prefix that cannot begin `sub` at any position can be skipped. */
  lemma {:induction false} SkipFree(a: string, rest: string, sub: string)
    requires sub != [] && sub[0] !in a
    ensures Contains(a + rest, sub) == Contains(rest, sub)
    decreases |a|
  {
    if a == [] {
      assert a + rest == rest;
    } else {
      var s := a + rest;
      assert s[0] == a[0];
      assert !StartsWith(s, sub) by {
        if |sub| <= |s| {
          assert s[..|sub|][0] == s[0];
        }
      }
      assert s[1..] == a[1..] + rest;
      SkipFree(a[1..], rest, sub);
      assert Contains(s, sub) == Contains(s[1..], sub);
    }
  }

  /** A first character at which `sub` cannot start, because `x` differs from it at index k. */
  lemma SkipHead(x: string, rest: string, sub: string, k: nat)
    requires 0 < k < |x| && k < |sub| && x[k] != sub[k]
    ensures Contains(x + rest, sub) == Contains(x[1..] + rest, sub)
  {
    var s := x + rest;
    assert s[k] == x[k];
    assert !StartsWith(s, sub) by {
      if |sub| <= |s| {
        assert s[..|sub|][k] == s[k];
      }
    }
    assert s[1..] == x[1..] + rest;
    assert Contains(s, sub) == Contains(s[1..], sub);
  }

  lemma {:induction false} ContainsAfter(a: string, s: string, sub: string)
    requires Contains(s, sub)
    ensures Contains(a + s, sub)
    decreases |a|
  {
    if a == [] {
      assert a + s == s;
    } else {
      assert (a + s)[1..] == a[1..] + s;
      ContainsAfter(a[1..], s, sub);
    }
  }

  lemma NothingInEmpty(sub: string)
    requires sub != []
    ensures !Contains("", sub)
  {
  }

  /** String.indexOf: the first position at which `sub` starts. */
  function IndexOf(s: string, sub: string): (r: Option<nat>)
    ensures r.Some? ==> r.value <= |s| && StartsWith(s[r.value..], sub)
    ensures r.Some? ==> forall k :: 0 <= k < r.value ==> !StartsWith(s[k..], sub)
    ensures r.None? <==> !Contains(s, sub)
    decreases |s|
  {
    if StartsWith(s, sub) then Some(0)
    else if s == [] then None
    else
      match IndexOf(s[1..], sub)
      case None => None
      case Some(i) =>
        assert forall k :: 1 <= k <= |s| ==> s[k..] == s[1..][k - 1..];
        Some(i + 1)
  }

  /** String.replace(target, replacement): every non-overlapping occurrence, left to right. */
  function ReplaceAll(s: string, pat: string, rep: string): string
    requires pat != []
    decreases |s|
  {
    if |s| < |pat| then s
    else if StartsWith(s, pat) then rep + ReplaceAll(s[|pat|..], pat, rep)
    else [s[0]] + ReplaceAll(s[1..], pat, rep)
  }

  /** String.replace for a one-character target. */
  function ReplaceChar(s: string, c: char, rep: string): string
  {
    if s == [] then ""
    else (if s[0] == c then rep else [s[0]]) + ReplaceChar(s[1..], c, rep)
  }

  lemma ReplaceCharAppend(a: string, b: string, c: char, rep: string)
    ensures ReplaceChar(a + b, c, rep) == ReplaceChar(a, c, rep) + ReplaceChar(b, c, rep)
  {
    if a == [] {
      assert a + b == b;
    } else {
      assert (a + b)[0] == a[0];
      assert (a + b)[1..] == a[1..] + b;
      ReplaceCharAppend(a[1..], b, c, rep);
    }
  }

  lemma {:induction false} ReplaceCharAbsent(s: string, c: char, rep: string)
    requires c !in s
    ensures ReplaceChar(s, c, rep) == s
  {
    if s != [] {
      assert s[0] != c;
      assert forall k :: 0 <= k < |s[1..]| ==> s[1..][k] == s[k + 1];
      ReplaceCharAbsent(s[1..], c, rep);
    }
  }

  /** String.replaceAll with a character-class pattern and an empty replacement. */
  function RemoveChars(s: string, cs: set<char>): (r: string)
    ensures forall i :: 0 <= i < |r| ==> r[i] !in cs
  {
    if s == [] then ""
    else (if s[0] in cs then "" else [s[0]]) + RemoveChars(s[1..], cs)
  }

  lemma RemoveCharsAppend(a: string, b: string, cs: set<char>)
    ensures RemoveChars(a + b, cs) == RemoveChars(a, cs) + RemoveChars(b, cs)
  {
    if a == [] {
      assert a + b == b;
    } else {
      assert (a + b)[0] == a[0];
      assert (a + b)[1..] == a[1..] + b;
      RemoveCharsAppend(a[1..], b, cs);
    }
  }

  /** Removing two sets of characters in turn removes their union. */
  lemma {:induction false} RemoveCharsTwice(s: string, a: set<char>, b: set<char>)
    ensures RemoveChars(RemoveChars(s, a), b) == RemoveChars(s, a + b)
  {
    if s != [] {
      RemoveCharsTwice(s[1..], a, b);
      var head := if s[0] in a then "" else [s[0]];
      RemoveCharsAppend(head, RemoveChars(s[1..], a), b);
    }
  }

  /** Removing characters other than `c` commutes with replacing `c`, once the replacement loses them too. */
  lemma {:induction false} RemoveCharsReplace(t: string, c: char, rep: string, cs: set<char>)
    requires c !in cs
    ensures RemoveChars(ReplaceChar(t, c, rep), cs) == ReplaceChar(RemoveChars(t, cs), c, RemoveChars(rep, cs))
  {
    if t != [] {
      RemoveCharsReplace(t[1..], c, rep, cs);
      var head := if t[0] == c then rep else [t[0]];
      RemoveCharsAppend(head, ReplaceChar(t[1..], c, rep), cs);
      var kept := if t[0] in cs then "" else [t[0]];
      ReplaceCharAppend(kept, RemoveChars(t[1..], cs), c, RemoveChars(rep, cs));
    }
  }

  lemma {:induction false} ReplaceCharByNothing(t: string, c: char)
    ensures ReplaceChar(t, c, "") == RemoveChars(t, {c})
  {
    if t != [] {
      ReplaceCharByNothing(t[1..], c);
    }
  }

  lemma {:induction false} ReplaceCharBySelf(t: string, c: char)
    ensures ReplaceChar(t, c, [c]) == t
  {
    if t != [] {
      ReplaceCharBySelf(t[1..], c);
      assert t == [t[0]] + t[1..];
    }
  }

  /** Replacing `c` by text without `d` adds no `d`. */
  lemma {:induction false} ReplaceCharKeepsOut(t: string, c: char, rep: string, d: char)
    requires d !in t && d !in rep
    ensures d !in ReplaceChar(t, c, rep)
  {
    if t != [] {
      assert d !in t[1..];
      ReplaceCharKeepsOut(t[1..], c, rep, d);
    }
  }

  /** Replacing `c` by text without `c` leaves no `c`. */
  lemma {:induction false} ReplaceCharRemoves(t: string, c: char, rep: string)
    requires c !in rep
    ensures c !in ReplaceChar(t, c, rep)
  {
    if t != [] {
      ReplaceCharRemoves(t[1..], c, rep);
    }
  }

  lemma {:induction false} CountAbsent(s: string, c: char)
    requires c !in s
    ensures Count(s, c) == 0
  {
    if s != [] {
      assert c !in s[1..];
      CountAbsent(s[1..], c);
    }
  }

  lemma {:induction false} CountRemoveOthers(s: string, cs: set<char>, d: char)
    requires d !in cs
    ensures Count(RemoveChars(s, cs), d) == Count(s, d)
  {
    if s != [] {
      CountRemoveOthers(s[1..], cs, d);
      var head := if s[0] in cs then "" else [s[0]];
      CountAppend(head, RemoveChars(s[1..], cs), d);
    }
  }

  /** Each `c` replaced by `rep` brings the `d`s of `rep`. */
  lemma {:induction false} CountReplaceChar(t: string, c: char, rep: string, d: char)
    requires c != d
    ensures Count(ReplaceChar(t, c, rep), d) == Count(t, d) + Count(t, c) * Count(rep, d)
  {
    if t != [] {
      CountReplaceChar(t[1..], c, rep, d);
      var head := if t[0] == c then rep else [t[0]];
      CountAppend(head, ReplaceChar(t[1..], c, rep), d);
      var n, m := Count(t[1..], c), Count(rep, d);
      if t[0] == c {
        assert Count(t, c) == n + 1 && Count(t, d) == Count(t[1..], d);
        assert (n + 1) * m == m + n * m;
      } else {
        assert Count(t, c) == n;
      }
    }
  }

  /** Every `_` of `t` is immediately preceded by `!`. */
  predicate UnderscoresEscaped(t: string) {
    forall i :: 0 <= i < |t| && t[i] == '_' ==> 0 < i && t[i - 1] == '!'
  }

  lemma {:induction false} EscapeUnderscores(s: string)
    ensures UnderscoresEscaped(ReplaceChar(s, '_', "!_"))
  {
    if s != [] {
      EscapeUnderscores(s[1..]);
      var head := if s[0] == '_' then "!_" else [s[0]];
      var tail := ReplaceChar(s[1..], '_', "!_");
      assert ReplaceChar(s, '_', "!_") == head + tail;
      forall i | 0 <= i < |head + tail| && (head + tail)[i] == '_'
        ensures 0 < i && (head + tail)[i - 1] == '!'
      {
        if i >= |head| {
          assert tail[i - |head|] == '_';
          if i - |head| == 0 {
            assert false;
          }
        }
      }
    }
  }

  /** Removing every `!` undoes the `_` to `!_` escaping. */
  lemma {:induction false} UnescapeUnderscores(s: string)
    ensures RemoveChars(ReplaceChar(s, '_', "!_"), {'!'}) == RemoveChars(s, {'!'})
  {
    if s != [] {
      var head := if s[0] == '_' then "!_" else [s[0]];
      assert ReplaceChar(s, '_', "!_") == head + ReplaceChar(s[1..], '_', "!_");
      RemoveCharsAppend(head, ReplaceChar(s[1..], '_', "!_"), {'!'});
      UnescapeUnderscores(s[1..]);
      if s[0] == '_' {
        assert RemoveChars(head, {'!'}) == "_";
      }
    }
  }

  function LowerChar(c: char): char {
    if 'A' <= c <= 'Z' then (c as int + 32) as char else c
  }

  /** String.toLowerCase, on the ASCII letters. */
  function Lower(s: string): (r: string)
    ensures |r| == |s|
    ensures forall i :: 0 <= i < |s| ==> r[i] == LowerChar(s[i])
  {
    if s == [] then "" else [LowerChar(s[0])] + Lower(s[1..])
  }

  lemma LowerAppend(a: string, b: string)
    ensures Lower(a + b) == Lower(a) + Lower(b)
  {
  }

  /** String.trim: drops leading and trailing characters up to U+0020. */
  function TrimLeft(s: string): string {
    if s != [] && s[0] <= ' ' then TrimLeft(s[1..]) else s
  }

  function TrimRight(s: string): string {
    if s != [] && s[|s| - 1] <= ' ' then TrimRight(s[..|s| - 1]) else s
  }

  function Trim(s: string): string {
    TrimRight(TrimLeft(s))
  }

  lemma TrimNoSpace(s: string)
    requires s == [] || (s[0] > ' ' && s[|s| - 1] > ' ')
    ensures Trim(s) == s
  {
  }

  /** The pieces of `s` between the occurrences of `sep`, left to right; `cur` is the piece being read. */
  function SplitPieces(s: string, sep: string, cur: string): (r: seq<string>)
    requires sep != []
    ensures |r| > 0
    decreases |s|
  {
    if s == [] then [cur]
    else if StartsWith(s, sep) then [cur] + SplitPieces(s[|sep|..], sep, "")
    else SplitPieces(s[1..], sep, cur + [s[0]])
  }

  function DropTrailingEmpty(parts: seq<string>): seq<string> {
    if parts != [] && parts[|parts| - 1] == "" then DropTrailingEmpty(parts[..|parts| - 1]) else parts
  }

  /** String.split for a literal separator: trailing empty strings are removed, and a string without the separator yields itself. */
  function Split(s: string, sep: string): seq<string>
    requires sep != []
  {
    if Contains(s, sep) then DropTrailingEmpty(SplitPieces(s, sep, "")) else [s]
  }

  function Join(parts: seq<string>, sep: string): string {
    if parts == [] then ""
    else if |parts| == 1 then parts[0]
    else parts[0] + sep + Join(parts[1..], sep)
  }

  /** The text a loop builds by appending `p + sep` for every part. */
  function AppendEach(parts: seq<string>, sep: string): string {
    if parts == [] then "" else parts[0] + sep + AppendEach(parts[1..], sep)
  }

  /** Cutting the last separator off the appended text gives the joined text. */
  lemma {:induction false} AppendEachJoin(parts: seq<string>, sep: string)
    requires parts != []
    ensures AppendEach(parts, sep) == Join(parts, sep) + sep
    decreases |parts|
  {
    if |parts| > 1 {
      AppendEachJoin(parts[1..], sep);
    }
  }

  lemma AppendEachSnoc(parts: seq<string>, p: string, sep: string)
    ensures AppendEach(parts + [p], sep) == AppendEach(parts, sep) + p + sep
  {
    if parts != [] {
      assert (parts + [p])[1..] == parts[1..] + [p];
      AppendEachSnoc(parts[1..], p, sep);
    }
  }

  lemma AppendEachAppend(xs: seq<string>, ys: seq<string>, sep: string)
    ensures AppendEach(xs + ys, sep) == AppendEach(xs, sep) + AppendEach(ys, sep)
  {
    if xs == [] {
      assert xs + ys == ys;
    } else {
      assert (xs + ys)[1..] == xs[1..] + ys;
      AppendEachAppend(xs[1..], ys, sep);
    }
  }

  function Concat(parts: seq<string>): string {
    if parts == [] then "" else parts[0] + Concat(parts[1..])
  }

  lemma ConcatSnoc(parts: seq<string>, p: string)
    ensures Concat(parts + [p]) == Concat(parts) + p
  {
    if parts != [] {
      assert (parts + [p])[1..] == parts[1..] + [p];
      ConcatSnoc(parts[1..], p);
    }
  }

  function Repeat(s: string, n: nat): string {
    if n == 0 then "" else s + Repeat(s, n - 1)
  }

  /** Number of occurrences of `c` in `s`. */
  function Count(s: string, c: char): nat {
    if s == [] then 0 else (if s[0] == c then 1 else 0) + Count(s[1..], c)
  }

  lemma CountAppend(a: string, b: string, c: char)
    ensures Count(a + b, c) == Count(a, c) + Count(b, c)
  {
    if a == [] {
      assert a + b == b;
    } else {
      assert (a + b)[0] == a[0];
      assert (a + b)[1..] == a[1..] + b;
      CountAppend(a[1..], b, c);
    }
  }

  lemma CountRepeat(s: string, n: nat, c: char)
    ensures Count(Repeat(s, n), c) == n * Count(s, c)
  {
    if n > 0 {
      CountRepeat(s, n - 1, c);
      CountAppend(s, Repeat(s, n - 1), c);
    }
  }

  function DigitChar(d: nat): char
    requires d < 10
  {
    "0123456789"[d]
  }

  predicate IsDigit(c: char) {
    '0' <= c <= '9'
  }

  /** Decimal text of a natural number, as Integer.toString prints it. */
  function NatToString(n: nat): (r: string)
    ensures |r| > 0
    ensures forall i :: 0 <= i < |r| ==> IsDigit(r[i])
    decreases n
  {
    if n < 10 then [DigitChar(n)] else NatToString(n / 10) + [DigitChar(n % 10)]
  }

  function IntToString(i: int): string {
    if i < 0 then "-" + NatToString(-i) else NatToString(i)
  }

  function DigitValue(c: char): nat
    requires IsDigit(c)
  {
    c as int - '0' as int
  }

  /** Value of a string of decimal digits, most significant first. */
  function DigitsValue(s: string): nat
    requires forall i :: 0 <= i < |s| ==> IsDigit(s[i])
  {
    if s == [] then 0
    else DigitsValue(s[..|s| - 1]) * 10 + DigitValue(s[|s| - 1])
  }

  predicate AllDigits(s: string) {
    forall i :: 0 <= i < |s| ==> IsDigit(s[i])
  }

  /** Integer.parseInt: an optional sign, at least one digit, and a value within 32 bits. */
  function ParseInt(s: string): Option<int> {
    var negative := s != [] && s[0] == '-';
    var digits := if s != [] && (s[0] == '-' || s[0] == '+') then s[1..] else s;
    if digits == [] || !AllDigits(digits) then None
    else
      var v := if negative then -(DigitsValue(digits) as int) else DigitsValue(digits) as int;
      if -IntMax - 1 <= v <= IntMax then Some(v) else None
  }

  lemma {:induction false} DigitsOfNat(n: nat)
    ensures DigitsValue(NatToString(n)) == n
    decreases n
  {
    var s := NatToString(n);
    if n < 10 {
      assert s[..|s| - 1] == "";
    } else {
      DigitsOfNat(n / 10);
      assert s[..|s| - 1] == NatToString(n / 10);
    }
  }

  /** Printing a time step and parsing it back gives the time step. */
  lemma ParsePrintedNat(n: nat)
    requires n <= IntMax
    ensures ParseInt(NatToString(n)) == Some(n)
  {
    DigitsOfNat(n);
    var s := NatToString(n);
    assert IsDigit(s[0]);
  }

  /** Printing is injective, so distinct counters give distinct names. */
  lemma NatToStringInjective(m: nat, n: nat)
    requires NatToString(m) == NatToString(n)
    ensures m == n
  {
    DigitsOfNat(m);
    DigitsOfNat(n);
  }
}
