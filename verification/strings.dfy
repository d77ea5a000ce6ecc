/**
 The parts of Python's `str` behaviour the processors and streams rely on:
 whitespace (`isspace`), `strip`, `upper`, `startswith`, `split()` on
 whitespace, `split(sep)` and `split(sep, 1)`.
 */
module Strings {
  import opened Wrappers

  /** Exactly the characters for which Python's `str.isspace()` is true. */
  predicate IsSpace(c: char) {
    || c == ' '
    || ('\t' <= c <= '\r')
    || ('\U{1c}' <= c <= '\U{1f}')
    || c == '\U{85}'
    || c == '\U{a0}'
    || c == '\U{1680}'
    || ('\U{2000}' <= c <= '\U{200a}')
    || c == '\U{2028}'
    || c == '\U{2029}'
    || c == '\U{202f}'
    || c == '\U{205f}'
    || c == '\U{3000}'
  }

  predicate AllSpace(s: string) {
    forall i :: 0 <= i < |s| ==> IsSpace(s[i])
  }

  predicate NoSpace(s: string) {
    forall i :: 0 <= i < |s| ==> !IsSpace(s[i])
  }

  predicate StartsWith(s: string, prefix: string) {
    |prefix| <= |s| && s[..|prefix|] == prefix
  }

  // ---------------------------------------------------------------------------
  // strip()
  // ---------------------------------------------------------------------------

  /** The number of whitespace characters `s` starts with. */
  function LeadingSpaces(s: string): (n: nat)
    ensures n <= |s|
    ensures forall k :: 0 <= k < n ==> IsSpace(s[k])
    ensures n < |s| ==> !IsSpace(s[n])
  {
    if |s| > 0 && IsSpace(s[0]) then 1 + LeadingSpaces(s[1..]) else 0
  }

  /** The number of whitespace characters `s` ends with. */
  function TrailingSpaces(s: string): (n: nat)
    ensures n <= |s|
    ensures forall k :: |s| - n <= k < |s| ==> IsSpace(s[k])
    ensures n < |s| ==> !IsSpace(s[|s| - n - 1])
  {
    if |s| > 0 && IsSpace(s[|s| - 1]) then 1 + TrailingSpaces(s[..|s| - 1]) else 0
  }

  /** `s.lstrip()` */
  function TrimLeft(s: string): string {
    s[LeadingSpaces(s)..]
  }

  /** `s.strip()`: `s` without its leading and trailing whitespace. */
  function Strip(s: string): (r: string)
    ensures |r| <= |s|
  {
    var t := TrimLeft(s);
    t[..|t| - TrailingSpaces(t)]
  }

  /**
   What `strip()` must return, as a property of the result: `r` is the
   middle of `s` that starts at its first non-whitespace character, the parts
   cut off on either side are whitespace only, `r` neither starts nor ends
   with whitespace, and it is empty exactly when `s` is all whitespace.
   */
  predicate IsStripOf(s: string, r: string) {
    var i := LeadingSpaces(s);
    && i + |r| <= |s|
    && r == s[i..i + |r|]
    && AllSpace(s[..i])
    && AllSpace(s[i + |r|..])
    && (r == [] <==> AllSpace(s))
    && (r != [] ==> !IsSpace(r[0]) && !IsSpace(r[|r| - 1]))
  }

  /** `Strip` returns what `strip()` must. */
  lemma StripSpec(s: string)
    ensures IsStripOf(s, Strip(s))
  {
    var t := TrimLeft(s);
    StripParts(s, LeadingSpaces(s), t, TrailingSpaces(t), Strip(s));
  }

  /** The facts behind `StripSpec`, for `r`, the untrimmed part of `t`. */
  lemma StripParts(s: string, i: nat, t: string, j: nat, r: string)
    requires i == LeadingSpaces(s) && t == s[i..] && j == TrailingSpaces(t)
    requires r == t[..|t| - j]
    ensures IsStripOf(s, r)
  {
    LeadingPart(s, i);
    TrailingPart(s, i, t, j);
    assert |r| == |t| - j;
    if |t| > 0 {
      assert t[0] == s[i];
    }
    if r == [] {
      assert |t| == 0;
    }
    if r != [] {
      assert r[0] == t[0] && r[|r| - 1] == t[|t| - j - 1];
    }
  }

  lemma LeadingPart(s: string, i: nat)
    requires i == LeadingSpaces(s)
    ensures AllSpace(s[..i])
  {
    var head := s[..i];
    forall k | 0 <= k < |head|
      ensures IsSpace(head[k])
    {
      assert head[k] == s[k];
    }
  }

  lemma TrailingPart(s: string, i: nat, t: string, j: nat)
    requires i <= |s| && t == s[i..] && j == TrailingSpaces(t)
    ensures AllSpace(s[i + |t| - j..])
  {
    var tail := s[i + |t| - j..];
    forall k | 0 <= k < |tail|
      ensures IsSpace(tail[k])
    {
      assert tail[k] == t[|t| - j + k];
    }
  }

  /** A leading whitespace character does not change what `strip()` returns. */
  lemma StripLeadingSpace(s: string)
    requires s != [] && IsSpace(s[0])
    ensures Strip(s) == Strip(s[1..])
  {
    assert s[LeadingSpaces(s)..] == s[1..][LeadingSpaces(s[1..])..];
  }

  /** `strip()` keeps no character `s` does not have. */
  lemma StripNoNewChars(s: string, c: char)
    requires c !in s
    ensures c !in Strip(s)
  {
    StripSpec(s);
    var r := Strip(s);
    var i := LeadingSpaces(s);
    forall k | 0 <= k < |r|
      ensures r[k] != c
    {
      assert r[k] == s[i + k];
    }
  }

  lemma StripUnchanged(s: string)
    requires s == [] || (!IsSpace(s[0]) && !IsSpace(s[|s| - 1]))
    ensures Strip(s) == s
  {
  }

  // ---------------------------------------------------------------------------
  // upper() and lower()
  // ---------------------------------------------------------------------------

  predicate IsLowerAscii(c: char) {
    'a' <= c <= 'z'
  }

  function UpperChar(c: char): char {
    if IsLowerAscii(c) then (c as int - 32) as char else c
  }

  /** `s.upper()`, restricted to the ASCII letters. */
  function Upper(s: string): (r: string)
    ensures |r| == |s|
    ensures forall i :: 0 <= i < |s| ==> r[i] == UpperChar(s[i])
  {
    if s == [] then [] else [UpperChar(s[0])] + Upper(s[1..])
  }

  /**
   `upper()` leaves no lower-case ASCII letter, changes nothing but those
   letters, and so keeps every whitespace character where it was.
   */
  lemma UpperShape(s: string)
    ensures forall k :: 0 <= k < |s| ==> !IsLowerAscii(Upper(s)[k])
    ensures forall k :: 0 <= k < |s| ==> Upper(s)[k] == s[k] || (IsLowerAscii(s[k]) && 'A' <= Upper(s)[k] <= 'Z')
    ensures forall k :: 0 <= k < |s| ==> (IsSpace(Upper(s)[k]) <==> IsSpace(s[k]))
  {
  }

  /** `upper()` is the identity on text without lower-case ASCII letters. */
  lemma UpperUnchanged(s: string)
    requires forall k :: 0 <= k < |s| ==> !IsLowerAscii(s[k])
    ensures Upper(s) == s
  {
  }

  function LowerChar(c: char): char {
    if 'A' <= c <= 'Z' then (c as int + 32) as char else c
  }

  /** `s.lower()`, restricted to the ASCII letters. */
  function Lower(s: string): (r: string)
    ensures |r| == |s|
    ensures forall i :: 0 <= i < |s| ==> r[i] == LowerChar(s[i])
  {
    if s == [] then [] else [LowerChar(s[0])] + Lower(s[1..])
  }

  // ---------------------------------------------------------------------------
  // split(sep, 1) and split(sep)
  // ---------------------------------------------------------------------------

  /** The position of the first `c` in `s`, if any. */
  function IndexOf(s: string, c: char): (r: Option<nat>)
    ensures r.None? <==> c !in s
    ensures r.Some? ==> r.value < |s| && s[r.value] == c && c !in s[..r.value]
  {
    if s == [] then None
    else if s[0] == c then Some(0)
    else
      match IndexOf(s[1..], c)
      case None => None
      case Some(k) =>
        assert s[..k + 1] == [s[0]] + s[1..][..k];
        Some(k + 1)
  }

  /**
   `s.split(sep, 1)` unpacked into two parts: the text before the first
   `sep` and the text after it; `None` when `s` holds no `sep` (where the
   Python unpacking raises).
   */
  function SplitOnce(s: string, sep: char): (r: Option<(string, string)>)
    ensures r.None? <==> sep !in s
    ensures r.Some? ==> sep !in r.value.0 && r.value.0 + [sep] + r.value.1 == s
  {
    match IndexOf(s, sep)
    case None => None
    case Some(i) =>
      assert s == s[..i] + [sep] + s[i + 1..];
      Some((s[..i], s[i + 1..]))
  }

  /** Splitting at the first separator undoes joining at a separator-free head. */
  lemma SplitOnceJoin(before: string, sep: char, after: string)
    requires sep !in before
    ensures SplitOnce(before + [sep] + after, sep) == Some((before, after))
  {
    var s := before + [sep] + after;
    assert s[..|before|] == before;
    assert s[|before|] == sep;
    assert s[|before| + 1..] == after;
  }

  /** Python's `sep.join(fields)`: the fields with `sep` between each two. */
  function Join(fields: seq<string>, sep: string): string {
    if fields == [] then []
    else if |fields| == 1 then fields[0]
    else fields[0] + sep + Join(fields[1..], sep)
  }

  /** `s.split(sep)`: the maximal `sep`-free fields, which `Join` glues back into `s`. */
  function Split(s: string, sep: char): (fields: seq<string>)
    ensures |fields| >= 1
    ensures forall i :: 0 <= i < |fields| ==> sep !in fields[i]
    ensures Join(fields, [sep]) == s
    decreases |s|
  {
    match SplitOnce(s, sep)
    case None => [s]
    case Some((before, after)) =>
      var rest := Split(after, sep);
      assert ([before] + rest)[1..] == rest;
      [before] + rest
  }

  /** `s.split(sep)` yields one field more than `s` has separators. */
  lemma {:induction false} SplitCount(s: string, sep: char)
    ensures |Split(s, sep)| == multiset(s)[sep] + 1
    decreases |s|
  {
    match SplitOnce(s, sep)
    case None =>
    case Some((before, after)) =>
      SplitCount(after, sep);
      assert multiset(s) == multiset(before) + multiset{sep} + multiset(after) by {
        assert s == before + [sep] + after;
      }
  }

  /** `Split` inverts `Join` on separator-free fields. */
  lemma {:induction false} SplitJoin(fields: seq<string>, sep: char)
    requires |fields| >= 1
    requires forall i :: 0 <= i < |fields| ==> sep !in fields[i]
    ensures Split(Join(fields, [sep]), sep) == fields
    decreases |fields|
  {
    if |fields| == 1 {
      assert sep !in fields[0];
    } else {
      var rest := fields[1..];
      SplitJoin(rest, sep);
      SplitCons(fields[0], sep, Join(rest, [sep]));
      assert fields == [fields[0]] + rest;
    }
  }

  /** Splitting after a separator-free first field peels off that field. */
  lemma SplitCons(before: string, sep: char, after: string)
    requires sep !in before
    ensures Split(before + [sep] + after, sep) == [before] + Split(after, sep)
  {
    SplitOnceJoin(before, sep, after);
  }

  // ---------------------------------------------------------------------------
  // split() on whitespace
  // ---------------------------------------------------------------------------

  /** The length of the maximal whitespace-free prefix of `s`. */
  function RunLength(s: string): (n: nat)
    ensures n <= |s|
    ensures NoSpace(s[..n])
    ensures n < |s| ==> IsSpace(s[n])
  {
    if s == [] || IsSpace(s[0]) then 0
    else
      var n := 1 + RunLength(s[1..]);
      assert s[..n] == [s[0]] + s[1..][..n - 1];
      n
  }

  /** `s.split()`: the maximal runs of non-whitespace characters, in order. */
  function Words(s: string): (ws: seq<string>)
    ensures forall i :: 0 <= i < |ws| ==> ws[i] != [] && NoSpace(ws[i])
    decreases |s|
  {
    var t := TrimLeft(s);
    if t == [] then []
    else
      var n := RunLength(t);
      [t[..n]] + Words(t[n..])
  }

  /**
   Reference count of words: the positions that hold a non-whitespace
   character directly after whitespace (or after the start, when `afterSpace`).
   */
  function RunStarts(s: string, afterSpace: bool): nat {
    if s == [] then 0
    else
      (if afterSpace && !IsSpace(s[0]) then 1 else 0) + RunStarts(s[1..], IsSpace(s[0]))
  }

  /** All characters of `s` that are not whitespace, in order. */
  function NonSpace(s: string): string {
    if s == [] then []
    else if IsSpace(s[0]) then NonSpace(s[1..])
    else [s[0]] + NonSpace(s[1..])
  }

  function Concat(ws: seq<string>): string {
    if ws == [] then [] else ws[0] + Concat(ws[1..])
  }

  lemma {:induction false} RunStartsTrimLeft(s: string)
    ensures RunStarts(s, true) == RunStarts(TrimLeft(s), true)
    decreases |s|
  {
    if |s| > 0 && IsSpace(s[0]) {
      RunStartsTrimLeft(s[1..]);
    }
  }

  lemma {:induction false} RunStartsSkipRun(t: string, n: nat)
    requires n <= |t| && NoSpace(t[..n])
    ensures RunStarts(t, false) == RunStarts(t[n..], false)
    decreases n
  {
    if n > 0 {
      assert !IsSpace(t[..n][0]);
      assert t[1..][..n - 1] == t[..n][1..];
      RunStartsSkipRun(t[1..], n - 1);
      assert t[1..][n - 1..] == t[n..];
    }
  }

  lemma {:induction false} NonSpaceTrimLeft(s: string)
    ensures NonSpace(s) == NonSpace(TrimLeft(s))
    decreases |s|
  {
    if |s| > 0 && IsSpace(s[0]) {
      NonSpaceTrimLeft(s[1..]);
    }
  }

  lemma {:induction false} NonSpaceRun(t: string, n: nat)
    requires n <= |t| && NoSpace(t[..n])
    ensures NonSpace(t) == t[..n] + NonSpace(t[n..])
    decreases n
  {
    if n > 0 {
      assert !IsSpace(t[..n][0]);
      assert t[1..][..n - 1] == t[..n][1..];
      NonSpaceRun(t[1..], n - 1);
      assert t[1..][n - 1..] == t[n..];
      assert t[..n] == [t[0]] + t[1..][..n - 1];
    }
  }

  /** The number of words `split()` returns is the number of maximal non-whitespace runs. */
  lemma {:induction false} WordCountIsRunCount(s: string)
    ensures |Words(s)| == RunStarts(s, true)
    decreases |s|
  {
    var t := TrimLeft(s);
    RunStartsTrimLeft(s);
    if t != [] {
      var n := RunLength(t);
      WordCountIsRunCount(t[n..]);
      RunStartsWord(t);
      assert Words(s) == [t[..n]] + Words(t[n..]);
    }
  }

  /** A word at the front of `t` is one run start, then counting resumes after it. */
  lemma RunStartsWord(t: string)
    requires t != [] && !IsSpace(t[0])
    ensures RunStarts(t, true) == 1 + RunStarts(t[RunLength(t)..], true)
  {
    var n := RunLength(t);
    var rest := t[n..];
    assert RunStarts(t, true) == 1 + RunStarts(t[1..], false);
    assert t[1..][..n - 1] == t[..n][1..];
    RunStartsSkipRun(t[1..], n - 1);
    assert t[1..][n - 1..] == rest;
    if rest != [] {
      assert RunStarts(rest, false) == RunStarts(rest[1..], true);
    }
  }

  /** The words `split()` returns hold exactly the non-whitespace characters of `s`, in order. */
  lemma {:induction false} WordsKeepNonSpace(s: string)
    ensures Concat(Words(s)) == NonSpace(s)
    decreases |s|
  {
    var t := TrimLeft(s);
    NonSpaceTrimLeft(s);
    if t != [] {
      var n := RunLength(t);
      var rest := t[n..];
      WordsKeepNonSpace(rest);
      NonSpaceRun(t, n);
      assert Words(s) == [t[..n]] + Words(rest);
      assert Words(s)[1..] == Words(rest);
    }
  }

  /** `split()` returns no words exactly when `s` is all whitespace. */
  lemma NoWordsIffAllSpace(s: string)
    ensures Words(s) == [] <==> AllSpace(s)
  {
  }
}
