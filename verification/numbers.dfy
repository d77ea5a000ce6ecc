/**
 Decimal rendering of integers (Python's `str(int)`), the literal syntax
 Python's `int()` accepts, and the literal syntax Python's `float()` accepts,
 all over ASCII digits, with the limit CPython puts on the number of digits
 an `int` may have when it is converted to or from a decimal string.
 */
module Numbers {
  import opened Wrappers
  import opened Strings

  predicate IsDigit(c: char) {
    '0' <= c <= '9'
  }

  predicate AllDigits(s: string) {
    forall i :: 0 <= i < |s| ==> IsDigit(s[i])
  }

  function DigitChar(d: nat): (c: char)
    requires d < 10
    ensures IsDigit(c)
  {
    ('0' as int + d) as char
  }

  function DigitValue(c: char): (d: nat)
    requires IsDigit(c)
    ensures d < 10
  {
    c as int - '0' as int
  }

  // ---------------------------------------------------------------------------
  // str(n)
  // ---------------------------------------------------------------------------

  /** The decimal digits of `n`, without leading zeros. */
  function ShowNat(n: nat): (s: string)
    ensures s != [] && AllDigits(s)
    ensures s[0] == '0' ==> n == 0 && s == "0"
  {
    if n < 10 then [DigitChar(n)] else ShowNat(n / 10) + [DigitChar(n % 10)]
  }

  function Abs(n: int): nat {
    if n < 0 then -n else n
  }

  /** How many decimal digits `n` has; its sign does not count. */
  function DigitCount(n: int): nat {
    |ShowNat(Abs(n))|
  }

  /**
   `sys.get_int_max_str_digits()` at its default: CPython refuses to convert
   an `int` of more decimal digits than this to or from a string.
   */
  const MaxStrDigits: nat := 4300

  /** `str(n)` returns rather than raising `ValueError`. */
  predicate WithinStrLimit(n: int) {
    DigitCount(n) <= MaxStrDigits
  }

  /**
   The text `str(n)` returns for a Python `int` (when `WithinStrLimit(n)`):
   a minus sign exactly for a negative `n`, then the digits of its magnitude.
   */
  function ShowInt(n: int): (s: string)
    ensures s != [] && IsDigit(s[|s| - 1])
    ensures s[0] == '-' <==> n < 0
    ensures s[0] == '-' || IsDigit(s[0])
    ensures var digits := s[if n < 0 then 1 else 0..];
      && AllDigits(digits)
      && |digits| == DigitCount(n)
      && DigitsValue(digits) == Abs(n)
    ensures NoSpace(s)
  {
    ShowNatValue(Abs(n));
    if n < 0 then "-" + ShowNat(-n) else ShowNat(n)
  }

  /** The number a string of decimal digits denotes. */
  function DigitsValue(s: string): nat
    requires AllDigits(s)
  {
    if s == [] then 0 else 10 * DigitsValue(s[..|s| - 1]) + DigitValue(s[|s| - 1])
  }

  /** Reading the digits of `n` back gives `n`. */
  lemma {:induction false} ShowNatValue(n: nat)
    ensures DigitsValue(ShowNat(n)) == n
  {
    if n >= 10 {
      ShowNatValue(n / 10);
      var s := ShowNat(n);
      assert s[..|s| - 1] == ShowNat(n / 10);
    }
  }

  // ---------------------------------------------------------------------------
  // int(s)
  // ---------------------------------------------------------------------------

  /**
   Digits with single underscores between them (`1_000`), the digit syntax
   of Python's numeric literals.
   */
  predicate IsDigitGroups(s: string) {
    && s != []
    && IsDigit(s[0])
    && IsDigit(s[|s| - 1])
    && forall i :: 0 <= i < |s| ==> IsGroupChar(s, i)
  }

  /** A digit, or an underscore with a digit right after it. */
  predicate IsGroupChar(s: string, i: nat)
    requires i < |s|
  {
    IsDigit(s[i]) || (s[i] == '_' && i + 1 < |s| && IsDigit(s[i + 1]))
  }

  lemma DigitGroupsChars(s: string)
    requires IsDigitGroups(s)
    ensures forall i :: 0 <= i < |s| ==> IsDigit(s[i]) || s[i] == '_'
  {
    forall i | 0 <= i < |s|
      ensures IsDigit(s[i]) || s[i] == '_'
    {
      assert IsGroupChar(s, i);
    }
  }

  /** The digits of `s`, with the grouping underscores removed. */
  function DropUnderscores(s: string): (r: string)
    requires forall i :: 0 <= i < |s| ==> IsDigit(s[i]) || s[i] == '_'
    ensures AllDigits(r)
    ensures AllDigits(s) ==> r == s
  {
    if s == [] then []
    else if s[0] == '_' then DropUnderscores(s[1..])
    else [s[0]] + DropUnderscores(s[1..])
  }

  /**
   Removing underscores works piece by piece and keeps the digits in their
   order; with `DropUnderscoresChar` this fixes the result on every input.
   */
  lemma {:induction false} DropUnderscoresAppend(a: string, b: string)
    requires forall i :: 0 <= i < |a| ==> IsDigit(a[i]) || a[i] == '_'
    requires forall i :: 0 <= i < |b| ==> IsDigit(b[i]) || b[i] == '_'
    ensures DropUnderscores(a + b) == DropUnderscores(a) + DropUnderscores(b)
    decreases |a|
  {
    if a == [] {
      assert a + b == b;
    } else {
      var rest := a[1..];
      assert (a + b)[0] == a[0];
      assert (a + b)[1..] == rest + b;
      DropUnderscoresAppend(rest, b);
    }
  }

  /** An underscore disappears; a digit stays. */
  lemma DropUnderscoresChar(c: char)
    requires IsDigit(c) || c == '_'
    ensures DropUnderscores([c]) == if c == '_' then [] else [c]
  {
  }

  /** `s` without its leading sign character, if it has one. */
  function Unsigned(s: string): string {
    if |s| > 0 && (s[0] == '+' || s[0] == '-') then s[1..] else s
  }

  /**
   The information separators U+001C to U+001F. `str.isspace()` holds for
   them, so `strip()` removes them, but `int()` and `float()` skip only the
   other whitespace and reject every string that contains one.
   */
  predicate IsInfoSeparator(c: char) {
    '\U{1c}' <= c <= '\U{1f}'
  }

  predicate NoInfoSeparator(s: string) {
    forall i :: 0 <= i < |s| ==> !IsInfoSeparator(s[i])
  }

  /** Every information separator is whitespace, so a string without whitespace has none. */
  lemma NoSpaceNoInfoSeparator(s: string)
    requires NoSpace(s)
    ensures NoInfoSeparator(s)
  {
  }

  /**
   Python's `int(s)` in base 10: surrounding whitespace other than the
   information separators is ignored, then one optional sign, then digit
   groups of at most `MaxStrDigits` digits (underscores do not count);
   `None` where Python raises `ValueError`.
   */
  function ParseInt(s: string): Option<int> {
    if NoInfoSeparator(s) then ParseStripped(Strip(s)) else None
  }

  /** `int()` once the surrounding whitespace is gone. */
  function ParseStripped(t: string): Option<int> {
    var body := Unsigned(t);
    if IsDigitGroups(body) then
      DigitGroupsChars(body);
      Magnitude(t[0] == '-', DropUnderscores(body))
    else
      None
  }

  /**
   The integer a sign and a run of digits denote; `None` beyond
   `MaxStrDigits` digits, where `int()` raises `ValueError`.
   */
  function Magnitude(negative: bool, digits: string): (r: Option<int>)
    requires AllDigits(digits)
    ensures r.Some? <==> |digits| <= MaxStrDigits
  {
    if |digits| <= MaxStrDigits then
      var m: int := DigitsValue(digits);
      Some(if negative then -m else m)
    else
      None
  }

  /**
   `int(str(n)) == n`: rendering an integer and parsing it back is the
   identity, for every integer `str()` renders; beyond the digit limit
   both directions raise.
   */
  lemma ParseShowInt(n: int)
    ensures ParseInt(ShowInt(n)) == if WithinStrLimit(n) then Some(n) else None
  {
    if n < 0 {
      ShowNatValue(-n);
      ParseNegativeDigits(ShowNat(-n));
    } else {
      ShowNatValue(n);
      ParseDigits(ShowNat(n));
    }
  }

  /** A plain run of digits parses to the number it denotes, up to the digit limit. */
  lemma ParseDigits(u: string)
    requires u != [] && AllDigits(u)
    ensures ParseInt(u) == if |u| <= MaxStrDigits then Some(DigitsValue(u)) else None
  {
    ParseUnpadded(u);
    StrippedDigits(u);
    MagnitudeValue(false, u);
  }

  lemma MagnitudeValue(negative: bool, u: string)
    requires AllDigits(u)
    ensures Magnitude(negative, u)
      == if |u| > MaxStrDigits then None
         else if negative then Some(-(DigitsValue(u) as int))
         else Some(DigitsValue(u) as int)
  {
  }

  /** Text without whitespace goes to the literal grammar as it is. */
  lemma ParseUnpadded(s: string)
    requires NoSpace(s)
    ensures ParseInt(s) == ParseStripped(s)
  {
    NoSpaceNoInfoSeparator(s);
    StripUnchanged(s);
  }

  /** A minus sign and a run of digits parse to the negated number, up to the digit limit. */
  lemma ParseNegativeDigits(u: string)
    requires u != [] && AllDigits(u)
    ensures ParseInt("-" + u) == if |u| <= MaxStrDigits then Some(-(DigitsValue(u) as int)) else None
  {
    ParseUnpadded("-" + u);
    StrippedDigits(u);
    MagnitudeValue(true, u);
  }

  /** A run of digits, once stripped, gives its magnitude; with a minus sign, its negation. */
  lemma StrippedDigits(u: string)
    requires u != [] && AllDigits(u)
    ensures ParseStripped(u) == Magnitude(false, u)
    ensures ParseStripped("-" + u) == Magnitude(true, u)
  {
    assert Unsigned(u) == u;
    assert Unsigned("-" + u) == u;
    NothingToDrop(u);
  }

  /** A plain run of digits is a digit-group body with no underscore to drop. */
  lemma NothingToDrop(u: string)
    requires u != [] && AllDigits(u)
    ensures IsDigitGroups(u)
    ensures DropUnderscores(u) == u
  {
    DigitsAreGroups(u);
  }

  /** Distinct integers render differently. */
  lemma ShowIntInjective(a: int, b: int)
    requires ShowInt(a) == ShowInt(b)
    ensures a == b
  {
  }

  // ---------------------------------------------------------------------------
  // float(s)
  // ---------------------------------------------------------------------------

  /** Digits with an optional point: `12`, `12.`, `12.5`, `.5`. */
  predicate IsMantissa(m: string) {
    match SplitOnce(m, '.')
    case None => IsDigitGroups(m)
    case Some((whole, fraction)) =>
      && (whole != [] || fraction != [])
      && (whole == [] || IsDigitGroups(whole))
      && (fraction == [] || IsDigitGroups(fraction))
  }

  /** A mantissa with an optional exponent `e[sign]digits`. */
  predicate IsDecimal(u: string) {
    var e := IndexOf(Lower(u), 'e');
    if e.None? then IsMantissa(u)
    else IsMantissa(u[..e.value]) && IsDigitGroups(Unsigned(u[e.value + 1..]))
  }

  /**
   The strings Python's `float()` accepts, over ASCII: surrounding whitespace,
   an optional sign, then a decimal literal or `inf`, `infinity`, `nan` in any case.
   */
  predicate IsFloatLiteral(s: string) {
    var u := Unsigned(Strip(s));
    var word := Lower(u);
    NoInfoSeparator(s) && (word == "inf" || word == "infinity" || word == "nan" || IsDecimal(u))
  }

  lemma DigitsAreGroups(u: string)
    requires u != [] && AllDigits(u)
    ensures IsDigitGroups(u)
    ensures Lower(u) == u
    ensures '.' !in u
  {
    assert forall i :: 0 <= i < |u| ==> IsGroupChar(u, i);
  }

  /** Every integer `str()` renders is also a literal `float()` accepts. */
  lemma ShowIntIsFloatLiteral(n: int)
    ensures IsFloatLiteral(ShowInt(n))
  {
    var s := ShowInt(n);
    NoSpaceNoInfoSeparator(s);
    StripUnchanged(s);
    var u := Unsigned(s);
    assert u == ShowNat(if n < 0 then -n else n);
    DigitsAreGroups(u);
    assert IsMantissa(u);
    assert IsDecimal(u);
  }

  /**
   Every literal `int()` accepts is also one `float()` accepts: the digit
   groups of an integer are a mantissa without point or exponent.
   */
  lemma IntLiteralIsFloatLiteral(s: string)
    requires ParseInt(s).Some?
    ensures IsFloatLiteral(s)
  {
    var u := Unsigned(Strip(s));
    assert IsDigitGroups(u);
    DigitGroupsChars(u);
    forall i | 0 <= i < |u|
      ensures LowerChar(u[i]) == u[i] && u[i] != '.' && u[i] != 'e'
    {
    }
    assert Lower(u) == u;
    assert '.' !in u && 'e' !in u;
    assert IsMantissa(u);
    assert IsDecimal(u);
  }

  /**
   An information separator in front of a number makes both `int()` and
   `float()` raise, where `SpacePadding` shows a space is skipped.
   */
  lemma InfoSeparatorPadding(c: char, u: string)
    requires IsInfoSeparator(c)
    ensures ParseInt([c] + u) == None && !IsFloatLiteral([c] + u)
  {
    var padded := [c] + u;
    assert !NoInfoSeparator(padded) by {
      assert IsInfoSeparator(padded[0]);
    }
  }

  /** A space in front of any text changes neither `int()` nor `float()`. */
  lemma SpacePadding(u: string)
    ensures ParseInt(" " + u) == ParseInt(u)
    ensures IsFloatLiteral(" " + u) == IsFloatLiteral(u)
  {
    var padded := " " + u;
    StripLeadingSpace(padded);
    assert padded[1..] == u;
    NoInfoSeparatorCons(' ', u);
  }

  lemma NoInfoSeparatorCons(c: char, u: string)
    requires !IsInfoSeparator(c)
    ensures NoInfoSeparator([c] + u) <==> NoInfoSeparator(u)
  {
    var s := [c] + u;
    assert forall i :: 0 <= i < |u| ==> s[i + 1] == u[i];
  }
}
