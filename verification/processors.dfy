/**
 The validate → analyze → format processors of `ex0/stream_processor.py`:
 a driver `Process` shared by all processors, the base processor (accept
 everything, pass through, tag with "Output: "), and the numeric, text and
 log processors that override the three steps.
 */
module Processors {
  import opened Wrappers
  import opened Strings
  import opened Numbers

  /**
   The Python values a processor can be handed. `Other` stands for any object
   of another type (a dict, a tuple, `None`, ...) and carries its `str()`.
   */
  datatype Value =
    | Int(i: int)
    | Bool(b: bool)
    | Str(s: string)
    | List(items: seq<Value>)
    | Other(shown: string)

  /** `DataProcessor` and its three subclasses. */
  datatype Processor = Base | Numeric | Text | Log

  /** What `analyze` returns: the input itself, or one of the three result dicts. */
  datatype Analysis =
    | Passthrough(data: Value)
    | NumericStats(count: nat, total: int)
    | TextStats(chars: nat, words: nat)
    | LogEntry(level: string, message: string)

  /**
   The exceptions `process` can raise on validated input: the average of an
   empty list, an average too large for a float, and an integer with more
   digits than `str()` will render.
   */
  datatype Fault = ZeroDivisionError | OverflowError | ValueError

  /** The steps of `process`, in the order they are called. */
  datatype Call = ValidateCall | AnalyzeCall | FormatCall

  /** What one `process` call returns (or raises) and which steps it called. */
  datatype Run = Run(output: Result<string, Fault>, calls: seq<Call>)

  const InvalidData: string := "Invalid data"
  const OutputTag: string := "Output: "

  /**
   The smallest magnitude that a float rounds up to infinity: the largest
   finite double is 2^1024 - 2^971, and the point halfway from it to 2^1024,
   2^1024 - 2^970, already rounds (to even) to 2^1024.
   */
  const FloatOverflowBound: nat := 0xFFFFFFFFFFFFFC00_0000000000000000_0000000000000000_0000000000000000_0000000000000000_0000000000000000_0000000000000000_0000000000000000_0000000000000000_0000000000000000_0000000000000000_0000000000000000_0000000000000000_0000000000000000_0000000000000000_0000000000000000

  // ---------------------------------------------------------------------------
  // Rendering Python values
  // ---------------------------------------------------------------------------

  /**
   `repr(s)` of a string without escapes: in single quotes, unless the text
   holds a single quote and no double quote, when it goes in double quotes.
   */
  function Repr(s: string): (r: string)
    ensures |r| == |s| + 2 && r[1..|r| - 1] == s
    ensures r[0] == r[|r| - 1] && (r[0] == '\'' || r[0] == '"')
    ensures r[0] == '"' <==> '\'' in s && '"' !in s
  {
    var quote := if '\'' in s && '"' !in s then '"' else '\'';
    [quote] + s + [quote]
  }

  /** `str(v)`. Inside a list the items are shown by `repr`, which quotes strings. */
  function Show(v: Value): string {
    match v
    case Int(i) => ShowInt(i)
    case Bool(b) => if b then "True" else "False"
    case Str(s) => s
    case Other(shown) => shown
    case List(items) =>
      var reprs := seq(|items|, k requires 0 <= k < |items| =>
        if items[k].Str? then Repr(items[k].s) else Show(items[k]));
      "[" + Join(reprs, ", ") + "]"
  }

  // ---------------------------------------------------------------------------
  // validate
  // ---------------------------------------------------------------------------

  /** `isinstance(x, (int, float))`; a `bool` is an `int` in Python. */
  predicate IsNumber(v: Value) {
    v.Int? || v.Bool?
  }

  predicate AllNumbers(items: seq<Value>) {
    forall k :: 0 <= k < |items| ==> IsNumber(items[k])
  }

  /** `validate`: the base accepts everything; each subclass checks the input's shape. */
  predicate Validate(p: Processor, v: Value) {
    match p
    case Base => true
    case Numeric => v.List? && AllNumbers(v.items)
    case Text => v.Str?
    case Log => v.Str? && ':' in v.s
  }

  /**
   The numeric check is a conjunction over the items: a concatenation of
   lists passes exactly when both parts pass, and a one-item list exactly
   when its item is a number.
   */
  lemma ValidateNumericAppend(a: seq<Value>, b: seq<Value>)
    ensures Validate(Numeric, List(a + b)) <==> Validate(Numeric, List(a)) && Validate(Numeric, List(b))
    ensures forall x :: Validate(Numeric, List([x])) <==> IsNumber(x)
  {
    forall x
      ensures Validate(Numeric, List([x])) <==> IsNumber(x)
    {
      assert [x][0] == x;
    }
    if AllNumbers(a) && AllNumbers(b) {
      assert forall k :: 0 <= k < |a + b| ==> (a + b)[k] == if k < |a| then a[k] else b[k - |a|];
    }
    if AllNumbers(a + b) {
      assert forall k :: 0 <= k < |a| ==> a[k] == (a + b)[k];
      assert forall k :: 0 <= k < |b| ==> b[k] == (a + b)[|a| + k];
    }
  }

  /** The log check accepts exactly the strings `split(":", 1)` can unpack into two parts. */
  lemma ValidateLogIffSplits(s: string)
    ensures Validate(Log, Str(s)) <==> SplitOnce(s, ':').Some?
  {
  }

  // ---------------------------------------------------------------------------
  // analyze
  // ---------------------------------------------------------------------------

  function NumberValue(v: Value): int
    requires IsNumber(v)
  {
    match v
    case Int(i) => i
    case Bool(b) => if b then 1 else 0
  }

  /** `sum(items)` */
  function Sum(items: seq<Value>): int
    requires AllNumbers(items)
  {
    if items == [] then 0 else NumberValue(items[0]) + Sum(items[1..])
  }

  /** Whether `a` is the shape of result processor `p` produces. */
  predicate ResultOf(p: Processor, a: Analysis) {
    match p
    case Base => a.Passthrough?
    case Numeric => a.NumericStats?
    case Text => a.TextStats?
    case Log => a.LogEntry?
  }

  /**
   Whether `total / count`, Python's true division of two ints, raises
   `OverflowError`: the exact quotient rounds to a magnitude beyond the
   largest float.
   */
  predicate AverageOverflows(count: nat, total: int)
    requires count > 0
  {
    Abs(total) >= count * FloatOverflowBound
  }

  /**
   `analyze`, on the inputs its type annotation admits (`List[int]` for the
   numeric processor, `str` for the text processor, a `"LEVEL: message"`
   string for the log processor) — exactly the inputs `validate` accepts.
   Only the numeric average can fail: on an empty list it divides by zero,
   and a sum too large for the float average overflows.
   */
  function Analyze(p: Processor, v: Value): (r: Result<Analysis, Fault>)
    requires Validate(p, v)
    ensures r.Failure? <==> p == Numeric && (v.items == [] || AverageOverflows(|v.items|, Sum(v.items)))
    ensures r == Failure(ZeroDivisionError) <==> p == Numeric && v.items == []
    ensures r.Failure? ==> r.error != ValueError
    ensures r.Success? ==> ResultOf(p, r.value)
  {
    match p
    case Base => Success(Passthrough(v))
    case Numeric =>
      if v.items == [] then Failure(ZeroDivisionError)
      else if AverageOverflows(|v.items|, Sum(v.items)) then Failure(OverflowError)
      else Success(NumericStats(|v.items|, Sum(v.items)))
    case Text => Success(TextStats(|v.s| + 1, |Words(v.s)|))
    case Log =>
      var (rawLevel, rawMessage) := SplitOnce(v.s, ':').value;
      Success(LogEntry(Upper(Strip(rawLevel)), Strip(rawMessage)))
  }

  // ---------------------------------------------------------------------------
  // format_output
  // ---------------------------------------------------------------------------

  /** The log tag: `ALERT` for level `ERROR`, `INFO` for everything else. */
  function Tag(level: string): string {
    if level == "ERROR" then "ALERT" else "INFO"
  }

  /**
   `format_output`, chosen by the shape of the result. The numeric output
   stops after the sum: the average is a float and is not rendered.
   */
  function Format(a: Analysis): (out: string)
    ensures StartsWith(out, OutputTag)
  {
    match a
    case Passthrough(v) => OutputTag + Show(v)
    case NumericStats(count, total) =>
      OutputTag + "Processed " + ShowInt(count) + " numeric values, sum=" + ShowInt(total)
    case TextStats(chars, words) =>
      OutputTag + "Processed text: " + ShowInt(chars) + " characters, " + ShowInt(words) + " words"
    case LogEntry(level, message) =>
      OutputTag + "[" + Tag(level) + "] " + level + " level detected: " + message
  }

  /**
   Whether `str()` renders every integer in `v` rather than raising
   `ValueError` for exceeding the digit limit; `repr` of a list renders its
   items the same way.
   */
  predicate RenderableValue(v: Value) {
    match v
    case Int(i) => WithinStrLimit(i)
    case List(items) => forall k :: 0 <= k < |items| ==> RenderableValue(items[k])
    case _ => true
  }

  /** Whether `format_output` returns for `a` rather than raising `ValueError`. */
  predicate Renderable(a: Analysis) {
    match a
    case Passthrough(v) => RenderableValue(v)
    case NumericStats(count, total) => WithinStrLimit(count) && WithinStrLimit(total)
    case TextStats(chars, words) => WithinStrLimit(chars) && WithinStrLimit(words)
    case LogEntry(_, _) => true
  }

  // ---------------------------------------------------------------------------
  // process
  // ---------------------------------------------------------------------------

  /**
   Whether `process` gets past its opening echo of the input: always when
   silent, and otherwise when `str()` renders the input.
   */
  predicate Echoes(silent: bool, v: Value) {
    silent || RenderableValue(v)
  }

  /**
   `process` on a processor built with the given `silent` flag. Unless
   silent, it first echoes the input with `str()`, which raises `ValueError`
   before any step runs when the input holds an integer beyond the digit
   limit. Then: validate; on failure return "Invalid data" and call nothing
   else; otherwise analyze and format, and what either raises propagates.
   The steps are always called in the order validate, analyze, format, and
   analyze only on validated input.
   */
  function Process(p: Processor, silent: bool, v: Value): (r: Run)
    ensures r.calls <= [ValidateCall, AnalyzeCall, FormatCall]
    ensures r.calls == [] <==> !Echoes(silent, v)
    ensures r.calls == [] ==> r.output == Failure(ValueError)
    ensures AnalyzeCall in r.calls <==> r.calls != [] && Validate(p, v)
    ensures r.output == Success(InvalidData) <==> r.calls != [] && !Validate(p, v)
    ensures r.calls != [] && Validate(p, v) ==>
      match Analyze(p, v)
      case Failure(e) => r.output == Failure(e) && FormatCall !in r.calls
      case Success(a) =>
        && FormatCall in r.calls
        && r.output == if Renderable(a) then Success(Format(a)) else Failure(ValueError)
  {
    if !Echoes(silent, v) then
      Run(Failure(ValueError), [])
    else if !Validate(p, v) then
      Run(Success(InvalidData), [ValidateCall])
    else
      match Analyze(p, v)
      case Failure(e) => Run(Failure(e), [ValidateCall, AnalyzeCall])
      case Success(a) =>
        if !Renderable(a) then
          Run(Failure(ValueError), [ValidateCall, AnalyzeCall, FormatCall])
        else
          var out := Format(a);
          assert out != InvalidData by {
            assert out[..|OutputTag|] == OutputTag;
            assert out[0] == OutputTag[0] != InvalidData[0];
          }
          Run(Success(out), [ValidateCall, AnalyzeCall, FormatCall])
  }

  // ---------------------------------------------------------------------------
  // Properties of the base processor
  // ---------------------------------------------------------------------------

  /**
   The base processor accepts every value and returns it after "Output: ":
   a string verbatim, an integer so that `int()` reads it back. Only an
   integer beyond the digit limit, alone or in a list, makes it raise.
   */
  lemma BasePassesThrough(silent: bool, v: Value)
    ensures Validate(Base, v)
    ensures RenderableValue(v) ==> Process(Base, silent, v).output == Success(OutputTag + Show(v))
    ensures !RenderableValue(v) ==> Process(Base, silent, v).output == Failure(ValueError)
    ensures v.Str? ==> Process(Base, silent, v).output.value[|OutputTag|..] == v.s
    ensures v.Int? && WithinStrLimit(v.i) ==>
      ParseInt(Process(Base, silent, v).output.value[|OutputTag|..]) == Some(v.i)
  {
    var out := OutputTag + Show(v);
    assert out[|OutputTag|..] == Show(v);
    if v.Int? {
      ParseShowInt(v.i);
    }
  }

  // ---------------------------------------------------------------------------
  // Properties of the numeric processor
  // ---------------------------------------------------------------------------

  /** `sum` distributes over list concatenation. */
  lemma {:induction false} SumAppend(a: seq<Value>, b: seq<Value>)
    requires AllNumbers(a) && AllNumbers(b)
    ensures AllNumbers(a + b)
    ensures Sum(a + b) == Sum(a) + Sum(b)
    decreases |a|
  {
    if a == [] {
      assert a + b == b;
    } else {
      SumAppend(a[1..], b);
      assert a + b != [];
      assert (a + b)[0] == a[0];
      assert (a + b)[1..] == a[1..] + b;
    }
  }

  /**
   The numeric processor accepts exactly the lists of numbers, the empty
   list included. Unless silent, an item beyond the digit limit makes the
   echo raise first. Otherwise, on the empty list the average divides by
   zero, on a sum beyond the float range it overflows, and on the rest it
   reports the length and the sum, provided `str()` renders both.
   */
  lemma NumericOutcome(silent: bool, v: Value)
    ensures Validate(Numeric, v) <==> v.List? && AllNumbers(v.items)
    ensures !Echoes(silent, v) ==> Process(Numeric, silent, v) == Run(Failure(ValueError), [])
    ensures Echoes(silent, v) && Validate(Numeric, v) && v.items == [] ==>
      Process(Numeric, silent, v) == Run(Failure(ZeroDivisionError), [ValidateCall, AnalyzeCall])
    ensures Echoes(silent, v) && Validate(Numeric, v) && v.items != [] && AverageOverflows(|v.items|, Sum(v.items))
      ==> Process(Numeric, silent, v) == Run(Failure(OverflowError), [ValidateCall, AnalyzeCall])
    ensures Echoes(silent, v) && Validate(Numeric, v) && v.items != [] && !AverageOverflows(|v.items|, Sum(v.items))
      ==> var count, total := |v.items|, Sum(v.items);
      Process(Numeric, silent, v).output
        == if WithinStrLimit(count) && WithinStrLimit(total)
           then Success(Format(NumericStats(count, total)))
           else Failure(ValueError)
  {
  }

  /**
   The average overflows exactly when the exact quotient of the sum by the
   count is at least `FloatOverflowBound` in magnitude.
   */
  lemma AverageOverflowsIffQuotient(count: nat, total: int)
    requires count > 0
    ensures AverageOverflows(count, total)
      <==> (Abs(total) as real) / (count as real) >= FloatOverflowBound as real
  {
    var q := (Abs(total) as real) / (count as real);
    assert q * (count as real) == Abs(total) as real;
  }

  /**
   Two strings laid out as head, space-free field, separator starting with a
   space, tail agree only when their fields and their tails agree.
   */
  lemma SplitAtSeparator(h: string, a: string, m: string, x: string, b: string, y: string)
    requires NoSpace(a) && NoSpace(b) && |m| > 0 && m[0] == ' '
    requires h + a + m + x == h + b + m + y
    ensures a == b && x == y
  {
    var s := h + a + m + x;
    assert forall k :: 0 <= k < |a| ==> s[|h| + k] == a[k];
    assert forall k :: 0 <= k < |b| ==> s[|h| + k] == b[k];
    assert s[|h| + |a|] == ' ' == s[|h| + |b|];
    assert |a| == |b|;
    assert a == s[|h|..|h| + |a|] == b;
    assert x == s[|h| + |a| + |m|..] == y;
  }

  /** The numeric output determines the count and the sum it reports. */
  lemma NumericFormatInjective(c1: nat, t1: int, c2: nat, t2: int)
    requires Format(NumericStats(c1, t1)) == Format(NumericStats(c2, t2))
    ensures c1 == c2 && t1 == t2
  {
    SplitAtSeparator(OutputTag + "Processed ", ShowInt(c1), " numeric values, sum=", ShowInt(t1),
      ShowInt(c2), ShowInt(t2));
    ShowIntInjective(c1, c2);
    ShowIntInjective(t1, t2);
  }

  // ---------------------------------------------------------------------------
  // Properties of the text processor
  // ---------------------------------------------------------------------------

  /**
   The text processor reports one more than the number of characters and the
   number of maximal non-whitespace runs, which is zero exactly for
   all-whitespace text.
   */
  lemma TextCounts(s: string)
    ensures Analyze(Text, Str(s)) == Success(TextStats(|s| + 1, RunStarts(s, true)))
    ensures RunStarts(s, true) == 0 <==> AllSpace(s)
  {
    assert Analyze(Text, Str(s)) == Success(TextStats(|s| + 1, |Words(s)|));
    WordCountIsRunCount(s);
    NoWordsIffAllSpace(s);
  }

  /** The text output determines the two counts it reports. */
  lemma TextFormatInjective(c1: nat, w1: nat, c2: nat, w2: nat)
    requires Format(TextStats(c1, w1)) == Format(TextStats(c2, w2))
    ensures c1 == c2 && w1 == w2
  {
    TextFormatParts(c1, w1);
    TextFormatParts(c2, w2);
    SplitAtSeparator(OutputTag + "Processed text: ", ShowInt(c1), " characters, ", ShowInt(w1) + " words",
      ShowInt(c2), ShowInt(w2) + " words");
    ShowIntInjective(c1, c2);
    DropSuffix(ShowInt(w1), ShowInt(w2), " words");
    ShowIntInjective(w1, w2);
  }

  lemma TextFormatParts(c: nat, w: nat)
    ensures Format(TextStats(c, w))
         == OutputTag + "Processed text: " + ShowInt(c) + " characters, " + (ShowInt(w) + " words")
  {
  }

  lemma DropSuffix(a: string, b: string, suffix: string)
    requires a + suffix == b + suffix
    ensures a == b
  {
    assert a == (a + suffix)[..|a|];
    assert b == (b + suffix)[..|b|];
  }

  // ---------------------------------------------------------------------------
  // Properties of the log processor
  // ---------------------------------------------------------------------------

  /**
   A log line is split at its first colon: the raw level is the colon-free
   text before it and the raw message everything after it. The reported
   level is the raw level stripped and upper-cased, the message stripped.
   */
  lemma LogSplitsAtFirstColon(rawLevel: string, rawMessage: string)
    requires ':' !in rawLevel
    ensures Validate(Log, Str(rawLevel + ":" + rawMessage))
    ensures Analyze(Log, Str(rawLevel + ":" + rawMessage))
      == Success(LogEntry(Upper(Strip(rawLevel)), Strip(rawMessage)))
  {
    SplitOnceJoin(rawLevel, ':', rawMessage);
    assert rawLevel + ":" + rawMessage == rawLevel + [':'] + rawMessage;
  }

  /**
   The log processor accepts exactly the strings holding a colon; the level
   it reports holds no colon, no lower-case ASCII letter and no surrounding
   whitespace, and the message no surrounding whitespace.
   */
  lemma LogEntryShape(v: Value)
    ensures Validate(Log, v) <==> v.Str? && ':' in v.s
    ensures Validate(Log, v) ==>
      var a := Analyze(Log, v).value;
      && ':' !in a.level
      && (forall k :: 0 <= k < |a.level| ==> !IsLowerAscii(a.level[k]))
      && (a.level == [] || (!IsSpace(a.level[0]) && !IsSpace(a.level[|a.level| - 1])))
      && (a.message == [] || (!IsSpace(a.message[0]) && !IsSpace(a.message[|a.message| - 1])))
  {
    if Validate(Log, v) {
      var (rawLevel, rawMessage) := SplitOnce(v.s, ':').value;
      assert Analyze(Log, v).value == LogEntry(Upper(Strip(rawLevel)), Strip(rawMessage));
      LogFieldsShape(rawLevel, rawMessage);
    }
  }

  /** The level and message fields `analyze` builds from the two halves of a line. */
  lemma LogFieldsShape(rawLevel: string, rawMessage: string)
    requires ':' !in rawLevel
    ensures var level, message := Upper(Strip(rawLevel)), Strip(rawMessage);
      && ':' !in level
      && (forall k :: 0 <= k < |level| ==> !IsLowerAscii(level[k]))
      && (level == [] || (!IsSpace(level[0]) && !IsSpace(level[|level| - 1])))
      && (message == [] || (!IsSpace(message[0]) && !IsSpace(message[|message| - 1])))
  {
    var stripped := Strip(rawLevel);
    StripSpec(rawLevel);
    StripSpec(rawMessage);
    StripNoNewChars(rawLevel, ':');
    UpperShape(stripped);
    var level := Upper(stripped);
    assert ':' !in level by {
      assert forall k :: 0 <= k < |level| ==> level[k] != ':';
    }
  }


  /**
   The tag depends only on the reported level: the output is tagged `ALERT`
   exactly when the level is `ERROR`, and `INFO` otherwise.
   */
  lemma LogTagByLevel(level: string, message: string)
    ensures StartsWith(Format(LogEntry(level, message)), "Output: [ALERT] ") <==> level == "ERROR"
    ensures StartsWith(Format(LogEntry(level, message)), "Output: [INFO] ") <==> level != "ERROR"
  {
    var out := Format(LogEntry(level, message));
    assert out == "Output: [" + Tag(level) + "] " + level + " level detected: " + message;
    if level == "ERROR" {
      assert out[..16] == "Output: [ALERT] ";
      assert out[9] != "Output: [INFO] "[9];
    } else {
      assert out[..15] == "Output: [INFO] ";
      assert out[9] != "Output: [ALERT] "[9];
    }
  }

  /**
   End to end: a log line is reported as an `ALERT` exactly when the text
   before its first colon, stripped and upper-cased, is `ERROR`.
   */
  lemma LogAlertIff(silent: bool, rawLevel: string, rawMessage: string)
    requires ':' !in rawLevel
    ensures var r := Process(Log, silent, Str(rawLevel + ":" + rawMessage));
      && r.output.Success?
      && (StartsWith(r.output.value, "Output: [ALERT] ") <==> Upper(Strip(rawLevel)) == "ERROR")
  {
    LogSplitsAtFirstColon(rawLevel, rawMessage);
    LogTagByLevel(Upper(Strip(rawLevel)), Strip(rawMessage));
  }

  // ---------------------------------------------------------------------------
  // The documented inputs
  // ---------------------------------------------------------------------------

  /** The numeric processor on the list `[1, 2, 3, 4, 5]` of the demonstration. */
  lemma NumericExample(silent: bool)
    ensures var v := List([Int(1), Int(2), Int(3), Int(4), Int(5)]);
      && Validate(Numeric, v)
      && Analyze(Numeric, v) == Success(NumericStats(5, 15))
      && Process(Numeric, silent, v).output == Success(Format(NumericStats(5, 15)))
  {
    var items := [Int(1), Int(2), Int(3), Int(4), Int(5)];
    assert items[1..][1..][1..][1..][1..] == [];
    assert Sum(items) == 15;
    NumericExampleOutput();
    NumericExampleEcho(items);
  }

  lemma NumericExampleOutput()
    ensures Renderable(NumericStats(5, 15))
  {
    assert |ShowNat(15)| == |ShowNat(1)| + 1 == 2;
  }

  lemma NumericExampleEcho(items: seq<Value>)
    requires items == [Int(1), Int(2), Int(3), Int(4), Int(5)]
    ensures RenderableValue(List(items))
  {
    assert forall k :: 0 <= k < |items| ==> DigitCount(items[k].i) == 1;
  }

  /**
   A sum of 10^400 cannot be averaged into a float, so the numeric
   processor raises `OverflowError`; a non-silent processor echoes the
   input first and so raises `ValueError` once the sum is beyond the digit
   limit.
   */
  lemma NumericOverflowExample(silent: bool, total: nat)
    requires total >= FloatOverflowBound
    ensures Process(Numeric, silent, List([Int(total)])).output
      == if silent || WithinStrLimit(total) then Failure(OverflowError) else Failure(ValueError)
  {
    var items := [Int(total)];
    assert items[1..] == [];
    assert Sum(items) == total;
    assert AverageOverflows(1, total);
    assert RenderableValue(List(items)) <==> WithinStrLimit(total);
  }

  /**
   `[x, -x]` with `x` beyond the digit limit: a silent numeric processor
   reports two values summing to zero, a non-silent one raises `ValueError`
   while echoing the list.
   */
  lemma EchoBeyondDigitLimit(x: int)
    requires !WithinStrLimit(x)
    ensures Process(Numeric, true, List([Int(x), Int(-x)])).output == Success(Format(NumericStats(2, 0)))
    ensures Process(Numeric, false, List([Int(x), Int(-x)])) == Run(Failure(ValueError), [])
  {
    var items := [Int(x), Int(-x)];
    assert items[1..][1..] == [];
    assert Sum(items[1..]) == -x;
    assert Sum(items) == 0;
    assert !RenderableValue(items[0]);
    assert DigitCount(2) == 1 && DigitCount(0) == 1;
    assert !AverageOverflows(2, 0);
  }

  /**
   A line written as `LEVEL: message`, with an upper-case level and a
   message without surrounding whitespace, is reported as that level and
   that message ("ERROR: Connection timeout", "INFO: System ready").
   */
  lemma LogCanonicalLine(level: string, message: string)
    requires level != [] && message != []
    requires forall k :: 0 <= k < |level| ==> 'A' <= level[k] <= 'Z'
    requires !IsSpace(message[0]) && !IsSpace(message[|message| - 1])
    ensures Analyze(Log, Str(level + ": " + message)) == Success(LogEntry(level, message))
  {
    assert ':' !in level;
    assert level + ": " + message == level + ":" + (" " + message);
    LogSplitsAtFirstColon(level, " " + message);
    CanonicalLevel(level);
    CanonicalMessage(message);
  }

  lemma CanonicalLevel(level: string)
    requires level != []
    requires forall k :: 0 <= k < |level| ==> 'A' <= level[k] <= 'Z'
    ensures Upper(Strip(level)) == level
  {
    StripUnchanged(level);
    UpperUnchanged(level);
  }

  lemma CanonicalMessage(message: string)
    requires message != [] && !IsSpace(message[0]) && !IsSpace(message[|message| - 1])
    ensures Strip(" " + message) == message
  {
    StripLeadingSpace(" " + message);
    assert (" " + message)[1..] == message;
    StripUnchanged(message);
  }
}
