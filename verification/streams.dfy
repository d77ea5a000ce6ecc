/**
 The batch streams of `ex1/data_stream.py`: what each stream's
 `process_batch` computes from a batch of strings, returned as a summary
 instead of printed, and the `StreamProcessor` registry.
 */
module Streams {
  import opened Wrappers
  import opened Strings
  import opened Numbers

  /** `DataStream` (whose type label is the caller's) and its three subclasses. */
  datatype StreamKind = Generic(typeLabel: string) | Sensor | Transaction | Event

  datatype DataStream = DataStream(streamId: string, kind: StreamKind)

  /** `stream_type`, fixed by each subclass's constructor. */
  function StreamType(s: DataStream): string {
    match s.kind
    case Generic(name) => name
    case Sensor => "Environmental Data"
    case Transaction => "Financial Data"
    case Event => "System Events"
  }

  /** The exceptions `process_batch` and `process_batches` can raise. */
  datatype StreamError = NotImplementedError | IndexError | ValueError

  /** The numbers each `process_batch` reports. */
  datatype Summary =
    | SensorSummary(readings: nat, temperature: Option<string>)
    | TransactionSummary(operations: nat, netFlow: int)
    | EventSummary(events: nat, errors: nat)

  // ---------------------------------------------------------------------------
  // SensorStream
  // ---------------------------------------------------------------------------

  /** `d.startswith("temp")` */
  predicate IsTempReading(item: string) {
    StartsWith(item, "temp")
  }

  /** A temp reading `float(d.split(":")[1])` accepts. */
  predicate IsValidReading(item: string) {
    var fields := Split(item, ':');
    |fields| >= 2 && IsFloatLiteral(fields[1])
  }

  /** The second `:`-field of a valid reading. */
  function ReadingValue(item: string): string
    requires IsValidReading(item)
  {
    Split(item, ':')[1]
  }

  /**
   The list `temps`: the value field of every temp reading, in batch order.
   Items are looked at first to last; the first temp reading without a
   second field raises `IndexError`, one whose field is not a float
   `ValueError`.
   */
  function TempValues(batch: seq<string>): (r: Result<seq<string>, StreamError>)
    ensures r.Failure? ==> r.error == IndexError || r.error == ValueError
  {
    if batch == [] then Success([])
    else
      var item := batch[0];
      var rest := TempValues(batch[1..]);
      if !IsTempReading(item) then rest
      else if |Split(item, ':')| < 2 then Failure(IndexError)
      else if !IsFloatLiteral(Split(item, ':')[1]) then Failure(ValueError)
      else
        match rest
        case Failure(e) => Failure(e)
        case Success(values) => Success([ReadingValue(item)] + values)
  }

  /**
   `SensorStream.process_batch`: the number of items and the first
   temperature reading (`temps[0]`), or none, which the source prints as 0.0.
   */
  function SensorBatch(batch: seq<string>): (r: Result<Summary, StreamError>)
    ensures r.Success? ==> r.value.SensorSummary? && r.value.readings == |batch|
    ensures r.Failure? ==> r.error != NotImplementedError
  {
    match TempValues(batch)
    case Failure(e) => Failure(e)
    case Success(temps) =>
      Success(SensorSummary(|batch|, if temps == [] then None else Some(temps[0])))
  }

  /** The position of the first item of `batch` that `f` holds for, if any. */
  function FirstWhere(batch: seq<string>, f: string -> bool): (r: Option<nat>)
    ensures r.None? <==> forall i :: 0 <= i < |batch| ==> !f(batch[i])
    ensures r.Some? ==> r.value < |batch| && f(batch[r.value])
    ensures r.Some? ==> forall i :: 0 <= i < r.value ==> !f(batch[i])
  {
    if batch == [] then None
    else if f(batch[0]) then Some(0)
    else
      match FirstWhere(batch[1..], f)
      case None => None
      case Some(k) => Some(k + 1)
  }

  /** The position of the first temp reading of `batch`, if any. */
  function FirstTempReading(batch: seq<string>): (r: Option<nat>)
    ensures r.None? <==> forall i :: 0 <= i < |batch| ==> !IsTempReading(batch[i])
    ensures r.Some? ==> r.value < |batch| && IsTempReading(batch[r.value])
    ensures r.Some? ==> forall i :: 0 <= i < r.value ==> !IsTempReading(batch[i])
  {
    FirstWhere(batch, IsTempReading)
  }

  /** A temp reading that `float(d.split(":")[1])` rejects. */
  predicate IsInvalidReading(item: string) {
    IsTempReading(item) && !IsValidReading(item)
  }

  /** The position of the first temp reading that `float(d.split(":")[1])` rejects, if any. */
  function FirstInvalidReading(batch: seq<string>): (r: Option<nat>)
    ensures r.None? <==> forall i :: 0 <= i < |batch| && IsTempReading(batch[i]) ==> IsValidReading(batch[i])
    ensures r.Some? ==> r.value < |batch| && IsTempReading(batch[r.value]) && !IsValidReading(batch[r.value])
    ensures r.Some? ==> forall i :: 0 <= i < r.value && IsTempReading(batch[i]) ==> IsValidReading(batch[i])
  {
    FirstWhere(batch, IsInvalidReading)
  }

  /**
   The comprehension stops at the first invalid temp reading and raises what
   that reading raises: `IndexError` when it has no colon, `ValueError` when
   the text after its first colon is no float.
   */
  lemma {:induction false} TempValuesError(batch: seq<string>)
    ensures TempValues(batch).Failure? <==> FirstInvalidReading(batch).Some?
    ensures TempValues(batch).Failure? ==>
      var item := batch[FirstInvalidReading(batch).value];
      TempValues(batch).error == if |Split(item, ':')| < 2 then IndexError else ValueError
    decreases |batch|
  {
    TempValuesSucceeds(batch);
    if batch != [] && TempValues(batch).Failure? {
      TempValuesError(batch[1..]);
      if !IsInvalidReading(batch[0]) {
        assert TempValues(batch) == TempValues(batch[1..]);
        var k := FirstInvalidReading(batch[1..]).value;
        assert FirstInvalidReading(batch) == Some(k + 1);
        assert batch[k + 1] == batch[1..][k];
      }
    }
  }

  /** The list comprehension succeeds exactly when every temp reading is valid. */
  lemma {:induction false} TempValuesSucceeds(batch: seq<string>)
    ensures TempValues(batch).Success? <==>
      forall i :: 0 <= i < |batch| && IsTempReading(batch[i]) ==> IsValidReading(batch[i])
    decreases |batch|
  {
    if batch != [] {
      TempValuesSucceeds(batch[1..]);
      assert forall i :: 1 <= i < |batch| ==> batch[i] == batch[1..][i - 1];
    }
  }

  lemma {:induction false} TempValuesHead(batch: seq<string>)
    requires TempValues(batch).Success?
    ensures var values := TempValues(batch).value;
      match FirstTempReading(batch)
      case None => values == []
      case Some(k) => values != [] && IsValidReading(batch[k]) && values[0] == ReadingValue(batch[k])
    decreases |batch|
  {
    if batch != [] {
      if !IsTempReading(batch[0]) {
        TempValuesHead(batch[1..]);
      }
    }
  }

  /**
   A sensor batch succeeds exactly when every temp reading in it has a float
   second field; it then counts every item, whatever its type, and reports
   the value field of the first item starting with "temp", or none when no
   item does.
   */
  lemma SensorBatchSpec(batch: seq<string>)
    ensures SensorBatch(batch).Success? <==>
      forall i :: 0 <= i < |batch| && IsTempReading(batch[i]) ==> IsValidReading(batch[i])
    ensures SensorBatch(batch).Success? ==>
      var summary := SensorBatch(batch).value;
      && summary.readings == |batch|
      && match FirstTempReading(batch)
         case None => summary.temperature == None
         case Some(k) => IsValidReading(batch[k]) && summary.temperature == Some(ReadingValue(batch[k]))
  {
    TempValuesSucceeds(batch);
    if TempValues(batch).Success? {
      TempValuesHead(batch);
    }
  }

  /** `TempValues` of a batch with a known first item, unfolded once. */
  lemma TempValuesCons(item: string, rest: seq<string>)
    ensures !IsTempReading(item) ==> TempValues([item] + rest) == TempValues(rest)
    ensures IsTempReading(item) ==> TempValues([item] + rest).Success? == (IsValidReading(item) && TempValues(rest).Success?)
    ensures IsTempReading(item) && TempValues([item] + rest).Success? ==>
      TempValues([item] + rest).value == [ReadingValue(item)] + TempValues(rest).value
  {
    assert ([item] + rest)[0] == item;
    assert ([item] + rest)[1..] == rest;
  }

  /** Items that do not start with "temp" change nothing but the reading count. */
  lemma {:induction false} SensorIgnoresOtherItems(before: seq<string>, item: string, after: seq<string>)
    requires !IsTempReading(item)
    ensures TempValues(before + [item] + after) == TempValues(before + after)
    decreases |before|
  {
    if before == [] {
      assert before + [item] + after == [item] + after;
      assert before + after == after;
      TempValuesCons(item, after);
    } else {
      var head := before[0];
      SensorIgnoresOtherItems(before[1..], item, after);
      assert before + [item] + after == [head] + (before[1..] + [item] + after);
      assert before + after == [head] + (before[1..] + after);
      SameAfterSameHead(head, before[1..] + [item] + after, before[1..] + after);
    }
  }

  lemma SameAfterSameHead(head: string, rest1: seq<string>, rest2: seq<string>)
    requires TempValues(rest1) == TempValues(rest2)
    ensures TempValues([head] + rest1) == TempValues([head] + rest2)
  {
    TempValuesCons(head, rest1);
    TempValuesCons(head, rest2);
  }

  // ---------------------------------------------------------------------------
  // TransactionStream
  // ---------------------------------------------------------------------------

  /** One parsed transaction: its action and its integer value. */
  datatype Txn = Txn(action: string, amount: int)

  /**
   `action, value = item.split(":")` then `int(value)`: the item must have
   exactly two fields and the second must be an integer literal, otherwise
   `ValueError`.
   */
  function ParseTransaction(item: string): (r: Result<Txn, StreamError>)
    ensures r.Failure? ==> r.error == ValueError
  {
    var fields := Split(item, ':');
    if |fields| != 2 then Failure(ValueError)
    else
      match ParseInt(fields[1])
      case None => Failure(ValueError)
      case Some(amount) => Success(Txn(fields[0], amount))
  }

  /** `value if action == "sell" else -value` */
  function Signed(t: Txn): int {
    if t.action == "sell" then t.amount else -t.amount
  }

  /** The running `net` after the given transactions. */
  function NetFlow(ts: seq<Txn>): int {
    if ts == [] then 0 else Signed(ts[0]) + NetFlow(ts[1..])
  }

  /**
   The `for` loop's parsing, for any item parser: items are parsed first to
   last and the first failure ends the batch with that failure.
   */
  function ParseAll<T>(batch: seq<string>, parse: string -> Result<T, StreamError>): Result<seq<T>, StreamError> {
    if batch == [] then Success([])
    else
      match parse(batch[0])
      case Failure(e) => Failure(e)
      case Success(t) =>
        match ParseAll(batch[1..], parse)
        case Failure(e) => Failure(e)
        case Success(ts) => Success([t] + ts)
  }

  /**
   Parsing a batch succeeds exactly when every item parses, and then yields
   one result per item, in batch order; a failure is the failure of some item.
   */
  lemma {:induction false} ParseAllSpec<T>(batch: seq<string>, parse: string -> Result<T, StreamError>)
    ensures ParseAll(batch, parse).Success? <==> forall i :: 0 <= i < |batch| ==> parse(batch[i]).Success?
    ensures ParseAll(batch, parse).Success? ==>
      && |ParseAll(batch, parse).value| == |batch|
      && forall i :: 0 <= i < |batch| ==> parse(batch[i]) == Success(ParseAll(batch, parse).value[i])
    ensures ParseAll(batch, parse).Failure? ==>
      exists i :: 0 <= i < |batch| && parse(batch[i]) == Failure(ParseAll(batch, parse).error)
    decreases |batch|
  {
    if batch != [] {
      ParseAllSpec(batch[1..], parse);
      assert forall i :: 1 <= i < |batch| ==> batch[i] == batch[1..][i - 1];
    }
  }

  /** A batch whose every item parses yields the items' results, in batch order. */
  lemma {:induction false} ParseAllEach<T>(batch: seq<string>, parse: string -> Result<T, StreamError>, ts: seq<T>)
    requires |ts| == |batch|
    requires forall i :: 0 <= i < |batch| ==> parse(batch[i]) == Success(ts[i])
    ensures ParseAll(batch, parse) == Success(ts)
    decreases |batch|
  {
    if batch != [] {
      assert forall i :: 1 <= i < |batch| ==> batch[1..][i - 1] == batch[i] && ts[1..][i - 1] == ts[i];
      ParseAllEach(batch[1..], parse, ts[1..]);
      assert ts == [ts[0]] + ts[1..];
    }
  }

  /** Parsing `a + b` succeeds exactly when both halves do, and concatenates their results. */
  lemma {:induction false} ParseAllAppend<T>(a: seq<string>, b: seq<string>, parse: string -> Result<T, StreamError>)
    ensures ParseAll(a + b, parse).Success? <==> ParseAll(a, parse).Success? && ParseAll(b, parse).Success?
    ensures ParseAll(a + b, parse).Success? ==>
      ParseAll(a + b, parse).value == ParseAll(a, parse).value + ParseAll(b, parse).value
    decreases |a|
  {
    if a == [] {
      assert a + b == b;
    } else {
      ParseAllAppend(a[1..], b, parse);
      assert (a + b)[0] == a[0];
      assert (a + b)[1..] == a[1..] + b;
      if ParseAll(a + b, parse).Success? {
        assert [parse(a[0]).value] + (ParseAll(a[1..], parse).value + ParseAll(b, parse).value)
            == [parse(a[0]).value] + ParseAll(a[1..], parse).value + ParseAll(b, parse).value;
      }
    }
  }

  /** Parses the batch first item first, stopping at the first malformed item. */
  function ParseTransactions(batch: seq<string>): (r: Result<seq<Txn>, StreamError>)
    ensures r.Failure? ==> r.error == ValueError
  {
    ParseAllSpec(batch, ParseTransaction);
    ParseAll(batch, ParseTransaction)
  }

  /**
   `TransactionStream.process_batch`: the number of items and the signed net
   flow. Printing the net flow with `{net:+}` raises `ValueError` when it has
   more digits than `str()` renders.
   */
  function TransactionBatch(batch: seq<string>): (r: Result<Summary, StreamError>)
    ensures r.Success? ==> r.value.TransactionSummary? && r.value.operations == |batch|
    ensures r.Success? ==> WithinStrLimit(r.value.netFlow)
    ensures r.Failure? ==> r.error == ValueError
  {
    match ParseTransactions(batch)
    case Failure(e) => Failure(e)
    case Success(ts) =>
      var net := NetFlow(ts);
      if WithinStrLimit(net) then Success(TransactionSummary(|batch|, net)) else Failure(ValueError)
  }

  /** `action:value` with colon-free parts splits into exactly those two fields. */
  lemma ColonFields(action: string, value: string)
    requires ':' !in action && ':' !in value
    ensures Split(action + ":" + value, ':') == [action, value]
  {
    assert action + ":" + value == Join([action, value], ":");
    SplitJoin([action, value], ':');
  }

  lemma ShowIntNoColon(n: int)
    ensures ':' !in ShowInt(n)
  {
    var digits := ShowNat(Abs(n));
    assert forall k :: 0 <= k < |digits| ==> digits[k] != ':';
    if n < 0 {
      assert ShowInt(n) == "-" + digits;
    }
  }

  /**
   A transaction item `action:value` with colon-free parts parses exactly
   when `int()` accepts `value`, to that action and integer.
   */
  lemma TransactionItemSpec(action: string, value: string)
    requires ':' !in action && ':' !in value
    ensures ParseTransaction(action + ":" + value).Success? <==> ParseInt(value).Some?
    ensures ParseTransaction(action + ":" + value).Success? ==>
      ParseTransaction(action + ":" + value).value == Txn(action, ParseInt(value).value)
  {
    ColonFields(action, value);
  }

  /**
   An item written as `action:str(n)` parses back to `action` and `n`
   whenever `str(n)` renders; beyond the digit limit `int()` raises.
   */
  lemma TransactionItemShown(action: string, n: int)
    requires ':' !in action
    ensures ParseTransaction(action + ":" + ShowInt(n))
      == if WithinStrLimit(n) then Success(Txn(action, n)) else Failure(ValueError)
  {
    ShowIntNoColon(n);
    TransactionItemSpec(action, ShowInt(n));
    ParseShowInt(n);
  }

  /** An item with no colon or with more than one colon is rejected. */
  lemma TransactionNeedsOneColon(item: string)
    requires multiset(item)[':'] != 1
    ensures ParseTransaction(item) == Failure(ValueError)
  {
    SplitCount(item, ':');
  }

  /** The net flow is additive over concatenation. */
  lemma {:induction false} NetFlowAppend(a: seq<Txn>, b: seq<Txn>)
    ensures NetFlow(a + b) == NetFlow(a) + NetFlow(b)
    decreases |a|
  {
    if a == [] {
      assert a + b == b;
    } else {
      NetFlowAppend(a[1..], b);
      assert (a + b)[1..] == a[1..] + b;
    }
  }

  /** Taking one transaction out of a list takes its signed amount out of the net flow. */
  lemma NetFlowRemove(b: seq<Txn>, k: nat)
    requires k < |b|
    ensures NetFlow(b) == Signed(b[k]) + NetFlow(b[..k] + b[k + 1..])
  {
    var pre, post := b[..k], b[k + 1..];
    var rest := [b[k]] + post;
    assert b == pre + rest;
    NetFlowAppend(pre, rest);
    NetFlowCons(b[k], post);
    NetFlowAppend(pre, post);
  }

  lemma NetFlowCons(t: Txn, ts: seq<Txn>)
    ensures NetFlow([t] + ts) == Signed(t) + NetFlow(ts)
  {
    assert ([t] + ts)[1..] == ts;
  }

  /** The net flow does not depend on the order of the transactions. */
  lemma {:induction false} NetFlowPermutation(a: seq<Txn>, b: seq<Txn>)
    requires multiset(a) == multiset(b)
    ensures NetFlow(a) == NetFlow(b)
    decreases |a|
  {
    if a != [] {
      assert a[0] in multiset(b);
      var k :| 0 <= k < |b| && b[k] == a[0];
      MultisetRemove(a, b, k);
      NetFlowPermutation(a[1..], b[..k] + b[k + 1..]);
      NetFlowRemove(b, k);
    }
  }

  /** Removing the same element from two permutations of each other leaves permutations. */
  lemma MultisetRemove<X>(a: seq<X>, b: seq<X>, k: nat)
    requires multiset(a) == multiset(b)
    requires a != [] && k < |b| && b[k] == a[0]
    ensures multiset(a[1..]) == multiset(b[..k] + b[k + 1..])
  {
    assert b == b[..k] + [b[k]] + b[k + 1..];
    assert a == [a[0]] + a[1..];
    assert multiset(a[1..]) == multiset(a) - multiset{a[0]};
    assert multiset(b[..k] + b[k + 1..]) == multiset(b) - multiset{b[k]};
  }

  /**
   The items of a batch parse exactly when the items of both halves do, and
   the net flow of the whole is then the sum of the halves' net flows; when
   all three batches report, their counts and net flows add up. An empty
   batch reports no operations and net flow 0.
   */
  lemma TransactionBatchAppend(a: seq<string>, b: seq<string>)
    ensures TransactionBatch([]) == Success(TransactionSummary(0, 0))
    ensures ParseTransactions(a + b).Success? <==> ParseTransactions(a).Success? && ParseTransactions(b).Success?
    ensures ParseTransactions(a + b).Success? ==>
      NetFlow(ParseTransactions(a + b).value) == NetFlow(ParseTransactions(a).value) + NetFlow(ParseTransactions(b).value)
    ensures TransactionBatch(a + b).Success? && TransactionBatch(a).Success? && TransactionBatch(b).Success? ==>
      && TransactionBatch(a + b).value.operations == TransactionBatch(a).value.operations + TransactionBatch(b).value.operations
      && TransactionBatch(a + b).value.netFlow == TransactionBatch(a).value.netFlow + TransactionBatch(b).value.netFlow
  {
    assert ShowNat(0) == "0";
    ParseAllAppend(a, b, ParseTransaction);
    if ParseTransactions(a + b).Success? {
      NetFlowAppend(ParseTransactions(a).value, ParseTransactions(b).value);
    }
  }

  /**
   A one-item batch reports one operation and the item's signed amount,
   `+value` for a `sell` and `-value` for any other action; with
   `TransactionBatchAppend` this fixes the net flow of every batch.
   */
  lemma TransactionBatchSingle(item: string, t: Txn)
    requires ParseTransaction(item) == Success(t)
    ensures TransactionBatch([item])
      == if WithinStrLimit(Signed(t)) then Success(TransactionSummary(1, Signed(t))) else Failure(ValueError)
  {
    ParseAllEach([item], ParseTransaction, [t]);
    assert [t][1..] == [];
    assert NetFlow([t]) == Signed(t);
  }

  /**
   The batch of the demonstration, `["buy:100", "sell:150", "buy:75"]`:
   three operations, net flow 150 - 100 - 75 = -25.
   */
  lemma TransactionExample(batch: seq<string>)
    requires batch == ["buy:100", "sell:150", "buy:75"]
    ensures TransactionBatch(batch) == Success(TransactionSummary(3, -25))
  {
    var ts := [Txn("buy", 100), Txn("sell", 150), Txn("buy", 75)];
    ExampleParses(batch, ts);
    ExampleNetFlow(ts);
    ExampleNumbers();
  }

  lemma ExampleNetFlow(ts: seq<Txn>)
    requires ts == [Txn("buy", 100), Txn("sell", 150), Txn("buy", 75)]
    ensures NetFlow(ts) == -25
  {
    assert ts[1..][1..][1..] == [];
    assert NetFlow(ts[1..][1..]) == -75;
    assert NetFlow(ts[1..]) == 150 - 75;
  }

  lemma ExampleParses(batch: seq<string>, ts: seq<Txn>)
    requires batch == ["buy:100", "sell:150", "buy:75"]
    requires ts == [Txn("buy", 100), Txn("sell", 150), Txn("buy", 75)]
    ensures ParseTransactions(batch) == Success(ts)
  {
    ExampleItemParses(batch[0], "buy", 100);
    ExampleItemParses(batch[1], "sell", 150);
    ExampleItemParses(batch[2], "buy", 75);
    forall i | 0 <= i < |batch|
      ensures ParseTransaction(batch[i]) == Success(ts[i])
    {
      assert i == 0 || i == 1 || i == 2;
    }
    ParseAllEach(batch, ParseTransaction, ts);
  }

  /** One item of the demonstration batch parses to its action and amount. */
  lemma ExampleItemParses(item: string, action: string, n: int)
    requires (item, action, n) in {("buy:100", "buy", 100), ("sell:150", "sell", 150), ("buy:75", "buy", 75)}
    ensures ParseTransaction(item) == Success(Txn(action, n))
  {
    ExampleNumbers();
    ExampleItems();
    TransactionItemShown(action, n);
  }

  /** How `str()` renders the numbers of the demonstration batch. */
  lemma ExampleNumbers()
    ensures ShowInt(100) == "100" && ShowInt(150) == "150" && ShowInt(75) == "75"
    ensures WithinStrLimit(100) && WithinStrLimit(150) && WithinStrLimit(75) && WithinStrLimit(-25)
  {
    assert ShowNat(1) == "1" && ShowNat(7) == "7" && ShowNat(2) == "2";
    assert ShowNat(10) == ShowNat(1) + "0" == "10";
    assert ShowNat(15) == ShowNat(1) + "5" == "15";
    assert ShowNat(100) == ShowNat(10) + "0" == "100";
    assert ShowNat(150) == ShowNat(15) + "0" == "150";
    assert ShowNat(75) == ShowNat(7) + "5" == "75";
    assert ShowNat(25) == ShowNat(2) + "5" == "25";
  }

  /** The demonstration items are written `action:value`. */
  lemma ExampleItems()
    ensures "buy:100" == "buy" + ":" + "100"
    ensures "sell:150" == "sell" + ":" + "150"
    ensures "buy:75" == "buy" + ":" + "75"
  {
  }

  // ---------------------------------------------------------------------------
  // EventStream
  // ---------------------------------------------------------------------------

  /** `len([d for d in data if d == "error"])` */
  function ErrorCount(batch: seq<string>): nat {
    if batch == [] then 0 else (if batch[0] == "error" then 1 else 0) + ErrorCount(batch[1..])
  }

  /** `EventStream.process_batch`: the number of items and of items equal to "error". */
  function EventBatch(batch: seq<string>): (r: Summary)
    ensures r.EventSummary? && r.events == |batch|
    ensures r.errors == multiset(batch)["error"] && r.errors <= r.events
  {
    ErrorCountSpec(batch);
    EventSummary(|batch|, ErrorCount(batch))
  }

  /**
   The error count is the number of occurrences of exactly "error" in the
   batch; it is at most the batch size, and equal to it exactly when every
   item is "error".
   */
  lemma {:induction false} ErrorCountSpec(batch: seq<string>)
    ensures ErrorCount(batch) == multiset(batch)["error"]
    ensures ErrorCount(batch) <= |batch|
    ensures ErrorCount(batch) == |batch| <==> forall i :: 0 <= i < |batch| ==> batch[i] == "error"
    decreases |batch|
  {
    if batch != [] {
      ErrorCountSpec(batch[1..]);
      assert batch == [batch[0]] + batch[1..];
      assert forall i :: 1 <= i < |batch| ==> batch[i] == batch[1..][i - 1];
    }
  }

  // ---------------------------------------------------------------------------
  // Dispatch and the registry
  // ---------------------------------------------------------------------------

  /** `stream.process_batch(batch)`; the base class raises `NotImplementedError`. */
  function ProcessBatch(stream: DataStream, batch: seq<string>): (r: Result<Summary, StreamError>)
    ensures stream.kind.Generic? <==> r == Failure(NotImplementedError)
    ensures r.Success? ==> match r.value
      case SensorSummary(n, _) => n == |batch| && stream.kind == Sensor
      case TransactionSummary(n, _) => n == |batch| && stream.kind == Transaction
      case EventSummary(n, e) => n == |batch| && e <= n && stream.kind == Event
  {
    match stream.kind
    case Generic(_) => Failure(NotImplementedError)
    case Sensor => SensorBatch(batch)
    case Transaction => TransactionBatch(batch)
    case Event =>
      ErrorCountSpec(batch);
      Success(EventBatch(batch))
  }

  /**
   The label each subclass's constructor sets names the analysis its
   `process_batch` performs: a batch that goes through is summarised as
   sensor readings, operations or events exactly as the label says.
   */
  lemma SummaryMatchesStreamType(s: DataStream, batch: seq<string>)
    requires ProcessBatch(s, batch).Success?
    ensures var summary := ProcessBatch(s, batch).value;
      && (summary.SensorSummary? <==> StreamType(s) == "Environmental Data")
      && (summary.TransactionSummary? <==> StreamType(s) == "Financial Data")
      && (summary.EventSummary? <==> StreamType(s) == "System Events")
  {
    assert "Environmental Data"[0] == 'E' && "Financial Data"[0] == 'F' && "System Events"[0] == 'S';
  }

  /** A `StreamProcessor`: the streams in registration order. */
  datatype StreamProcessor = StreamProcessor(streams: seq<DataStream>)

  function NewStreamProcessor(): (sp: StreamProcessor)
    ensures |sp.streams| == 0
  {
    StreamProcessor([])
  }

  /** `register_stream`: appends; the earlier streams stay, in their order. */
  function RegisterStream(sp: StreamProcessor, stream: DataStream): (r: StreamProcessor)
    ensures |r.streams| == |sp.streams| + 1
    ensures r.streams[..|sp.streams|] == sp.streams
    ensures r.streams[|sp.streams|] == stream
  {
    StreamProcessor(sp.streams + [stream])
  }

  /** What `process_batches` reports: the sizes of the first three batches. */
  datatype BatchReport = BatchReport(sensorReadings: nat, transactionOperations: nat, eventCount: nat)

  /**
   `process_batches`: reports the lengths of batches 0, 1 and 2 (indexing a
   shorter list raises `IndexError`) and looks at nothing else.
   */
  function ProcessBatches(sp: StreamProcessor, batches: seq<seq<string>>): (r: Result<BatchReport, StreamError>)
    ensures r.Failure? <==> |batches| < 3
    ensures r.Failure? ==> r.error == IndexError
    ensures r.Success? ==> r.value == BatchReport(|batches[0]|, |batches[1]|, |batches[2]|)
  {
    if |batches| < 3 then Failure(IndexError)
    else Success(BatchReport(|batches[0]|, |batches[1]|, |batches[2]|))
  }

  /**
   `process_batches` never runs a stream: its report is the same whatever
   streams are registered, whatever the batches hold beyond the lengths of
   the first three, and whatever batches follow them.
   */
  lemma ProcessBatchesIgnoresStreams(sp1: StreamProcessor, sp2: StreamProcessor,
                                     b1: seq<seq<string>>, b2: seq<seq<string>>)
    requires |b1| >= 3 && |b2| >= 3
    requires forall i :: 0 <= i < 3 ==> |b1[i]| == |b2[i]|
    ensures ProcessBatches(sp1, b1) == ProcessBatches(sp2, b2)
    ensures ProcessBatches(sp1, b1).Success?
  {
    assert |b1[0]| == |b2[0]| && |b1[1]| == |b2[1]| && |b1[2]| == |b2[2]|;
  }
}
