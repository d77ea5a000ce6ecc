# Code Nexus: processors, streams and pipelines in Dafny

This project models the three exercises of the Code Nexus system and proves
properties of the model.

- **Data processors** (`ex0/stream_processor.py`). `process` runs
  `validate`, then `analyze`, then `format_output`. The base processor
  accepts any value and echoes it after `Output: `. The numeric processor
  reports the count and sum of a list of numbers. The text processor
  reports a character count (length plus one) and a word count. The log
  processor splits a line at its first colon into an upper-cased level and a
  message, and tags `ERROR` lines as `ALERT`.
- **Batch streams** (`ex1/data_stream.py`). Each stream's `process_batch`
  computes a summary of a batch of strings:
  - the sensor stream reports the first `temp` reading;
  - the transaction stream reports the net flow, where a `sell` adds and any
    other action subtracts;
  - the event stream reports how many items are exactly `error`.

  A `StreamProcessor` registers streams and reports the sizes of the first
  three batches it is given.
- **Stage pipelines** (`ex2/nexus_pipeline.py`). A pipeline is an
  append-only list of stages. `process` folds `execute` over the stages in
  order. The adapters are pipelines with an id, and `NexusManager.run`
  dispatches to a pipeline's or an adapter's `process`.

The project has six files:

| file | contents |
|---|---|
| `wrappers.dfy` | `Option` and `Result` |
| `strings.dfy` | the `str` behaviour used by the code: `isspace`, `strip`, `upper`, `lower`, `join`, `startswith`, `split()`, `split(sep)`, `split(sep, 1)` |
| `numbers.dfy` | `str(int)`, and the literal grammars that `int()` and `float()` accept |
| `processors.dfy` | the processors |
| `streams.dfy` | the streams and the registry |
| `pipelines.dfy` | the pipeline, stages, adapters and manager |

Printing and the demonstration `main` functions are not modelled, with two
exceptions, both prints that can raise `ValueError` on an integer beyond the
digit limit described below:
- Unless a processor is built with `silent=True`, `process` first echoes its
  input (ex0/stream_processor.py:44-48). For a non-string that echo is
  `str(data)`, which raises before any step runs. `Process` therefore takes
  the `silent` flag.
- The transaction stream prints its net flow with `{net:+}`
  (ex1/data_stream.py:105-108). `TransactionBatch` fails with `ValueError`
  where that print raises.

What each operation prints is otherwise returned as data:
- a `Run` records the output and the steps `process` called;
- a `Summary` holds the numbers a stream prints;
- a `BatchReport` holds the three batch sizes `process_batches` prints;
- for `run` and the adapters, the model returns the sequence of stage
  executions (`Step`s) that the call performed.

Where a docstring and the code disagree, the model follows the code:
- `SensorStream.process_batch` is documented as calculating the average
  temperature (ex1/data_stream.py:59-60). The code reports `temps[0]`, the
  first temperature reading (line 67).
- `StreamProcessor.process_batches` is documented as processing the batches
  through the registered streams (ex1/data_stream.py:168). The code
  (lines 179-181) calls no stream. It prints the lengths of `batches[0]`,
  `batches[1]` and `batches[2]`, and fails with `IndexError` when fewer than
  three batches are given.
- `TextProcessor.analyze` is documented as counting the characters
  (ex0/stream_processor.py:198). The code reports `len(data) + 1` (line 207).
- `NumericProcessor.analyze` is documented as computing the average
  (ex0/stream_processor.py:135). The code divides by `len(data)` (line 146),
  so an empty list raises `ZeroDivisionError`, and a sum too large to be
  averaged into a float raises `OverflowError`.

Python's integers are unbounded, but CPython (3.11 and later, and the
security releases 3.10.7, 3.9.14, 3.8.14 and 3.7.14) refuses to convert an integer of more than 4300 decimal digits to or from a string.
The model keeps that limit: `int()` of a longer literal, and `str()` or an
f-string of a longer integer, raise `ValueError`.

## Model

| member | source | states |
|---|---|---|
| Strings.Strip | ex0/stream_processor.py:273-274 | `strip()` never makes a string longer. |
| Strings.StripSpec | ex0/stream_processor.py:273-274 | `strip()` returns what the independent description `IsStripOf` requires. The result is the contiguous middle slice of the input that starts at its first non-whitespace character. Everything cut off on either side is whitespace. The result has no whitespace at either end, and it is empty exactly when the input is all whitespace. |
| Strings.StripNoNewChars | ex0/stream_processor.py:273-274 | `strip()` introduces no character the input did not have. |
| Strings.StripUnchanged | ex0/stream_processor.py:273-274 | A string that has no whitespace at either end is its own `strip()`. |
| Strings.StripLeadingSpace | ex0/stream_processor.py:274 | A leading whitespace character does not change the result of `strip()`. |
| Strings.Upper | ex0/stream_processor.py:273 | `upper()` keeps the length and maps each character separately. |
| Strings.UpperShape | ex0/stream_processor.py:273 | After `upper()` no lower-case letter remains. Every changed character was lower-case and is now its capital, and whitespace is kept. |
| Strings.UpperUnchanged | ex0/stream_processor.py:273 | A string without lower-case letters is its own `upper()`. |
| Strings.IndexOf | ex0/stream_processor.py:271 | Returns the first occurrence of a character, or none exactly when the character is absent. |
| Strings.SplitOnce | ex0/stream_processor.py:271 | `split(sep, 1)` fails exactly when `sep` is absent. Otherwise it returns a separator-free head and the rest, which glue back into the input. |
| Strings.SplitOnceJoin | ex0/stream_processor.py:271 | `split(sep, 1)` of `before + sep + after`, with `before` separator-free, gives back `before` and `after`. |
| Strings.Split | ex1/data_stream.py:102 | `split(sep)` returns at least one field, no field contains `sep`, and joining the fields with `sep` gives back the input. |
| Strings.SplitCount | ex1/data_stream.py:102 | `split(sep)` returns one field more than the input has separators. |
| Strings.SplitJoin | ex1/data_stream.py:102 | `split(sep)` inverts `sep.join` on separator-free fields. |
| Strings.Words | ex0/stream_processor.py:208 | `split()` returns non-empty words without whitespace. |
| Strings.WordCountIsRunCount | ex0/stream_processor.py:208 | The number of words is the number of maximal non-whitespace runs. |
| Strings.WordsKeepNonSpace | ex0/stream_processor.py:208 | The words hold exactly the non-whitespace characters of the input, in order. |
| Strings.NoWordsIffAllSpace | ex0/stream_processor.py:208 | `split()` returns no words exactly when the input is all whitespace. |
| Numbers.ShowNat | ex0/stream_processor.py:159-160 | `str(n)` of a natural number is a non-empty run of digits with no leading zero. |
| Numbers.ShowInt | ex0/stream_processor.py:159-160 | `str(n)` starts with a minus sign exactly when `n` is negative. The rest is a run of digits whose length is the digit count of `n` and whose value is the magnitude of `n`. It contains no whitespace. |
| Numbers.ShowNatValue | ex0/stream_processor.py:159-160 | Reading back the digits of `str(n)` gives `n`. |
| Numbers.ShowIntInjective | ex0/stream_processor.py:159-160 | Distinct integers render differently. |
| Numbers.ParseShowInt | ex1/data_stream.py:103 | `int(str(n)) == n` for every `n` of at most 4300 digits. Beyond that limit, `int()` raises `ValueError`. |
| Numbers.ParseDigits | ex1/data_stream.py:103 | `int()` of a run of at most 4300 digits is the number the digits denote. A longer run raises `ValueError`. |
| Numbers.ParseNegativeDigits | ex1/data_stream.py:103 | `int()` of a minus sign and at most 4300 digits is the negated number. More digits raise `ValueError`. |
| Numbers.Magnitude | ex1/data_stream.py:103 | `int()` yields a value exactly when the literal, without its underscores, has at most 4300 digits. |
| Numbers.DropUnderscores | ex1/data_stream.py:103 | Removing the grouping underscores leaves only digits. An all-digit literal is unchanged. |
| Numbers.DropUnderscoresAppend | ex1/data_stream.py:103 | Removing underscores distributes over concatenation, so the digits keep their order. |
| Numbers.DropUnderscoresChar | ex1/data_stream.py:103 | An underscore disappears and a digit stays. With `DropUnderscoresAppend`, this fixes the result on every input. |
| Numbers.InfoSeparatorPadding | ex1/data_stream.py:66-103 | The `float()` at line 66 and the `int()` at line 103 both raise on text that starts with any one of the information separators U+001C to U+001F, although `isspace()` holds for them. |
| Numbers.IntLiteralIsFloatLiteral | ex1/data_stream.py:66 | Every literal `int()` accepts, underscores, sign and surrounding whitespace included, is also accepted by `float()`. |
| Numbers.SpacePadding | ex1/data_stream.py:66 | A leading space changes neither the result of `int()` nor whether `float()` accepts the text. |
| Numbers.ShowIntIsFloatLiteral | ex1/data_stream.py:66 | Every integer `str()` renders is accepted by `float()`. |
| Processors.ValidateNumericAppend | ex0/stream_processor.py:116-130 | The numeric `validate` passes a concatenation of lists exactly when it passes both parts. It passes a one-item list exactly when the item is an `int` (or `bool`). |
| Processors.ValidateLogIffSplits | ex0/stream_processor.py:243-271 | The log `validate` passes exactly the strings that `split(":", 1)` can split into two parts, so `analyze` never meets an unsplittable line. |
| Processors.Repr | ex0/stream_processor.py:96 | `repr` of a string inside a list wraps the text, without escapes, in one pair of quotes. These are double quotes exactly when the text holds a single quote and no double quote, and single quotes otherwise. |
| Processors.BasePassesThrough | ex0/stream_processor.py:44-96 | The base `validate` accepts everything. Whether silent or not, `process` returns `Output: ` followed by `str(data)`. A string comes back verbatim, and an integer can be read back with `int()`. It raises `ValueError` exactly when the value holds an integer beyond the 4300-digit limit. |
| Processors.Analyze | ex0/stream_processor.py:70-275 | On validated input, `analyze` fails only for the numeric processor. An empty list raises `ZeroDivisionError`. A sum whose average overflows a float raises `OverflowError`. On success it returns the result shape of that processor. |
| Processors.AverageOverflowsIffQuotient | ex0/stream_processor.py:146 | The overflow test holds exactly when the exact quotient `sum / count` has magnitude at least 2^1024 - 2^970, the point from which true division rounds to infinity. |
| Processors.NumericOverflowExample | ex0/stream_processor.py:44-146 | A one-item list whose item is at least that bound, such as `[10**400]`, raises `OverflowError`. A non-silent processor raises `ValueError` in its echo instead, when the item is beyond the digit limit. |
| Processors.Format | ex0/stream_processor.py:96 | Every `format_output` starts with `Output: `. |
| Processors.Process | ex0/stream_processor.py:44-54 | Unless silent, `process` raises `ValueError` before calling anything exactly when `str()` cannot echo the input. Otherwise it calls validate, analyze and format in that order, as a prefix of that sequence. It calls analyze exactly when validation passes. It returns "Invalid data" exactly when validation fails. Otherwise it returns the formatted analysis, or the analysis's exception. It raises `ValueError` when the output would hold an integer beyond the digit limit. |
| Processors.SumAppend | ex0/stream_processor.py:145 | `sum` is additive over list concatenation. |
| Processors.NumericOutcome | ex0/stream_processor.py:44-161 | The numeric processor accepts exactly the lists of numbers, including the empty list. Unless silent, a list holding an integer beyond the digit limit raises `ValueError` in the echo, before any step. Otherwise the empty list raises `ZeroDivisionError` after validate and analyze. An overflowing average raises `OverflowError` after the same two steps. Any other list reports its length and sum, unless one of them is beyond the digit limit. |
| Processors.EchoBeyondDigitLimit | ex0/stream_processor.py:44-54 | For `[x, -x]` with `x` beyond the digit limit, a silent numeric processor reports two values with sum 0, while a non-silent one raises `ValueError` in its echo without calling any step. |
| Processors.NumericFormatInjective | ex0/stream_processor.py:158-161 | The numeric output determines the count and the sum it reports. |
| Processors.NumericExample | ex0/stream_processor.py:305 | `[1, 2, 3, 4, 5]` is valid, is analysed as count 5 and sum 15, and is formatted without error. |
| Processors.TextCounts | ex0/stream_processor.py:206-209 | The text processor reports length plus one and the number of non-whitespace runs. The run count is zero exactly for all-whitespace text. |
| Processors.TextFormatInjective | ex0/stream_processor.py:220-223 | The text output determines both counts it reports. |
| Processors.LogSplitsAtFirstColon | ex0/stream_processor.py:271-275 | A line is split at its first colon. The level is the text before the colon, stripped and upper-cased; the message is the rest, stripped. |
| Processors.LogEntryShape | ex0/stream_processor.py:254-275 | The log processor accepts exactly the strings that contain a colon. The reported level contains no colon, no lower-case letter and no whitespace at either end. The message has no whitespace at either end. |
| Processors.LogTagByLevel | ex0/stream_processor.py:288-292 | The output is tagged `[ALERT]` exactly when the level is `ERROR`, and `[INFO]` otherwise. |
| Processors.LogAlertIff | ex0/stream_processor.py:271-292 | End to end, a line is an ALERT exactly when its stripped, upper-cased text before the first colon is `ERROR`. |
| Processors.LogCanonicalLine | ex0/stream_processor.py:311 | `LEVEL: message`, with an upper-case level and a message with no whitespace at either end, is reported as exactly that level and message. |
| Pipelines.Execute | ex2/nexus_pipeline.py:44-95 | `InputStage`, `TransformStage` and `OutputStage` return their input unchanged. Any other stage applies its own `execute`. |
| Pipelines.NewPipeline | ex2/nexus_pipeline.py:14-16 | A new pipeline has no stages. |
| Pipelines.AddStage | ex2/nexus_pipeline.py:18-24 | `add_stage` appends one stage and keeps the earlier stages in order. |
| Pipelines.RunStages | ex2/nexus_pipeline.py:26-41 | The `for` loop of `process` computes the left fold of `execute` over the stages. |
| Pipelines.FoldAppend | ex2/nexus_pipeline.py:38-41 | Running stages `a + b` is running `a`, then running `b` on its result. |
| Pipelines.ProcessEmpty | ex2/nexus_pipeline.py:14-41 | A pipeline without stages returns its input. |
| Pipelines.ProcessAddStage | ex2/nexus_pipeline.py:18-41 | Adding a stage applies exactly one more `execute`, of that stage, to the result of the existing ones. |
| Pipelines.ProcessCustom | ex2/nexus_pipeline.py:18-41 | A pipeline holding one stage of any kind returns that stage's `execute` of its input. |
| Pipelines.ProcessIsIdentity | ex2/nexus_pipeline.py:44-95 | A pipeline built only from `InputStage`, `TransformStage` and `OutputStage` returns its input, whatever its length. |
| Pipelines.TraceFollowsStages | ex2/nexus_pipeline.py:38-41 | `process` executes each stage once, in order. Each stage receives the previous stage's output, and the last output is the result. |
| Pipelines.TraceAppend | ex2/nexus_pipeline.py:38-41 | The executions for stages `a + b` are those for `a`, followed by those for `b` starting from `a`'s result. |
| Pipelines.NewAdapter | ex2/nexus_pipeline.py:108-115 | A new adapter has its kind and id and no stages. |
| Pipelines.AdapterAddStage | ex2/nexus_pipeline.py:18-24 | An adapter's inherited `add_stage` appends one stage and keeps its kind and id. |
| Pipelines.AdapterProcessAddStage | ex2/nexus_pipeline.py:117-200 | After `add_stage`, an adapter's `process` performs the same executions as before, plus one of the new stage on the previous result. |
| Pipelines.Run | ex2/nexus_pipeline.py:214-224 | `run` executes exactly the target's stages, in order. The first stage receives the data, each later stage receives the previous stage's output, and each output is that stage's `execute` of its input. For an adapter it is the adapter's `process`; for a plain pipeline it ends with `process`'s result. |
| Streams.SummaryMatchesStreamType | ex1/data_stream.py:46-140 | When a stream's `process_batch` goes through, its summary is of sensor readings, operations or events exactly when the stream's `stream_type` is "Environmental Data", "Financial Data" or "System Events". |
| Streams.TempValues | ex1/data_stream.py:66 | The comprehension's only failures are `IndexError` (no second field) and `ValueError` (not a float). |
| Streams.FirstInvalidReading | ex1/data_stream.py:66 | Finds the first item that starts with `temp` but has no second field `float()` accepts. It finds none exactly when every such item is valid. |
| Streams.TempValuesError | ex1/data_stream.py:66 | The comprehension fails exactly when some `temp` item is invalid. The first such item decides the exception: `IndexError` when it has no colon, `ValueError` otherwise. |
| Streams.TempValuesSucceeds | ex1/data_stream.py:66 | The comprehension succeeds exactly when every item that starts with `temp` has a second field `float()` accepts. |
| Streams.SensorBatch | ex1/data_stream.py:56-71 | A sensor batch reports one reading per item and never raises `NotImplementedError`. |
| Streams.SensorBatchSpec | ex1/data_stream.py:56-71 | A sensor batch succeeds exactly when every `temp` item is valid. It then counts every item and reports the value field of the first `temp` item, or none when there is no such item. |
| Streams.SensorIgnoresOtherItems | ex1/data_stream.py:66 | Inserting an item that does not start with `temp` changes nothing in the readings. |
| Streams.ParseTransaction | ex1/data_stream.py:102-103 | A malformed transaction item raises `ValueError` and nothing else. |
| Streams.ParseAllSpec | ex1/data_stream.py:101-104 | Parsing a batch succeeds exactly when every item parses, and yields one result per item, in order. A failure is the failure of some item. |
| Streams.ParseAllEach | ex1/data_stream.py:101-104 | When every item parses to a given value, the batch parses to those values, in order. |
| Streams.ParseAllAppend | ex1/data_stream.py:101-104 | Parsing `a + b` succeeds exactly when both halves parse, and concatenates their results. |
| Streams.TransactionItemSpec | ex1/data_stream.py:102-103 | `action:value` with colon-free parts parses exactly when `int(value)` succeeds, giving that action and integer. |
| Streams.TransactionItemShown | ex1/data_stream.py:102-103 | `action:str(n)` parses back to `action` and `n` when `n` has at most 4300 digits, and raises `ValueError` otherwise. |
| Streams.TransactionNeedsOneColon | ex1/data_stream.py:102 | An item with no colon or with several colons raises `ValueError`. |
| Streams.NetFlowAppend | ex1/data_stream.py:100-104 | The net flow is additive over concatenation. |
| Streams.NetFlowRemove | ex1/data_stream.py:104 | Removing one transaction removes its signed amount from the net flow. A `sell` counts positive, any other action negative. |
| Streams.NetFlowPermutation | ex1/data_stream.py:100-104 | The net flow does not depend on the order of the transactions. |
| Streams.TransactionBatch | ex1/data_stream.py:90-108 | A transaction batch reports one operation per item. Its only failure is `ValueError`. The net flow it reports is within the digit limit, since printing it with `{net:+}` raises otherwise. |
| Streams.TransactionBatchSingle | ex1/data_stream.py:100-108 | A one-item batch reports one operation and the item's signed amount: `+value` for `sell`, `-value` for any other action. It raises `ValueError` when that amount is beyond the digit limit. With `TransactionBatchAppend` this fixes the net flow of every batch. |
| Streams.TransactionBatchAppend | ex1/data_stream.py:90-108 | A batch parses exactly when both halves do, and its net flow is then the sum of theirs. When all three batches succeed, the counts and net flows add up. The empty batch reports 0 operations and net flow 0. |
| Streams.TransactionExample | ex1/data_stream.py:197 | `["buy:100", "sell:150", "buy:75"]` reports 3 operations and net flow -25. |
| Streams.EventBatch | ex1/data_stream.py:127-140 | An event batch reports one event per item. Its error count is the number of items equal to `"error"`, so it never exceeds the event count. |
| Streams.ErrorCountSpec | ex1/data_stream.py:136 | The error count is the multiplicity of `"error"` in the batch and is at most the batch size. It equals the batch size exactly when every item is `"error"`. |
| Streams.ProcessBatch | ex1/data_stream.py:25-37 | Dispatch fails with `NotImplementedError` exactly for the base stream. Each subclass reports the batch size in its own summary, and the error count never exceeds it. |
| Streams.NewStreamProcessor | ex1/data_stream.py:153-155 | A new registry has no streams. |
| Streams.RegisterStream | ex1/data_stream.py:157-163 | Registration appends one stream and keeps the earlier streams in order. |
| Streams.ProcessBatches | ex1/data_stream.py:165-181 | `process_batches` fails, with `IndexError`, exactly when fewer than three batches are given. Otherwise it reports the lengths of batches 0, 1 and 2, in that order. |
| Streams.ProcessBatchesIgnoresStreams | ex1/data_stream.py:179-181 | The report depends only on the lengths of the first three batches. It does not depend on the registered streams, on batch contents, or on any further batches. |

## Left out

- The other prints, the processors' `name` strings and the demonstration `main` functions: they are output only, apart from the adapters' echo below. The values they print are returned as data instead. The fixed lines printed by the numeric, text and log `validate` cannot raise.
- Processors.Format: the numeric output stops after `sum=`. The `, avg=` part would need Python's float `repr` of `sum / count`, and floating point is not modelled.
- Floats as list items of the numeric processor: `Value` has no float case. `bool` items are included, since Python treats them as `int`s.
- Processors.Repr: `repr` is modelled only for the quoting of strings inside a list. Escapes are not modelled: a backslash, an unprintable character, or a text holding both kinds of quote is shown without the escapes `repr` adds. A list item of another type is shown with `str`.
- Strings.Upper: only ASCII letters are upper-cased. Python's full Unicode case mapping, including mappings that change the length, is not modelled.
- Numbers.ParseInt: only ASCII digits are accepted, while Python also accepts other Unicode decimal digits. `Numbers.IsFloatLiteral` has the same restriction.
- Streams.SensorBatch: the reading is reported as the validated literal text, not converted to a float. When there is no reading the summary holds none, where the code prints `0.0`.
- Processors.Analyze: it is defined only on validated inputs. That is the input type its annotation states, and the only way `process` calls it.
- The adapters' `process` methods print their input (`Input: {data}` at ex2/nexus_pipeline.py:127 and 197, `Input: "{data}"` at line 162), print fixed lines, and return `None`. The model keeps only the stage executions they perform. The echo at lines 127 and 197 uses `str()`, which raises `ValueError` for data holding an integer beyond the digit limit, such as a dict at line 127; no stage then runs. `Pipelines.AdapterProcess` and `Pipelines.Run` do not model that failure and report every stage executing, because a stage's data is a type parameter that the model does not render.
- Execution by `run` of objects other than pipelines and adapters: the code accepts any object with a `process` method.
- Stages whose `execute` raises, prints or keeps state: a `Custom` stage is a total function from input to output.
- Processors.Show: an `Other` value stands for an object of any other type and carries its `str` text ready-made, so the digit limit is not checked inside it.
- The digit limit is taken at CPython's default of 4300. Changing it with `sys.set_int_max_str_digits` is not modelled, and neither are the releases that lack it: 3.10 before 3.10.7, 3.9 before 3.9.14, 3.8 before 3.8.14, 3.7 before 3.7.14, and every older version.
