# Performance feedback loop, adaptation selector and message protocol — a Dafny model

This project models the control loop of a module-monitoring system in Dafny. The loop has three parts:

- **`PerformanceFeedbackLoop`** keeps a bounded FIFO history of `(module_id, metrics)` samples. The deque is capped at 100 entries. `collect_metrics` checks that each sample has `latency`, `accuracy` and `throughput`. `analyze_performance` rates every module from its most recent sample: an accuracy below 0.8 means *Underperforming*, else a throughput above 100 means *Overloaded*, else the module is *Operational*. `dispatch_feedback` validates a feedback record.
- **`DynamicAdaptationMechanism`** turns the `status` of a feedback record into an adaptation strategy:
  - `critical` gives `replace` or `optimize`;
  - `warning` gives `reconfigure`;
  - any other status gives `no_action`.
- **`ModuleCommunicationProtocol`** encodes and decodes JSON, and the failures propagate to the caller. `receive_message` accepts a decoded message only when it has both `module_id` and `payload`. `send_feedback` stamps outgoing feedback with a timestamp.

Each Python object is a state record (`Loop`, `Mechanism`, `Protocol`) that passes through pure functions. A method that can return a value returns `Reply(state, value)`. When the method catches an exception, the value is `None` and the exception is recorded in the state's `lastError`, just as the Python code records it in `last_error`. Otherwise the value is what the method returns, with one exception: `send_feedback` returns nothing in Python, and its value is the timestamped record the method builds and hands to its simulated sending step. `collect_metrics` and `dispatch_feedback` always return `None`, so their models return only the new state. `encode_message` and `decode_message` touch no state and re-raise, so their models return a `Result`.

Some inputs are parameters in this model:
- `datetime.now().isoformat()` becomes a `now: string` parameter.
- `random.choice(["replace", "optimize"])` becomes a `pickFirst: bool` parameter.
- `json.loads` becomes a function parameter `loads: string -> Option<JsonValue>`.
- `json.dumps` becomes a function parameter `dumps: JsonValue -> Option<string>`.

Decoded values and metric values are a small `JsonValue` datatype. The Python operations the code applies to them are modelled with Python's meaning (module `Json`):
- `key in v` is dictionary membership, list membership or substring search, and raises `TypeError` for anything else.
- `v[key]` works only on dictionaries.
- `v < 0.8` compares numbers, counts booleans as 0 and 1, and raises `TypeError` for anything else.

Files:
- `wrappers.dfy`: `Option`, `Result`, `Reply`.
- `errors.dfy`: the exception kinds.
- `json.dfy`: `JsonValue` and the Python operations on it.
- `performance_feedback_loop.dfy`, `dynamic_adaptation_mechanism.dfy`, `module_communication_protocol.dfy`: one module per source file.

What the code does and does not do, as modelled:
- `collect_metrics` checks only that the three keys are present. It does no type or range checks, and it accepts extra keys.
- `assess_feedback` maps every status other than `critical` and `warning` to `no_action`. It does not reject unrecognised statuses.
- Errors are recorded in `last_error` and `None` is returned. No typed error reaches the caller, except from `encode_message` and `decode_message`, which re-raise.
- The code does not implement a JSON round-trip law. It only calls the library codec, so no round-trip is claimed here.
- `dispatch_feedback` only validates and logs. It builds no message.

## Model

| member | source | states |
|---|---|---|
| Json.Contains | module_communication_protocol.py:43 | Python's `key in v`. It is true for a dictionary exactly when the key is present. For a list it is true exactly when some element equals the key string. For a string it is true exactly when the key occurs at some position. It raises `TypeError` exactly for None, booleans and numbers. |
| Json.IsSubstringMeansOccurrence | module_communication_protocol.py:43 | The recursive substring test used for `in` on strings holds exactly when the key occurs at some index of the string. |
| Json.Subscript | module_communication_protocol.py:45 | `v[key]` succeeds exactly on a dictionary holding the key and yields that entry. On a dictionary without the key it raises `KeyError`. On any other value it raises `TypeError`. |
| Json.AsNumber | performance_feedback_loop.py:28-30 | A value can be ordered against a float exactly when it is a number or a boolean. Booleans count as 0 and 1. |
| PerformanceFeedbackLoop.Init | performance_feedback_loop.py:8-10 | A new loop has an empty history and no recorded error, and satisfies the store invariant (at most 100 entries, every entry has the three keys). |
| PerformanceFeedbackLoop.Append | performance_feedback_loop.py:9-17 | Appending to the capped deque gives min(n+1, 100) entries. The new entry is last, and the result is the newest suffix of old-plus-new. Below capacity this is plain appending. At capacity exactly the oldest entry is dropped. |
| PerformanceFeedbackLoop.CollectMetrics | performance_feedback_loop.py:12-21 | When all three keys are present: the sample ends the history, the newest older entries are kept in order before it, the size grows up to the cap, and `last_error` is unchanged. When any key is missing: the history is unchanged and `last_error` is the missing-keys `ValueError`. |
| PerformanceFeedbackLoop.CollectPreservesValid | performance_feedback_loop.py:9-17 | Collecting keeps the store invariant: at most 100 entries, and every stored sample has the three keys. |
| PerformanceFeedbackLoop.AcceptedAllValid | performance_feedback_loop.py:15-17 | A batch in which every sample has the three keys is accepted in full, in order. |
| PerformanceFeedbackLoop.CollectAllKeepsNewestAccepted | performance_feedback_loop.py:12-21 | After any batch of calls, the history is the newest 100 of the old history followed by the accepted samples, in arrival order. Rejected samples leave no trace. |
| PerformanceFeedbackLoop.CollectAllKeepsLastError | performance_feedback_loop.py:14-21 | A batch in which every sample has the three keys leaves `last_error` as it was. |
| PerformanceFeedbackLoop.OverflowDropsOldest | performance_feedback_loop.py:9-17 | Collecting 101 valid samples s1..s101 into a new loop leaves exactly s2..s101 and no error. |
| PerformanceFeedbackLoop.Reading | performance_feedback_loop.py:28-30 | Reading a metric for a comparison yields its number. A missing key raises `KeyError` and a non-numeric value raises `TypeError`. |
| PerformanceFeedbackLoop.ClassificationRule | performance_feedback_loop.py:28-33 | A sample is Underperforming exactly when accuracy < 0.8. It is Overloaded exactly when accuracy >= 0.8 and throughput > 100. It is Operational exactly when accuracy >= 0.8 and throughput <= 100. A failure carries the accuracy error first, then the throughput error. A sample that passed the key check can only fail with `TypeError`. |
| PerformanceFeedbackLoop.AccuracyTakesPrecedence | performance_feedback_loop.py:28-30 | A sample with accuracy below 0.8 is Underperforming whatever its throughput, even a missing or non-numeric one. |
| PerformanceFeedbackLoop.AnalyzeHistoryMeaning | performance_feedback_loop.py:26-33 | The analysis loop succeeds exactly when every sample classifies. On success its keys are exactly the module ids in the history. Each module maps to the classification of its latest sample (last write wins). On failure it reports the error of the first failing sample. |
| PerformanceFeedbackLoop.AnalyzePerformance | performance_feedback_loop.py:23-37 | Analysis never changes the history. On success it returns the timestamp plus the per-module map described above, and the state is unchanged. On failure it returns nothing and records the first failing sample's error, which is always `TypeError` in a valid store. An empty history gives an empty analysis. |
| PerformanceFeedbackLoop.AnalyzePerformanceAsWritten | performance_feedback_loop.py:34 | As written, analysis never returns a report. When the classification loop fails it records that loop's error; otherwise it records `NameError` for `datetime` once the loop has finished. The history is untouched. |
| PerformanceFeedbackLoop.EmptyAnalysisFailsAsWritten | performance_feedback_loop.py:34 | On a new loop the intended analysis reports an empty map. The method as written reports nothing and records `NameError`. |
| PerformanceFeedbackLoop.LatestSampleDecides | performance_feedback_loop.py:27-33 | Three samples of `m1` with accuracies 0.95, 0.85 and 0.7 are collected and analysed. The result is `{m1: Underperforming}`, decided by the last sample alone. |
| PerformanceFeedbackLoop.DispatchFeedback | performance_feedback_loop.py:39-48 | The history is never changed. Feedback that is a dictionary with `target_module` leaves the whole state unchanged. Any other feedback records the invalid-format `ValueError`. |
| DynamicAdaptationMechanism.Init | dynamic_adaptation_mechanism.py:8-10 | A new mechanism has no error. Its strategy list is exactly `reconfigure`, `replace`, `optimize`, so it contains both critical choices and not `no_action`. |
| DynamicAdaptationMechanism.AssessFeedback | dynamic_adaptation_mechanism.py:12-26 | No strategy is returned exactly when the feedback is not a dictionary with `status`. In that case only `last_error` changes, to the invalid-format `ValueError`. On success the state is unchanged. `critical` gives a critical choice, and that choice is `replace` exactly when the injected choice picks the first. `warning` gives `reconfigure`. Any other status gives `no_action`. |
| DynamicAdaptationMechanism.CriticalOutcomesReachable | dynamic_adaptation_mechanism.py:18-19 | On critical feedback both `replace` and `optimize` are reachable, one for each value of the choice. Whichever is returned is listed in `adaptation_strategies`. |
| DynamicAdaptationMechanism.DecidedByStatus | dynamic_adaptation_mechanism.py:12-23 | With the choice fixed, two feedback records with the same status, or both without one, get identical replies. |
| ModuleCommunicationProtocol.Init | module_communication_protocol.py:9-10 | A new protocol object has no recorded error. |
| ModuleCommunicationProtocol.EncodeMessage | module_communication_protocol.py:12-18 | Encoding succeeds exactly when the serializer accepts the message, and returns its text. A serializer failure is returned to the caller as an encode failure, not swallowed. |
| ModuleCommunicationProtocol.DecodeMessage | module_communication_protocol.py:20-26 | Decoding succeeds exactly when the parser accepts the text, and returns its value. A parse failure is returned to the caller as a decode failure, not swallowed. |
| ModuleCommunicationProtocol.LacksEnvelopeKey | module_communication_protocol.py:43 | For a dictionary, the key check reports a missing key exactly when `module_id` or `payload` is absent. It can only raise `TypeError`. |
| ModuleCommunicationProtocol.ReceiveMessage | module_communication_protocol.py:39-49 | A message is returned exactly when the text decodes to a dictionary with both `module_id` and `payload`, whatever their values. It is then the decoded value itself and the state is unchanged. Otherwise nothing is returned and an error is recorded: a decode failure is recorded as such, and a dictionary missing a key is recorded as the invalid-format `ValueError`. |
| ModuleCommunicationProtocol.ListNamingBothKeysRejected | module_communication_protocol.py:43-45 | A decoded list `["module_id", "payload"]` passes the `in` check, but indexing it for the log line raises `TypeError`, so the message is rejected. |
| ModuleCommunicationProtocol.SendFeedback | module_communication_protocol.py:28-37 | A record is built exactly when the feedback is a dictionary, and the state is then unchanged. Its keys are the feedback's keys plus `timestamp`, and every feedback entry keeps its value. The generated timestamp appears only when the feedback has no `timestamp` of its own. Unpacking a non-dictionary records `TypeError`. |

## Left out

- `apply_adaptation` (dynamic_adaptation_mechanism.py:28 onward) only logs and changes no state.
- Logging calls: they change no observable state. Only the `data["module_id"]` read inside the log line of `receive_message` is modelled, because it can raise.
- The JSON text codec (`json.dumps`, `json.loads`) is library code. It enters as function parameters, so no text format or round-trip law is modelled.
- Wall-clock time (`datetime.now()`) and randomness (`random.choice`) are parameters.
- `__main__` example blocks.
- Exception messages: `last_error` holds `str(e)` in the Python code. The model keeps the exception kind. It keeps the message text only for the `ValueError`s the Python code raises itself.
- Python object aliasing: the stored metrics dictionary could be mutated later by its caller. Samples here are immutable values.
- Floating point: accuracy and throughput are Dafny `real`, so NaN and infinities are not modelled.
- Metric and message values are JSON values. Arbitrary Python objects and their comparison rules (for example `Decimal`, or objects with custom `__lt__`) are not modelled.
- The type annotations are taken at face value: module ids and message texts are strings, and `collect_metrics` receives a dictionary. `assess_feedback`, `dispatch_feedback` and `send_feedback` accept any JSON value, and `receive_message` handles any decoded JSON value, because the code checks or relies on the value's type.
- Concurrency and locking: the code has none.
- SendFeedback: exposes the record `{"timestamp": now, **feedback}` as its value, while the Python call always returns `None`. The record is only logged by `send_feedback`; it is exposed so that the merge can be stated.
- Dictionary order: Python dictionaries keep insertion order, but the `analysis` map and the timestamped feedback record are unordered Dafny maps. Nothing in the code depends on that order.

## Findings

| source | as written | input that shows it | evidently intended | confidence | as-written member | corrected member |
|---|---|---|---|---|---|---|
| performance_feedback_loop.py:34 | `datetime.now()` is called, but the file never imports `datetime`. Building the report raises `NameError`, the `except` at line 35 records it, and `analyze_performance` always returns `None`. | Any call, for example on a new loop with an empty history | Return `{"timestamp": now, "analysis": ...}` with the per-module classification | high (not executed) | PerformanceFeedbackLoop.AnalyzePerformanceAsWritten | PerformanceFeedbackLoop.AnalyzePerformance |

The lemma `PerformanceFeedbackLoop.EmptyAnalysisFailsAsWritten` shows the discrepancy on a new loop. The corrected `AnalyzePerformance` is the version the rest of the model uses, for example in `LatestSampleDecides`.
