/** The metrics store and analyzer: a bounded FIFO history of
    (module id, metrics) samples and a classifier that rates every module by
    its most recent sample. */
module PerformanceFeedbackLoop {
  import opened Wrappers
  import opened Errors
  import opened Json

  /** The `maxlen` of the history deque. */
  const Capacity: nat := 100
  /** Below this accuracy a module is underperforming. */
  const AccuracyFloor: real := 0.8
  /** Above this throughput an accurate module is overloaded. */
  const ThroughputCeiling: real := 100.0

  const MissingMetricsKeys: string := "Missing required metrics keys"
  const InvalidFeedbackFormat: string := "Invalid feedback format"

  type Metrics = map<string, JsonValue>

  datatype Sample = Sample(moduleId: string, metrics: Metrics)

  datatype Classification = Underperforming | Overloaded | Operational

  /** The state of a `PerformanceFeedbackLoop` object. */
  datatype Loop = Loop(history: seq<Sample>, lastError: Option<Error>)

  /** What `analyze_performance` returns: `{"timestamp": ..., "analysis": ...}`. */
  datatype Report = Report(timestamp: string, analysis: map<string, Classification>)

  /** The three keys `collect_metrics` insists on; extra keys are allowed and
      the values are not range-checked. */
  predicate HasRequiredKeys(m: Metrics) {
    "latency" in m && "accuracy" in m && "throughput" in m
  }

  /** The store invariant: within capacity, and every stored sample passed
      the key check. */
  predicate Valid(l: Loop) {
    && |l.history| <= Capacity
    && forall i :: 0 <= i < |l.history| ==> HasRequiredKeys(l.history[i].metrics)
  }

  function Min(a: int, b: int): int {
    if a <= b then a else b
  }

  /** The newest `n` elements of `s` (all of `s` when it is shorter). */
  function Newest<T>(s: seq<T>, n: nat): (r: seq<T>)
    ensures |r| == Min(|s|, n)
  {
    if |s| <= n then s else s[|s| - n..]
  }

  /** The module ids that occur in a history. */
  function ModuleIds(h: seq<Sample>): set<string> {
    set i | 0 <= i < |h| :: h[i].moduleId
  }

  /** No later sample in `h` comes from the same module as `h[i]`. */
  predicate IsLatestFor(h: seq<Sample>, i: int)
    requires 0 <= i < |h|
  {
    forall j :: i < j < |h| ==> h[j].moduleId != h[i].moduleId
  }

  // ---------------------------------------------------------------------
  // Construction and ingestion
  // ---------------------------------------------------------------------

  /** `__init__`: an empty history and no recorded error. */
  function Init(): (l: Loop)
    ensures Valid(l)
    ensures |l.history| == 0 && l.lastError.None?
  {
    Loop([], None)
  }

  /** `deque.append` on a deque with `maxlen == Capacity`: the new element
      goes last and, when the deque is full, the oldest one drops off. */
  function Append(h: seq<Sample>, e: Sample): (h': seq<Sample>)
    ensures |h'| == Min(|h| + 1, Capacity)
    ensures h'[|h'| - 1] == e
    ensures h' == (h + [e])[|h| + 1 - |h'|..]
    ensures |h| < Capacity ==> h' == h + [e]
    ensures |h| == Capacity ==> h' == h[1..] + [e]
  {
    Newest(h + [e], Capacity)
  }

  /** `collect_metrics(module_id, metrics)`. */
  function CollectMetrics(l: Loop, moduleId: string, metrics: Metrics): (r: Loop)
    ensures HasRequiredKeys(metrics) ==>
      && r.lastError == l.lastError
      && |r.history| == Min(|l.history| + 1, Capacity)
      && r.history[|r.history| - 1] == Sample(moduleId, metrics)
      && r.history[..|r.history| - 1] == Newest(l.history, |r.history| - 1)
    ensures !HasRequiredKeys(metrics) ==>
      && r.history == l.history
      && r.lastError == Some(ValueError(MissingMetricsKeys))
  {
    if HasRequiredKeys(metrics) then
      var h' := Append(l.history, Sample(moduleId, metrics));
      assert h'[..|h'| - 1] == Newest(l.history, |h'| - 1);
      l.(history := h')
    else
      l.(lastError := Some(ValueError(MissingMetricsKeys)))
  }

  /** `collect_metrics` keeps the store invariant: the cap holds and only
      samples with the three keys get in. */
  lemma CollectPreservesValid(l: Loop, moduleId: string, metrics: Metrics)
    requires Valid(l)
    ensures Valid(CollectMetrics(l, moduleId, metrics))
  {
    if HasRequiredKeys(metrics) {
      var e := Sample(moduleId, metrics);
      var s := l.history + [e];
      var h := Append(l.history, e);
      forall i | 0 <= i < |h| ensures HasRequiredKeys(h[i].metrics) {
        var j := |s| - |h| + i;
        assert h[i] == s[j];
        if j < |l.history| {
          assert s[j] == l.history[j];
        }
      }
    }
  }

  /** The samples of a batch that pass the key check, in order. */
  function Accepted(batch: seq<Sample>): (r: seq<Sample>)
    ensures |r| <= |batch|
    ensures forall i :: 0 <= i < |r| ==> HasRequiredKeys(r[i].metrics)
  {
    if |batch| == 0 then []
    else
      var rest := Accepted(batch[..|batch| - 1]);
      if HasRequiredKeys(batch[|batch| - 1].metrics) then rest + [batch[|batch| - 1]] else rest
  }

  /** `collect_metrics` called once per sample of `batch`, in order. */
  function CollectAll(l: Loop, batch: seq<Sample>): Loop {
    if |batch| == 0 then l
    else
      var last := batch[|batch| - 1];
      CollectMetrics(CollectAll(l, batch[..|batch| - 1]), last.moduleId, last.metrics)
  }

  /** Trimming before an append and trimming after it agree. */
  lemma NewestOfNewest<T>(s: seq<T>, e: T, n: nat)
    requires n > 0
    ensures Newest(Newest(s, n) + [e], n) == Newest(s + [e], n)
  {
  }

  /** A batch of well-formed samples is accepted in full. */
  lemma {:induction false} AcceptedAllValid(batch: seq<Sample>)
    requires forall i :: 0 <= i < |batch| ==> HasRequiredKeys(batch[i].metrics)
    ensures Accepted(batch) == batch
  {
    if |batch| > 0 {
      var prefix := batch[..|batch| - 1];
      assert forall i :: 0 <= i < |prefix| ==> prefix[i] == batch[i];
      AcceptedAllValid(prefix);
      assert prefix + [batch[|batch| - 1]] == batch;
    }
  }

  /** After a batch of calls the history holds the newest `Capacity` of all
      accepted samples, old and new, in arrival order; rejected samples leave
      no trace in it. */
  lemma {:induction false} CollectAllKeepsNewestAccepted(l: Loop, batch: seq<Sample>)
    requires |l.history| <= Capacity
    ensures CollectAll(l, batch).history == Newest(l.history + Accepted(batch), Capacity)
  {
    if |batch| == 0 {
      assert l.history + Accepted(batch) == l.history;
    } else {
      var prefix := batch[..|batch| - 1];
      var last := batch[|batch| - 1];
      CollectAllKeepsNewestAccepted(l, prefix);
      if HasRequiredKeys(last.metrics) {
        NewestOfNewest(l.history + Accepted(prefix), last, Capacity);
        assert l.history + Accepted(batch) == (l.history + Accepted(prefix)) + [last];
      } else {
        assert Accepted(batch) == Accepted(prefix);
      }
    }
  }

  /** A batch in which every sample passes the key check records no error:
      `last_error` keeps whatever value it had before. */
  lemma {:induction false} CollectAllKeepsLastError(l: Loop, batch: seq<Sample>)
    requires forall s :: s in batch ==> HasRequiredKeys(s.metrics)
    ensures CollectAll(l, batch).lastError == l.lastError
  {
    if |batch| > 0 {
      var prefix := batch[..|batch| - 1];
      assert forall s :: s in prefix ==> s in batch;
      CollectAllKeepsLastError(l, prefix);
    }
  }

  /** Strict FIFO eviction: collecting `Capacity + 1` valid samples into a
      fresh loop leaves exactly the last `Capacity` of them. */
  lemma OverflowDropsOldest(batch: seq<Sample>)
    requires |batch| == Capacity + 1
    requires forall i :: 0 <= i < |batch| ==> HasRequiredKeys(batch[i].metrics)
    ensures CollectAll(Init(), batch).history == batch[1..]
    ensures CollectAll(Init(), batch).lastError.None?
  {
    AcceptedAllValid(batch);
    CollectAllKeepsNewestAccepted(Init(), batch);
    CollectAllKeepsLastError(Init(), batch);
    assert Init().history + batch == batch;
  }

  // ---------------------------------------------------------------------
  // Analysis
  // ---------------------------------------------------------------------

  /** `metrics[key]` read as a number for a comparison: `KeyError` when the
      key is missing, `TypeError` when the value cannot be ordered against a
      float. */
  function Reading(m: Metrics, key: string): (r: Result<real, Error>)
    ensures key !in m ==> r == Failure(KeyError(key))
    ensures key in m ==> (r.Success? <==> AsNumber(m[key]).Some?)
    ensures r.Success? ==> key in m && r.value == AsNumber(m[key]).value
    ensures key in m && r.Failure? ==> r.error == TypeError
  {
    if key !in m then Failure(KeyError(key))
    else match AsNumber(m[key])
      case Some(x) => Success(x)
      case None => Failure(TypeError)
  }

  /** One step of the loop in `analyze_performance`: accuracy is checked
      first, throughput only for accurate modules. */
  function Classify(m: Metrics): Result<Classification, Error>
  {
    match Reading(m, "accuracy")
    case Failure(e) => Failure(e)
    case Success(accuracy) =>
      if accuracy < AccuracyFloor then Success(Underperforming)
      else match Reading(m, "throughput")
        case Failure(e) => Failure(e)
        case Success(throughput) =>
          if throughput > ThroughputCeiling then Success(Overloaded) else Success(Operational)
  }

  /** What `Classify` decides: each class exactly when its readings say so,
      and on failure the error of the first reading that failed, which is
      `TypeError` once both keys are present. */
  lemma ClassificationRule(m: Metrics)
    ensures Classify(m) == Success(Underperforming) <==>
      Reading(m, "accuracy").Success? && Reading(m, "accuracy").value < AccuracyFloor
    ensures Classify(m) == Success(Overloaded) <==>
      && Reading(m, "accuracy").Success? && Reading(m, "accuracy").value >= AccuracyFloor
      && Reading(m, "throughput").Success? && Reading(m, "throughput").value > ThroughputCeiling
    ensures Classify(m) == Success(Operational) <==>
      && Reading(m, "accuracy").Success? && Reading(m, "accuracy").value >= AccuracyFloor
      && Reading(m, "throughput").Success? && Reading(m, "throughput").value <= ThroughputCeiling
    ensures Classify(m).Failure? ==>
      Classify(m).error == (if Reading(m, "accuracy").Failure? then Reading(m, "accuracy").error
                            else Reading(m, "throughput").error)
    ensures HasRequiredKeys(m) && Classify(m).Failure? ==> Classify(m).error == TypeError
  {
  }

  /** An inaccurate module is underperforming whatever its throughput, even a
      missing or non-numeric one. */
  lemma AccuracyTakesPrecedence(m: Metrics, throughput: JsonValue)
    requires "accuracy" in m && AsNumber(m["accuracy"]).Some?
    requires AsNumber(m["accuracy"]).value < AccuracyFloor
    ensures Classify(m) == Success(Underperforming)
    ensures Classify(m["throughput" := throughput]) == Success(Underperforming)
    ensures Classify(m - {"throughput"}) == Success(Underperforming)
  {
  }

  /** `h[i]` is the first sample of `h` whose classification raises. */
  predicate IsFirstFailure(h: seq<Sample>, i: int)
    requires 0 <= i < |h|
  {
    && Classify(h[i].metrics).Failure?
    && forall j :: 0 <= j < i ==> Classify(h[j].metrics).Success?
  }

  /** The loop of `analyze_performance` over a history, in insertion order:
      each sample overwrites its module's entry, and the first sample whose
      classification raises aborts the whole loop. Its properties are those
      of `AnalyzeHistoryMeaning`. */
  function AnalyzeHistory(h: seq<Sample>): Result<map<string, Classification>, Error> {
    if |h| == 0 then Success(map[])
    else
      match AnalyzeHistory(h[..|h| - 1])
      case Failure(e) => Failure(e)
      case Success(a) =>
        match Classify(h[|h| - 1].metrics)
        case Failure(e) => Failure(e)
        case Success(c) => Success(a[h[|h| - 1].moduleId := c])
  }

  /** The analysis succeeds exactly when every sample classifies; it then
      has one entry per module in the history, holding the classification of
      that module's latest sample (last write wins); otherwise it reports the
      error of the first sample that fails. */
  lemma {:induction false} AnalyzeHistoryMeaning(h: seq<Sample>)
    ensures AnalyzeHistory(h).Success? <==> forall i :: 0 <= i < |h| ==> Classify(h[i].metrics).Success?
    ensures AnalyzeHistory(h).Success? ==> AnalyzeHistory(h).value.Keys == ModuleIds(h)
    ensures AnalyzeHistory(h).Success? ==> forall i :: 0 <= i < |h| && IsLatestFor(h, i) ==>
      AnalyzeHistory(h).value[h[i].moduleId] == Classify(h[i].metrics).value
    ensures AnalyzeHistory(h).Failure? ==>
      exists i :: 0 <= i < |h| && IsFirstFailure(h, i) && AnalyzeHistory(h).error == Classify(h[i].metrics).error
  {
    AnalysisOutcome(h);
    AnalysisEntries(h);
  }

  /** The outcome half of `AnalyzeHistoryMeaning`: success exactly when
      every sample classifies, otherwise the error of the first failure. */
  lemma {:induction false} AnalysisOutcome(h: seq<Sample>)
    ensures AnalyzeHistory(h).Success? <==> forall i :: 0 <= i < |h| ==> Classify(h[i].metrics).Success?
    ensures AnalyzeHistory(h).Failure? ==>
      exists i :: 0 <= i < |h| && IsFirstFailure(h, i) && AnalyzeHistory(h).error == Classify(h[i].metrics).error
  {
    if |h| > 0 {
      var prefix := h[..|h| - 1];
      AnalysisOutcome(prefix);
      assert forall i :: 0 <= i < |prefix| ==> prefix[i] == h[i];
      if AnalyzeHistory(prefix).Failure? {
        FirstFailureExtends(h);
      } else if Classify(h[|h| - 1].metrics).Failure? {
        assert IsFirstFailure(h, |h| - 1);
      }
    }
  }

  /** The entries half of `AnalyzeHistoryMeaning`: a successful analysis has
      one entry per module, holding its latest sample's classification. */
  lemma {:induction false} AnalysisEntries(h: seq<Sample>)
    ensures AnalyzeHistory(h).Success? ==> AnalyzeHistory(h).value.Keys == ModuleIds(h)
    ensures AnalyzeHistory(h).Success? ==> forall i :: 0 <= i < |h| && IsLatestFor(h, i) ==>
      Classify(h[i].metrics) == Success(AnalyzeHistory(h).value[h[i].moduleId])
  {
    if |h| > 0 && AnalyzeHistory(h).Success? {
      var prefix := h[..|h| - 1];
      AnalysisEntries(prefix);
      assert forall i :: 0 <= i < |prefix| ==> prefix[i] == h[i];
      ModuleIdsOfExtension(h);
      LatestInExtension(h);
    }
  }

  lemma FirstFailureExtends(h: seq<Sample>)
    requires |h| > 0
    ensures forall i :: 0 <= i < |h| - 1 && IsFirstFailure(h[..|h| - 1], i) ==> IsFirstFailure(h, i)
  {
  }

  lemma ModuleIdsOfExtension(h: seq<Sample>)
    requires |h| > 0
    ensures ModuleIds(h) == ModuleIds(h[..|h| - 1]) + {h[|h| - 1].moduleId}
  {
  }

  lemma LatestInExtension(h: seq<Sample>)
    requires |h| > 0
    ensures forall i :: 0 <= i < |h| - 1 && IsLatestFor(h, i) ==> IsLatestFor(h[..|h| - 1], i)
  {
  }

  /** `analyze_performance()` as the authors evidently meant it, with
      `datetime.now().isoformat()` passed in as `now`. */
  function AnalyzePerformance(l: Loop, now: string): (r: Reply<Loop, Report>)
    ensures r.state.history == l.history
    ensures r.value.Some? <==> forall i :: 0 <= i < |l.history| ==> Classify(l.history[i].metrics).Success?
    ensures r.value.Some? ==> r.state == l && r.value.value.timestamp == now
    ensures r.value.Some? ==> r.value.value.analysis.Keys == ModuleIds(l.history)
    ensures r.value.Some? ==> forall i :: 0 <= i < |l.history| && IsLatestFor(l.history, i) ==>
      r.value.value.analysis[l.history[i].moduleId] == Classify(l.history[i].metrics).value
    ensures r.value.None? ==>
      exists i :: 0 <= i < |l.history| && IsFirstFailure(l.history, i) &&
        r.state.lastError == Some(Classify(l.history[i].metrics).error)
    ensures Valid(l) && r.value.None? ==> r.state.lastError == Some(TypeError)
    ensures |l.history| == 0 ==> r == Reply(l, Some(Report(now, map[])))
  {
    AnalyzeHistoryMeaning(l.history);
    match AnalyzeHistory(l.history)
    case Success(a) => Reply(l, Some(Report(now, a)))
    case Failure(e) => Reply(l.(lastError := Some(e)), None)
  }

  /** `analyze_performance()` as written: `performance_feedback_loop.py` never imports `datetime`,
      so building the returned dictionary raises `NameError` once the loop has
      finished, and the method can only ever return `None`. */
  function AnalyzePerformanceAsWritten(l: Loop): (r: Reply<Loop, Report>)
    ensures r.value.None?
    ensures r.state.history == l.history
    ensures r.state.lastError.Some?
    ensures AnalyzeHistory(l.history).Success? ==> r.state.lastError == Some(NameError("datetime"))
    ensures AnalyzeHistory(l.history).Failure? ==> r.state.lastError == Some(AnalyzeHistory(l.history).error)
  {
    match AnalyzeHistory(l.history)
    case Success(_) => Reply(l.(lastError := Some(NameError("datetime"))), None)
    case Failure(e) => Reply(l.(lastError := Some(e)), None)
  }

  /** The discrepancy: on a fresh loop the intended method reports an empty
      analysis while the method as written reports nothing at all. */
  lemma EmptyAnalysisFailsAsWritten(now: string)
    ensures AnalyzePerformance(Init(), now).value == Some(Report(now, map[]))
    ensures AnalyzePerformanceAsWritten(Init()).value.None?
    ensures AnalyzePerformanceAsWritten(Init()).state.lastError == Some(NameError("datetime"))
  {
  }

  /** A sample from module `m1` with the given accuracy, a throughput of 50
      and a latency of 0.1. */
  function SampleOfM1(accuracy: real): Sample {
    Sample("m1", map["latency" := JNum(0.1), "accuracy" := JNum(accuracy), "throughput" := JNum(50.0)])
  }

  /** A module reported three times with falling accuracy (0.95, 0.85, 0.7)
      is rated by its last sample alone. */
  lemma LatestSampleDecides(now: string)
    ensures AnalyzePerformance(CollectAll(Init(), [SampleOfM1(0.95), SampleOfM1(0.85), SampleOfM1(0.7)]), now).value
      == Some(Report(now, map["m1" := Underperforming]))
  {
    var batch := [SampleOfM1(0.95), SampleOfM1(0.85), SampleOfM1(0.7)];
    AcceptedAllValid(batch);
    CollectAllKeepsNewestAccepted(Init(), batch);
    assert Init().history + batch == batch;
    var l := CollectAll(Init(), batch);
    assert l.history == batch;
    AnalysisOfM1();
  }

  lemma ClassifySamplesOfM1()
    ensures Classify(SampleOfM1(0.95).metrics) == Success(Operational)
    ensures Classify(SampleOfM1(0.85).metrics) == Success(Operational)
    ensures Classify(SampleOfM1(0.7).metrics) == Success(Underperforming)
  {
  }

  lemma AnalysisOfM1()
    ensures AnalyzeHistory([SampleOfM1(0.95), SampleOfM1(0.85), SampleOfM1(0.7)]) == Success(map["m1" := Underperforming])
  {
    var h := [SampleOfM1(0.95), SampleOfM1(0.85), SampleOfM1(0.7)];
    ClassifySamplesOfM1();
    assert forall i :: 0 <= i < |h| ==> Classify(h[i].metrics).Success?;
    AnalyzeHistoryMeaning(h);
    assert ModuleIds(h) == {"m1"} by {
      assert h[0].moduleId == "m1";
    }
    assert IsLatestFor(h, 2);
    var a := AnalyzeHistory(h).value;
    assert a.Keys == {"m1"} && a["m1"] == Underperforming;
    assert a == map["m1" := Underperforming];
  }

  // ---------------------------------------------------------------------
  // Dispatch
  // ---------------------------------------------------------------------

  /** `dispatch_feedback(feedback)`: only validation; the dispatch itself is
      a log line. */
  function DispatchFeedback(l: Loop, feedback: JsonValue): (r: Loop)
    ensures r.history == l.history
    ensures HasKey(feedback, "target_module") ==> r == l
    ensures !HasKey(feedback, "target_module") ==> r.lastError == Some(ValueError(InvalidFeedbackFormat))
  {
    if HasKey(feedback, "target_module") then l
    else l.(lastError := Some(ValueError(InvalidFeedbackFormat)))
  }
}
