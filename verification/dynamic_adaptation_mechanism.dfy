/** The adaptation selector: maps the `status` of a feedback record to one of
    a fixed set of adaptation strategies. */
module DynamicAdaptationMechanism {
  import opened Wrappers
  import opened Errors
  import opened Json

  const InvalidFeedbackFormat: string := "Invalid feedback format"

  datatype Strategy = Reconfigure | Replace | Optimize | NoAction {
    /** The string `assess_feedback` returns for this strategy. */
    function Name(): string {
      match this
      case Reconfigure => "reconfigure"
      case Replace => "replace"
      case Optimize => "optimize"
      case NoAction => "no_action"
    }
  }

  /** The state of a `DynamicAdaptationMechanism` object. */
  datatype Mechanism = Mechanism(adaptationStrategies: seq<Strategy>, lastError: Option<Error>)

  /** The list `__init__` stores in `adaptation_strategies`. */
  const DefaultStrategies: seq<Strategy> := [Reconfigure, Replace, Optimize]

  /** The list `random.choice` draws from on critical feedback. */
  const CriticalChoices: seq<Strategy> := [Replace, Optimize]

  /** `__init__`. */
  function Init(): (m: Mechanism)
    ensures m.lastError.None?
    ensures m.adaptationStrategies == DefaultStrategies
    ensures forall s :: s in CriticalChoices ==> s in m.adaptationStrategies
    ensures NoAction !in m.adaptationStrategies
  {
    Mechanism(DefaultStrategies, None)
  }

  /** The status of a feedback record, when it is a dictionary holding one. */
  function Status(feedback: JsonValue): Option<JsonValue> {
    if HasKey(feedback, "status") then Some(feedback.fields["status"]) else None
  }

  /** `assess_feedback(feedback)`, with `random.choice` replaced by the
      injected `pickFirst`: true draws the first of `CriticalChoices`. */
  function AssessFeedback(m: Mechanism, feedback: JsonValue, pickFirst: bool): (r: Reply<Mechanism, Strategy>)
    ensures r.value.None? <==> Status(feedback).None?
    ensures r.value.None? ==> r.state == m.(lastError := Some(ValueError(InvalidFeedbackFormat)))
    ensures r.value.Some? ==> r.state == m
    ensures Status(feedback) == Some(JString("critical")) ==>
      r.value.Some? && r.value.value in CriticalChoices && (r.value.value == Replace <==> pickFirst)
    ensures Status(feedback) == Some(JString("warning")) ==> r.value == Some(Reconfigure)
    ensures Status(feedback).Some? && Status(feedback).value !in {JString("critical"), JString("warning")} ==>
      r.value == Some(NoAction)
  {
    match Status(feedback)
    case None => Reply(m.(lastError := Some(ValueError(InvalidFeedbackFormat))), None)
    case Some(status) =>
      if status == JString("critical") then
        Reply(m, Some(if pickFirst then CriticalChoices[0] else CriticalChoices[1]))
      else if status == JString("warning") then
        Reply(m, Some(Reconfigure))
      else
        Reply(m, Some(NoAction))
  }

  /** Both critical outcomes are reachable, and each one is a strategy the
      mechanism lists in `adaptation_strategies`. */
  lemma CriticalOutcomesReachable(feedback: JsonValue)
    requires Status(feedback) == Some(JString("critical"))
    ensures AssessFeedback(Init(), feedback, true).value == Some(Replace)
    ensures AssessFeedback(Init(), feedback, false).value == Some(Optimize)
    ensures forall pick: bool :: AssessFeedback(Init(), feedback, pick).value.value in Init().adaptationStrategies
  {
  }

  /** With the choice fixed, the decision depends on the status alone: two
      feedback records with the same status get the same reply. */
  lemma DecidedByStatus(m: Mechanism, f: JsonValue, g: JsonValue, pickFirst: bool)
    requires Status(f) == Status(g)
    ensures AssessFeedback(m, f, pickFirst) == AssessFeedback(m, g, pickFirst)
  {
  }
}
