/** The message layer: JSON encoding and decoding that propagate their
    failures, validation of incoming envelopes, and timestamping of outgoing
    feedback. The JSON text codec itself (`json.dumps`, `json.loads`) is
    library code and enters as the parameters `dumps` and `loads`. */
module ModuleCommunicationProtocol {
  import opened Wrappers
  import opened Errors
  import opened Json

  const InvalidMessageFormat: string := "Invalid message format"

  /** The state of a `ModuleCommunicationProtocol` object. */
  datatype Protocol = Protocol(lastError: Option<Error>)

  /** `__init__`. */
  function Init(): (p: Protocol)
    ensures p.lastError.None?
  {
    Protocol(None)
  }

  /** A decoded message the protocol accepts: a dictionary holding both
      `module_id` and `payload`, whatever their values. */
  predicate IsEnvelope(data: JsonValue) {
    HasKey(data, "module_id") && HasKey(data, "payload")
  }

  /** `encode_message(message)`: a serializer failure is logged and raised
      again, never swallowed, and the object's state is not touched. */
  function EncodeMessage(dumps: JsonValue -> Option<string>, message: JsonValue): (r: Result<string, Error>)
    ensures r.Success? <==> dumps(message).Some?
    ensures r.Success? ==> r.value == dumps(message).value
    ensures r.Failure? ==> r.error == EncodeFailure
  {
    match dumps(message)
    case Some(text) => Success(text)
    case None => Failure(EncodeFailure)
  }

  /** `decode_message(message_str)`: a parser failure is logged and raised
      again, never swallowed. */
  function DecodeMessage(loads: string -> Option<JsonValue>, text: string): (r: Result<JsonValue, Error>)
    ensures r.Success? <==> loads(text).Some?
    ensures r.Success? ==> r.value == loads(text).value
    ensures r.Failure? ==> r.error == DecodeFailure
  {
    match loads(text)
    case Some(data) => Success(data)
    case None => Failure(DecodeFailure)
  }

  /** `"module_id" not in data or "payload" not in data`, with Python's
      short-circuit and Python's meaning of `in` for every kind of value. */
  function LacksEnvelopeKey(data: JsonValue): (r: Result<bool, Error>)
    ensures data.JObject? ==> r == Success(!IsEnvelope(data))
    ensures r.Failure? ==> r.error == TypeError
  {
    match Contains(data, "module_id")
    case Failure(e) => Failure(e)
    case Success(hasId) =>
      if !hasId then Success(true)
      else match Contains(data, "payload")
        case Failure(e) => Failure(e)
        case Success(hasPayload) => Success(!hasPayload)
  }

  /** The `except` branch of `receive_message`. */
  function Reject(p: Protocol, e: Error): Reply<Protocol, JsonValue> {
    Reply(p.(lastError := Some(e)), None)
  }

  /** `receive_message(message_str)`: decode, check the two keys, read
      `data["module_id"]` for the log line, return the decoded value; any
      exception on the way is recorded and `None` returned. */
  function ReceiveMessage(p: Protocol, loads: string -> Option<JsonValue>, text: string): (r: Reply<Protocol, JsonValue>)
    ensures r.value.Some? <==> loads(text).Some? && IsEnvelope(loads(text).value)
    ensures r.value.Some? ==> r.value == loads(text) && r.state == p
    ensures r.value.None? ==> r.state.lastError.Some?
    ensures loads(text).None? ==> r.state.lastError == Some(DecodeFailure)
    ensures loads(text).Some? && loads(text).value.JObject? && !IsEnvelope(loads(text).value) ==>
      r.state.lastError == Some(ValueError(InvalidMessageFormat))
  {
    match DecodeMessage(loads, text)
    case Failure(e) => Reject(p, e)
    case Success(data) =>
      match LacksEnvelopeKey(data)
      case Failure(e) => Reject(p, e)
      case Success(lacking) =>
        if lacking then Reject(p, ValueError(InvalidMessageFormat))
        else match Subscript(data, "module_id")
          case Failure(e) => Reject(p, e)
          case Success(_) => Reply(p, Some(data))
  }

  /** A decoded list that names both keys passes the `in` check, but reading
      `data["module_id"]` for the log line raises `TypeError`, so the message
      is still rejected. */
  lemma ListNamingBothKeysRejected(p: Protocol, loads: string -> Option<JsonValue>, text: string)
    requires loads(text) == Some(JArray([JString("module_id"), JString("payload")]))
    ensures ReceiveMessage(p, loads, text) == Reply(p.(lastError := Some(TypeError)), None)
  {
  }

  /** `send_feedback(module_id, feedback)` with `datetime.now().isoformat()`
      passed in as `now`: the record `{"timestamp": now, **feedback}` that the
      method hands to its (simulated) sending step. Unpacking anything but a
      dictionary raises `TypeError`, which is recorded. */
  function SendFeedback(p: Protocol, moduleId: string, now: string, feedback: JsonValue): (r: Reply<Protocol, map<string, JsonValue>>)
    ensures r.value.Some? <==> feedback.JObject?
    ensures r.value.Some? ==> r.state == p
    ensures r.value.None? ==> r.state.lastError == Some(TypeError)
    ensures r.value.Some? ==> r.value.value.Keys == feedback.fields.Keys + {"timestamp"}
    ensures r.value.Some? ==> forall k :: k in feedback.fields ==> r.value.value[k] == feedback.fields[k]
    ensures r.value.Some? && "timestamp" !in feedback.fields ==> r.value.value["timestamp"] == JString(now)
  {
    match feedback
    case JObject(fields) => Reply(p, Some(map["timestamp" := JString(now)] + fields))
    case _ => Reply(p.(lastError := Some(TypeError)), None)
  }
}
