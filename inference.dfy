/**
 * What the two inference calls return, as a function of the HTTP response the
 * endpoint sent back. The POST itself is not modelled: a `Response` stands for
 * whatever came back over the network, and the caller supplies it.
 */
module Inference {
  import opened Text

  /** A value as Python's `json` module produces it; `Null` is Python's `None`.
      Numbers are kept as their literal text, since nothing here looks at them.
      An object's members form a map, so their order is not kept. */
  datatype Json =
    | Null
    | Bool(b: bool)
    | Number(literal: string)
    | String(text: string)
    | Array(items: seq<Json>)
    | Object(members: map<string, Json>)

  /** The outcome of `response.json()`: a parsed value, or the exception it
      raises when the body is not JSON. */
  datatype Body = Parsed(value: Json) | Malformed

  /** What the endpoint answered: the status code and the body. */
  datatype Response = Response(status: int, body: Body)

  /** The outcome of `requests.post`: an answer, or the exception it raises
      when the connection fails or times out. The call sits outside the
      `try` of either function, so that exception ends the whole handler. */
  datatype Outcome = Answered(response: Response) | Raised

  datatype Option<T> = None | Some(value: T)

  /** The only status the code treats as success. */
  const StatusOk: int := 200

  const QwenUnavailable: string := "⚠️ Qwen model unavailable. Please try again later."
  const QwenInvalid: string := "⚠️ Invalid model output."
  const MbartFailed: string := "MBART model failed."
  const MbartInvalid: string := "Invalid MBART output."

  /** The dictionary `{"error": message}` returned in place of a diagnosis. */
  function ErrorMarker(message: string): (m: Json)
    ensures m != Null && m.Object? && "error" in m.members && m.members["error"] == String(message)
  {
    Object(map["error" := String(message)])
  }

  /** `result[0]["generated_text"]` when it is a string, the only case in which
      the following `.replace` does not raise: an empty list raises IndexError,
      a first element that is not a dictionary raises TypeError, a missing key
      raises KeyError, and a value that is not a string has no `replace`. */
  function GeneratedText(items: seq<Json>): (t: Option<string>)
    ensures t.Some? <==> |items| > 0 && items[0].Object? && "generated_text" in items[0].members &&
                         items[0].members["generated_text"].String?
    ensures t.Some? ==> t.value == items[0].members["generated_text"].text
  {
    if |items| > 0 && items[0].Object? && "generated_text" in items[0].members then
      match items[0].members["generated_text"]
      case String(text) => Some(text)
      case _ => None
    else None
  }

  /** The reply `ask_qwen_model` returns for the prompt it sent and the
      response it got. `render` is Python's `str()` on a parsed value. */
  function Clarify(response: Response, prompt: string, render: Json -> string): (reply: string)
    ensures response.status != StatusOk ==> reply == QwenUnavailable
    ensures response.status == StatusOk && response.body.Malformed? ==> reply == QwenInvalid
    ensures response.status == StatusOk && response.body.Parsed? && !response.body.value.Array? ==>
              reply == render(response.body.value)
    ensures response.status == StatusOk && response.body.Parsed? && response.body.value.Array? ==>
              match GeneratedText(response.body.value.items)
              case None => reply == QwenInvalid
              case Some(text) => reply == Strip(RemoveAll(text, prompt)) && |reply| <= |text| && Strip(reply) == reply
  {
    if response.status != StatusOk then QwenUnavailable
    else match response.body
      case Malformed => QwenInvalid
      case Parsed(result) =>
        if result.Array? then
          match GeneratedText(result.items)
          case None => QwenInvalid
          case Some(text) =>
            var reply := Strip(RemoveAll(text, prompt));
            StripIdempotent(RemoveAll(text, prompt));
            reply
        else render(result)
  }

  /** The value `ask_mbart_model` returns, which the Send handler stores as the
      session's diagnosis. A successful body is returned exactly as parsed: its
      eight-field shape is not checked. */
  function Diagnose(response: Response): (d: Json)
    ensures response.status != StatusOk ==> d == ErrorMarker(MbartFailed)
    ensures response.status == StatusOk && response.body.Malformed? ==> d == ErrorMarker(MbartInvalid)
    ensures response.status == StatusOk && response.body.Parsed? ==> d == response.body.value
    ensures d == Null <==> response.status == StatusOk && response.body == Parsed(Null)
  {
    if response.status != StatusOk then ErrorMarker(MbartFailed)
    else match response.body
      case Malformed => ErrorMarker(MbartInvalid)
      case Parsed(result) => result
  }

  /** The usual success case: the model echoes the prompt and continues it.
      The reply is the continuation alone, with surrounding whitespace taken
      away, whenever the continuation does not itself repeat the prompt. */
  lemma EchoedPromptStripped(prompt: string, continuation: string, render: Json -> string)
    requires prompt != [] && !OccursIn(prompt, continuation)
    ensures Clarify(Response(StatusOk, Parsed(Array([Object(map["generated_text" := String(prompt + continuation)])]))),
                    prompt, render)
            == Strip(continuation)
  {
    EchoRemoved(prompt, continuation);
  }

  /** A continuation shorter than the prompt cannot repeat it, so for such a
      continuation (a single follow-up question, say) only the echo goes. */
  lemma ShortContinuationStripped(prompt: string, continuation: string, render: Json -> string)
    requires prompt != [] && |continuation| < |prompt|
    ensures Clarify(Response(StatusOk, Parsed(Array([Object(map["generated_text" := String(prompt + continuation)])]))),
                    prompt, render)
            == Strip(continuation)
  {
    ShorterAbsent(prompt, continuation);
    EchoedPromptStripped(prompt, continuation, render);
  }
}
