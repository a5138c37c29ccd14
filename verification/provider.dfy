/** The Provider Client: the chat-completion request `callOpenRouter` sends and
    how it reads the reply (src/App.tsx, lines 262-303). The network round trip
    itself is not modelled; its outcome is an `HttpReply`. */
module Provider {
  import opened Wrappers
  import opened Text

  const ChatCompletionsUrl := "https://openrouter.ai/api/v1/chat/completions"
  const PluginTitle := "Lark Base Plugin"
  const NoResponse := "No response"
  const ErrorPrefix := "Error: "

  datatype Message = Message(role: string, content: string)

  /** The JSON body; `None` means the key is absent from the object. */
  datatype ChatBody = ChatBody(
    model: string,
    messages: seq<Message>,
    temperature: Option<real>,
    topP: Option<real>)

  datatype ChatRequest = ChatRequest(url: string, headers: seq<(string, string)>, body: ChatBody)

  /** Lines 279-284: a sampling parameter is sent only when it is set and not zero. */
  function SamplingParam(p: Option<real>): (r: Option<real>)
    ensures r.Some? <==> p.Some? && p.value != 0.0
    ensures r.Some? ==> r == p
  {
    match p
    case Some(x) => if x != 0.0 then p else None
    case None => None
  }

  /** The POST request of lines 270-295; `referrer` is the page's `window.location.href`. */
  function BuildRequest(apiKey: string, model: string, systemPrompt: string, userPrompt: string,
                        temperature: Option<real>, topP: Option<real>, referrer: string): (r: ChatRequest)
    ensures r.url == ChatCompletionsUrl
    ensures ("Authorization", "Bearer " + apiKey) in r.headers
    ensures r.body.model == model
    ensures r.body.messages == [Message("system", systemPrompt), Message("user", userPrompt)]
    ensures r.body.temperature.Some? <==> temperature.Some? && temperature.value != 0.0
    ensures r.body.temperature.Some? ==> r.body.temperature == temperature
    ensures r.body.topP.Some? <==> topP.Some? && topP.value != 0.0
    ensures r.body.topP.Some? ==> r.body.topP == topP
  {
    ChatRequest(
      ChatCompletionsUrl,
      [ ("Authorization", "Bearer " + apiKey),
        ("Content-Type", "application/json"),
        ("HTTP-Referer", referrer),
        ("X-Title", PluginTitle) ],
      ChatBody(
        model,
        [Message("system", systemPrompt), Message("user", userPrompt)],
        SamplingParam(temperature),
        SamplingParam(topP)))
  }

  /** The decoded reply body: `Malformed(cause)` when `response.json()` or
      `data.choices[0]` throws, otherwise the first choice's `message.content`
      (`None` when any step of that path is missing). */
  datatype ReplyBody = Malformed(cause: string) | Choices(firstContent: Option<string>)

  /** The outcome of `fetch`: a rejected promise, or a response with its status. */
  datatype HttpReply = Unreachable(cause: string) | Response(ok: bool, statusText: string, body: ReplyBody)

  /** What `callOpenRouter` resolves to (`Success`) or throws (`Failure`, the string
      form of the thrown value). A non-ok status fails before the body is read;
      a missing or empty first-choice content becomes "No response". */
  function Interpret(reply: HttpReply): (r: Result<string, string>)
    ensures r.Success? <==> reply.Response? && reply.ok && reply.body.Choices?
    ensures reply.Response? && !reply.ok ==> r == Failure("Error: API call failed: " + reply.statusText)
    ensures r.Success? ==> r.value != ""
    ensures r.Success? ==>
      r.value == (if TruthyText(reply.body.firstContent) then reply.body.firstContent.value else NoResponse)
  {
    match reply
    case Unreachable(cause) => Failure(cause)
    case Response(ok, statusText, body) =>
      if !ok then Failure("Error: API call failed: " + statusText)
      else
        match body
        case Malformed(cause) => Failure(cause)
        case Choices(content) =>
          Success(if TruthyText(content) then content.value else NoResponse)
  }

  /** The value stored for one field (lines 236 and 239): the answer, or an
      error placeholder that starts with "Error: " and is never blank. */
  function Render(res: Result<string, string>): (cell: string)
    ensures res.Success? ==> cell == res.value
    ensures res.Failure? ==> |cell| >= |ErrorPrefix| && cell[..|ErrorPrefix|] == ErrorPrefix
    ensures res.Failure? ==> cell[|ErrorPrefix|..] == res.error && !IsBlank(cell)
  {
    match res
    case Success(answer) => answer
    case Failure(e) =>
      var cell := ErrorPrefix + e;
      assert !IsWhitespace(cell[0]);
      cell
  }

  /** The answer written for a successful call is blank only if the provider
      returned whitespace: "No response" and error placeholders are not blank. */
  lemma RenderedBlankOnlyFromBlankContent(reply: HttpReply)
    ensures IsBlank(Render(Interpret(reply))) ==>
      reply.Response? && reply.ok && reply.body.Choices? &&
      TruthyText(reply.body.firstContent) && IsBlank(reply.body.firstContent.value)
  {
    assert !IsWhitespace(NoResponse[0]);
  }
}
