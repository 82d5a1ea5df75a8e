/** The call to the hosted language model
    (backend/src/services/openrouter.service.js): build the chat-completion
    request, send it once, and turn the answer into reply text or an error.
    The HTTP round trip itself is the `fetch` parameter. */
module Gateway {
  import opened Common
  import opened Text

  /** One entry of the conversation sent upstream: only a role and a text. */
  datatype ChatEntry = ChatEntry(role: string, content: string)

  /** The environment variables the service reads. */
  datatype Env = Env(apiKey: Option<string>, model: Option<string>, baseUrl: Option<string>)

  const DefaultModel: string := "openai/gpt-4o-mini"
  const DefaultBaseUrl: string := "https://openrouter.ai/api/v1"
  const Temperature: real := 0.2
  const MaxTokens: nat := 300

  /** The JSON body of the chat-completion request. */
  datatype Payload = Payload(model: string, messages: seq<ChatEntry>, temperature: real, maxTokens: nat)

  /** Everything `fetch` is given: the URL, method, headers and body. */
  datatype UpstreamRequest = UpstreamRequest(url: string, verb: string, headers: seq<(string, string)>, payload: Payload)

  /** The parsed response body, as far as the service reads it: for each
      entry of `choices`, the `message.content` string if there is one. */
  datatype Completion = Completion(choices: Option<seq<Option<string>>>)

  /** What the round trip gives back: a response with its status, its parsed
      body and that body re-serialised, or a rejection (network failure, or a
      body that is not JSON). */
  datatype FetchResult = Response(status: nat, data: Completion, json: string) | Rejected(message: string)

  type Fetch = UpstreamRequest -> FetchResult

  datatype GatewayError = MissingKey | Upstream(status: nat, json: string) | Transport(message: string)

  /** The service's result: the reply text, or the error it throws. */
  datatype Outcome = Reply(text: string) | Failed(error: GatewayError)

  /** The message of the thrown `Error`. */
  function ErrorMessage(e: GatewayError): string {
    match e
    case MissingKey => "OPENROUTER_API_KEY missing in .env"
    case Upstream(status, json) => "OpenRouter error: " + Decimal(status) + " " + json
    case Transport(message) => message
  }

  /** The request body: a system entry when `systemText` is non-empty, then
      the given messages (none when absent), at the fixed temperature and
      output limit. */
  function BuildPayload(model: string, systemText: string, messages: Option<seq<ChatEntry>>): (p: Payload)
    ensures p.model == model && p.temperature == 0.2 && p.maxTokens == 300
    ensures systemText != "" ==> |p.messages| >= 1 && p.messages[0] == ChatEntry("system", systemText)
                                 && (messages.Some? ==> p.messages[1..] == messages.value)
                                 && (messages.None? ==> |p.messages| == 1)
    ensures systemText == "" ==> (messages.Some? ==> p.messages == messages.value)
                                 && (messages.None? ==> p.messages == [])
  {
    var system := if systemText != "" then [ChatEntry("system", systemText)] else [];
    var rest := if messages.Some? then messages.value else [];
    Payload(model, system + rest, Temperature, MaxTokens)
  }

  /** The request the service sends, given a key that is present. */
  function BuildRequest(env: Env, systemText: string, messages: Option<seq<ChatEntry>>): (req: UpstreamRequest)
    requires Truthy(env.apiKey)
    ensures req.url == OrElse(env.baseUrl, DefaultBaseUrl) + "/chat/completions" && req.verb == "POST"
    ensures ("Authorization", "Bearer " + env.apiKey.value) in req.headers
    ensures req.payload == BuildPayload(OrElse(env.model, DefaultModel), systemText, messages)
  {
    UpstreamRequest(
      OrElse(env.baseUrl, DefaultBaseUrl) + "/chat/completions",
      "POST",
      [ ("Authorization", "Bearer " + env.apiKey.value),
        ("Content-Type", "application/json"),
        ("HTTP-Referer", "http://localhost:5173"),
        ("X-Title", "Chatbot Platform") ],
      BuildPayload(OrElse(env.model, DefaultModel), systemText, messages))
  }

  /** `data?.choices?.[0]?.message?.content`: present exactly when there is a
      `choices` list whose first entry has a string content, and then that
      content. */
  function FirstContent(data: Completion): (r: Option<string>)
    ensures r.Some? <==> data.choices.Some? && |data.choices.value| > 0 && data.choices.value[0].Some?
    ensures r.Some? ==> r == data.choices.value[0]
  {
    if data.choices.Some? && |data.choices.value| > 0 then data.choices.value[0] else None
  }

  /** `(text || "").trim()`: the first choice's content without surrounding
      whitespace, or "" when there is no such content. */
  function ReplyText(data: Completion): (text: string)
    ensures FirstContent(data).None? ==> text == ""
    ensures text != "" <==> FirstContent(data).Some? && HasContent(FirstContent(data).value)
    ensures text == "" || (!IsWhitespace(text[0]) && !IsWhitespace(text[|text| - 1]))
    ensures FirstContent(data).Some? ==> text == Trim(FirstContent(data).value)
  {
    Trim(OrElse(FirstContent(data), ""))
  }

  /** `generateAssistantReply({ systemText, messages })`. Without a key it
      fails with the configuration error. Otherwise it sends exactly the
      request `BuildRequest` describes, once. A failed round trip propagates
      its error. A response outside 2xx fails with the upstream error, which
      carries the response's status and body. A 2xx response gives the
      trimmed first-choice content, and trimming that reply again changes
      nothing. */
  function GenerateAssistantReply(env: Env, systemText: string, messages: Option<seq<ChatEntry>>, fetch: Fetch): (o: Outcome)
    ensures !Truthy(env.apiKey) <==> o == Failed(MissingKey)
    ensures Truthy(env.apiKey) ==>
              var resp := fetch(BuildRequest(env, systemText, messages));
              && (resp.Rejected? ==> o == Failed(Transport(resp.message)))
              && (resp.Response? && !(200 <= resp.status <= 299) ==> o == Failed(Upstream(resp.status, resp.json)))
              && (resp.Response? && 200 <= resp.status <= 299 ==> o == Reply(ReplyText(resp.data)))
    ensures o.Reply? ==> Trim(o.text) == o.text
  {
    if !Truthy(env.apiKey) then Failed(MissingKey)
    else
      match fetch(BuildRequest(env, systemText, messages))
      case Rejected(message) => Failed(Transport(message))
      case Response(status, data, json) =>
        if !(200 <= status <= 299) then Failed(Upstream(status, json))
        else
          TrimIdempotent(OrElse(FirstContent(data), ""));
          Reply(ReplyText(data))
  }

  /** Without a key the service fails with the configuration error, whatever
      the upstream would have answered: no request is sent. */
  lemma MissingKeySendsNothing(env: Env, systemText: string, messages: Option<seq<ChatEntry>>, f: Fetch, g: Fetch)
    requires !Truthy(env.apiKey)
    ensures GenerateAssistantReply(env, systemText, messages, f) == Failed(MissingKey)
    ensures GenerateAssistantReply(env, systemText, messages, f) == GenerateAssistantReply(env, systemText, messages, g)
    ensures ErrorMessage(MissingKey) == "OPENROUTER_API_KEY missing in .env"
  {
  }

  /** The upstream error's message: "OpenRouter error: ", then the status in
      decimal, which reads back as the status, then the response body. */
  lemma UpstreamMessage(status: nat, json: string)
    ensures var msg := ErrorMessage(Upstream(status, json));
            var digits := Decimal(status);
            && StartsWith(msg, "OpenRouter error: ")
            && msg[18..18 + |digits|] == digits
            && msg[18 + |digits|..] == " " + json
            && DecimalValue(digits) == status
  {
    var prefix := "OpenRouter error: ";
    var digits := Decimal(status);
    assert |prefix| == 18;
    Slices(prefix, digits, " " + json);
    assert ErrorMessage(Upstream(status, json)) == prefix + digits + (" " + json);
    DecimalRoundTrip(status);
  }

  lemma Slices<T>(a: seq<T>, b: seq<T>, c: seq<T>)
    ensures (a + b + c)[..|a|] == a
    ensures (a + b + c)[|a|..|a| + |b|] == b
    ensures (a + b + c)[|a| + |b|..] == c
    ensures a + b + c == a + (b + c) && a + b + c == (a + b) + c
  {
  }
}
