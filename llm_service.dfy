/** The OpenAI client of `llm_service/LLMService.py`: construction with an
    API key, the chat-completions request, and the walk through the
    response to the tool call's arguments.

    The network call and msgspec's decoder are parameters: `send` stands
    for `httpx.AsyncClient().post(...)` together with `response.json()`,
    and `decode` for `msgspec.json.decode(arguments, type=...)`. */
module LlmService {
  import opened Wrappers
  import opened Dicts
  import opened JsonValues
  import opened Strings
  import opened LlmUtils

  // ---------------------------------------------------------------------
  // Construction
  // ---------------------------------------------------------------------

  const BaseUrl: string := "https://api.openai.com/v1/chat/completions"
  const DefaultTemperature: real := 0.7
  const Timeout: real := 30.0
  const MissingKeyMessage: string := "Please define OPENAI_API_KEY inside your .env environment"

  function Headers(apiKey: string): (r: Dict<string>)
    ensures Keys(r) == ["Authorization", "Content-Type"]
  {
    [("Authorization", "Bearer " + apiKey), ("Content-Type", "application/json")]
  }

  /** `LLMService`: the attributes `__init__` sets, none of which any method
      changes afterwards. */
  class LLMService {
    const model: string
    const headers: Dict<string>
    const temperature: real

    /** `__init__` past its key check. */
    constructor(model: string, apiKey: string, temperature: real)
      requires apiKey != ""
      ensures this.model == model && this.headers == Headers(apiKey) && this.temperature == temperature
    {
      this.model := model;
      this.headers := Headers(apiKey);
      this.temperature := temperature;
    }

    /** `LLMService(model, api_key, temperature=0.7)`: raises, with the
        message the source gives, when the key is None or empty, and
        otherwise yields a new service holding the model, the headers and
        the temperature, which is 0.7 when the caller passes none (as
        `main.py` does). */
    static method Create(model: string, apiKey: Option<string>, temperature: Option<real>)
      returns (r: Result<LLMService, string>)
      ensures r.Failure? <==> apiKey.None? || apiKey.value == ""
      ensures r.Failure? ==> r.error == MissingKeyMessage
      ensures r.Success? ==> && fresh(r.value)
                             && r.value.model == model
                             && r.value.headers == Headers(apiKey.value)
                             && r.value.temperature == (if temperature.Some? then temperature.value else DefaultTemperature)
    {
      if apiKey.None? || apiKey.value == "" {
        return Failure(MissingKeyMessage);
      }
      var t := if temperature.Some? then temperature.value else DefaultTemperature;
      var svc := new LLMService(model, apiKey.value, t);
      return Success(svc);
    }

    /** `extraction`: build the tool, post the request, walk to the
        arguments and decode them. */
    method Extraction<T>(fileContent: string, fields: seq<Field>, className: string, doc: Option<string>,
                         send: Request -> HttpOutcome, decode: Json -> DecodeOutcome<T>)
      returns (r: Result<T, ExtractionError>)
      ensures r == ExtractionOf(send(RequestFor(model, headers, ToolSchema(fields, className, doc), fileContent)), decode)
    {
      var tool := StructToOpenAIToolSchema(fields, className, doc);
      var data := RequestBody(model, tool, fileContent);
      var outcome := send(Request(BaseUrl, headers, data, Timeout));
      if outcome.RequestFailed? {
        return Failure(RequestError(outcome.reason));
      }
      if !IsSuccess(outcome.status) {
        return Failure(HttpStatusError(outcome.status, outcome.text));
      }
      if outcome.body.Failure? {
        return Failure(Raised("JSONDecodeError", outcome.body.error));
      }
      var arguments := ToolArguments(outcome.body.value);
      if arguments.Failure? {
        return Failure(arguments.error);
      }
      match decode(arguments.value) {
        case Decoded(v) => r := Success(v);
        case ValidationFailure(m) => r := Failure(Raised("Exception", ValidationPrefix + m));
        case OtherFailure(m) => r := Failure(Raised("Exception", UnexpectedPrefix + m));
      }
    }
  }

  /** The key a server reads back from the `Authorization` header. */
  function BearerToken(headers: Dict<string>): Option<string> {
    match Lookup(headers, "Authorization")
    case Some(value) =>
      if StartsWith(value, "Bearer ") then Some(value[7..]) else None
    case None => None
  }

  /** The headers of a service built with a key are exactly two: that key as
      a bearer token, and the JSON content type. */
  lemma HeadersCarryKey(apiKey: string)
    ensures Keys(Headers(apiKey)) == ["Authorization", "Content-Type"]
    ensures BearerToken(Headers(apiKey)) == Some(apiKey)
    ensures Lookup(Headers(apiKey), "Content-Type") == Some("application/json")
  {
    var h := Headers(apiKey);
    LookupDistinct(h, 0);
    LookupDistinct(h, 1);
    assert ("Bearer " + apiKey)[7..] == apiKey;
  }

  // ---------------------------------------------------------------------
  // The request
  // ---------------------------------------------------------------------

  datatype Request = Request(url: string, headers: Dict<string>, body: Json, timeout: real)

  function ChatMessage(role: string, content: string): Json {
    JObject([("role", JString(role)), ("content", JString(content))])
  }

  const SystemPrompt: string := "You are an Expert Document Extractor"

  /** The `data` dict `extraction` posts. */
  function RequestBody(model: string, tool: Json, fileContent: string): (r: Json)
    ensures r.JObject? && Keys(r.members) == ["model", "tools", "tool_choice", "messages"]
  {
    JObject([
      ("model", JString(model)),
      ("tools", JArray([tool])),
      ("tool_choice", JString("auto")),
      ("messages", JArray([ChatMessage("system", SystemPrompt), ChatMessage("user", fileContent)]))])
  }

  /** The `client.post(base_url, headers=..., json=data, timeout=30.0)` call. */
  function RequestFor(model: string, headers: Dict<string>, tool: Json, fileContent: string): Request {
    Request(BaseUrl, headers, RequestBody(model, tool, fileContent), Timeout)
  }

  /** The body names the service's model, offers the one tool and lets the
      model choose it, and sends the document as the user message after the
      fixed system message. The service's temperature is not sent. */
  lemma RequestBodyShape(model: string, tool: Json, fileContent: string)
    ensures var body := RequestBody(model, tool, fileContent);
      && Keys(body.members) == ["model", "tools", "tool_choice", "messages"]
      && At(body, ["model"]) == Some(JString(model))
      && At(body, ["tools"]) == Some(JArray([tool]))
      && At(body, ["tool_choice"]) == Some(JString("auto"))
      && At(body, ["temperature"]) == None
      && At(body, ["messages"]) ==
           Some(JArray([ChatMessage("system", SystemPrompt), ChatMessage("user", fileContent)]))
  {
    BodyPaths(JString(model), JArray([tool]), JString("auto"),
              JArray([ChatMessage("system", SystemPrompt), ChatMessage("user", fileContent)]));
  }

  lemma BodyPaths(model: Json, tools: Json, choice: Json, messages: Json)
    ensures var body := JObject([("model", model), ("tools", tools), ("tool_choice", choice), ("messages", messages)]);
      && Keys(body.members) == ["model", "tools", "tool_choice", "messages"]
      && At(body, ["model"]) == Some(model)
      && At(body, ["tools"]) == Some(tools)
      && At(body, ["tool_choice"]) == Some(choice)
      && At(body, ["temperature"]) == None
      && At(body, ["messages"]) == Some(messages)
  {
    FourPaths("model", "tools", "tool_choice", "messages", "temperature", model, tools, choice, messages);
  }

  lemma FourPaths(k1: string, k2: string, k3: string, k4: string, other: string, v1: Json, v2: Json, v3: Json, v4: Json)
    requires k1 != k2 && k1 != k3 && k1 != k4 && k2 != k3 && k2 != k4 && k3 != k4
    requires other !in {k1, k2, k3, k4}
    ensures var body := JObject([(k1, v1), (k2, v2), (k3, v3), (k4, v4)]);
      && Keys(body.members) == [k1, k2, k3, k4]
      && At(body, [k1]) == Some(v1) && At(body, [k2]) == Some(v2)
      && At(body, [k3]) == Some(v3) && At(body, [k4]) == Some(v4)
      && At(body, [other]) == None
  {
    var d := [(k1, v1), (k2, v2), (k3, v3), (k4, v4)];
    assert Keys(d) == [k1, k2, k3, k4];
    PathAt(d, 0);
    PathAt(d, 1);
    PathAt(d, 2);
    PathAt(d, 3);
    AtOne(JObject(d), other);
  }

  /** Each chat message carries its role and its text. */
  lemma ChatMessageShape(role: string, content: string)
    ensures At(ChatMessage(role, content), ["role"]) == Some(JString(role))
    ensures At(ChatMessage(role, content), ["content"]) == Some(JString(content))
  {
    var m := ChatMessage(role, content).members;
    assert Keys(m) == ["role", "content"];
    LookupDistinct(m, 0);
    LookupDistinct(m, 1);
  }

  // ---------------------------------------------------------------------
  // Outcomes and errors
  // ---------------------------------------------------------------------

  /** What `client.post` and `response.json()` give: a response with its
      status, its text and its body parsed as JSON (or the message of the
      JSONDecodeError), or an httpx RequestError (connection failure,
      timeout, ...) with its message. */
  datatype HttpOutcome =
    | Responded(status: int, text: string, body: Result<Json, string>)
    | RequestFailed(reason: string)

  /** What `msgspec.json.decode` does: a value of the target type, a
      ValidationError, or any other exception, each with its message. */
  datatype DecodeOutcome<T> = Decoded(value: T) | ValidationFailure(msg: string) | OtherFailure(msg: string)

  /** The exceptions that leave `extraction`: the two httpx errors main.py
      tells apart, and any other Python exception by class name and `str()`. */
  datatype ExtractionError =
    | HttpStatusError(status: int, text: string)
    | RequestError(reason: string)
    | Raised(kind: string, message: string)

  /** `response.raise_for_status()` passes exactly the 2xx statuses. */
  predicate IsSuccess(status: int) {
    200 <= status < 300
  }

  // ---------------------------------------------------------------------
  // Python's subscripts on JSON values (CPython 3.11 messages)
  // ---------------------------------------------------------------------

  function NotSubscriptable(v: Json): ExtractionError {
    Raised("TypeError", "'" + PyTypeName(v) + "' object is not subscriptable")
  }

  /** `v[key]` for a string key. */
  function Subscript(v: Json, key: string): (r: Result<Json, ExtractionError>)
    ensures r.Failure? ==> r.error.Raised?
    ensures r.Success? <==> v.JObject? && key in Keys(v.members)
    ensures r.Success? ==> Get(v, key) == Some(r.value)
  {
    match v
    case JObject(members) =>
      match Lookup(members, key) {
        case Some(w) => Success(w)
        case None => Failure(Raised("KeyError", "'" + key + "'"))
      }
    case JArray(_) => Failure(Raised("TypeError", "list indices must be integers or slices, not str"))
    case JString(_) => Failure(Raised("TypeError", "string indices must be integers, not 'str'"))
    case _ => Failure(NotSubscriptable(v))
  }

  /** `v[0]`. A string's first character comes back as a string; a dict
      has no key `0`, since JSON keys are strings. */
  function First(v: Json): (r: Result<Json, ExtractionError>)
    ensures r.Failure? ==> r.error.Raised?
    ensures r.Success? <==> (v.JArray? && v.items != []) || (v.JString? && v.s != [])
    ensures v.JArray? && v.items != [] ==> r == Success(v.items[0])
  {
    match v
    case JArray(items) =>
      if items == [] then Failure(Raised("IndexError", "list index out of range")) else Success(items[0])
    case JString(s) =>
      if s == [] then Failure(Raised("IndexError", "string index out of range")) else Success(JString([s[0]]))
    case JObject(_) => Failure(Raised("KeyError", "0"))
    case _ => Failure(NotSubscriptable(v))
  }

  /** `v.get(key, default)`: only a dict has `get`. */
  function GetOr(v: Json, key: string, default: Json): (r: Result<Json, ExtractionError>)
    ensures r.Failure? ==> r.error.Raised?
    ensures r.Success? <==> v.JObject?
    ensures r.Success? ==> r.value == match Get(v, key) { case Some(w) => w case None => default }
  {
    if v.JObject? then
      match Lookup(v.members, key)
      case Some(w) => Success(w)
      case None => Success(default)
    else Failure(Raised("AttributeError", "'" + PyTypeName(v) + "' object has no attribute 'get'"))
  }

  // ---------------------------------------------------------------------
  // Navigation to the tool call's arguments
  // ---------------------------------------------------------------------

  /** `response.json()["choices"][0]["message"].get("tool_calls", [])[0]`,
      then `["function"]["arguments"]`, each step raising as Python does. */
  function ToolArguments(resp: Json): (r: Result<Json, ExtractionError>)
    ensures r.Failure? ==> r.error.Raised?
  {
    var choices :- Subscript(resp, "choices");
    var choice :- First(choices);
    var message :- Subscript(choice, "message");
    MessageArguments(message)
  }

  /** `message.get("tool_calls", [])[0]["function"]["arguments"]`. */
  function MessageArguments(message: Json): (r: Result<Json, ExtractionError>)
    ensures r.Failure? ==> r.error.Raised?
  {
    var calls :- GetOr(message, "tool_calls", JArray([]));
    var call :- First(calls);
    CallArguments(call)
  }

  /** `call["function"]["arguments"]`. */
  function CallArguments(call: Json): (r: Result<Json, ExtractionError>)
    ensures r.Failure? ==> r.error.Raised?
  {
    var fn :- Subscript(call, "function");
    Subscript(fn, "arguments")
  }

  /** The shape a response must have for the walk to succeed, stated without
      the walk: a non-empty `choices` list whose first element's `message`
      object holds a non-empty `tool_calls` list, whose first element has
      `function.arguments`. */
  function ArgumentsOf(resp: Json): Option<Json> {
    match Get(resp, "choices") {
      case Some(JArray(choices)) =>
        if choices == [] then None
        else match Get(choices[0], "message") {
          case Some(message) => MessageArgumentsOf(message)
          case None => None
        }
      case _ => None
    }
  }

  /** The message part of that shape. */
  function MessageArgumentsOf(message: Json): Option<Json> {
    match Get(message, "tool_calls")
    case Some(JArray(calls)) => if calls == [] then None else At(calls[0], ["function", "arguments"])
    case _ => None
  }

  /** The walk succeeds exactly on responses of that shape, and finds the
      arguments there. */
  lemma ToolArgumentsFound(resp: Json)
    ensures ToolArguments(resp).Success? <==> ArgumentsOf(resp).Some?
    ensures ToolArguments(resp).Success? ==> ToolArguments(resp).value == ArgumentsOf(resp).value
  {
    var choices := Subscript(resp, "choices");
    if choices.Success? && choices.value.JArray? && choices.value.items != [] {
      var message := Subscript(choices.value.items[0], "message");
      if message.Success? {
        MessageArgumentsFound(message.value);
      }
    }
  }

  lemma MessageArgumentsFound(message: Json)
    ensures MessageArguments(message).Success? <==> MessageArgumentsOf(message).Some?
    ensures MessageArguments(message).Success? ==> MessageArguments(message).value == MessageArgumentsOf(message).value
  {
    var calls := GetOr(message, "tool_calls", JArray([]));
    if calls.Success? && calls.value.JArray? && calls.value.items != [] {
      CallArgumentsFound(calls.value.items[0]);
    }
  }

  lemma CallArgumentsFound(call: Json)
    ensures CallArguments(call).Success? <==> At(call, ["function", "arguments"]).Some?
    ensures CallArguments(call).Success? ==> CallArguments(call).value == At(call, ["function", "arguments"]).value
  {
    AtTwo(call, "function", "arguments");
  }

  /** A response whose message has no tool call (the key is missing, or the
      list is empty) fails with the IndexError of `[...][0]`. */
  lemma NoToolCall(resp: Json, message: Json)
    requires Get(resp, "choices").Some? && Get(resp, "choices").value.JArray?
    requires Get(resp, "choices").value.items != []
    requires Get(Get(resp, "choices").value.items[0], "message") == Some(message)
    requires message.JObject?
    requires Get(message, "tool_calls") in {None, Some(JArray([]))}
    ensures ToolArguments(resp) == Failure(Raised("IndexError", "list index out of range"))
  {
  }

  /** A response without `choices` fails with the KeyError naming it. */
  lemma NoChoices(resp: Json)
    requires resp.JObject? && "choices" !in Keys(resp.members)
    ensures ToolArguments(resp) == Failure(Raised("KeyError", "'choices'"))
  {
    assert Lookup(resp.members, "choices") == None;
    assert "'" + "choices" + "'" == "'choices'";
    assert Subscript(resp, "choices") == Failure(Raised("KeyError", "'choices'"));
  }

  /** The smallest response of the expected shape, as the tests mock it. */
  function MockResponse(arguments: Json): Json {
    JObject([("choices", JArray([
      JObject([("message", JObject([("tool_calls", JArray([
        JObject([("function", JObject([("arguments", arguments)]))])]))]))])]))])
  }

  lemma MockResponseArguments(arguments: Json)
    ensures ToolArguments(MockResponse(arguments)) == Success(arguments)
  {
    var resp := MockResponse(arguments);
    LookupDistinct(resp.members, 0);
    var choice := resp.members[0].1.items[0];
    LookupDistinct(choice.members, 0);
    var message := choice.members[0].1;
    LookupDistinct(message.members, 0);
    var call := message.members[0].1.items[0];
    LookupDistinct(call.members, 0);
    var fn := call.members[0].1;
    LookupDistinct(fn.members, 0);
  }

  // ---------------------------------------------------------------------
  // extraction
  // ---------------------------------------------------------------------

  const ValidationPrefix: string := "Validation failed with error: "
  const UnexpectedPrefix: string := "Unexpected error processing response: "

  /** The inner try: msgspec's errors become a plain Exception whose message
      says which kind it was. */
  function Decoding<T>(outcome: DecodeOutcome<T>): (r: Result<T, ExtractionError>)
    ensures r.Success? <==> outcome.Decoded?
    ensures r.Success? ==> r.value == outcome.value
    ensures r.Failure? ==> r.error.Raised? && r.error.kind == "Exception"
  {
    match outcome
    case Decoded(v) => Success(v)
    case ValidationFailure(m) => Failure(Raised("Exception", ValidationPrefix + m))
    case OtherFailure(m) => Failure(Raised("Exception", UnexpectedPrefix + m))
  }

  /** What `extraction` returns or raises once the request has been sent. */
  function ExtractionOf<T>(outcome: HttpOutcome, decode: Json -> DecodeOutcome<T>): (r: Result<T, ExtractionError>)
    ensures r.Success? ==> outcome.Responded? && IsSuccess(outcome.status) && outcome.body.Success?
    ensures r.Failure? && r.error.HttpStatusError? ==> !IsSuccess(r.error.status)
  {
    match outcome
    case RequestFailed(reason) => Failure(RequestError(reason))
    case Responded(status, text, body) =>
      if !IsSuccess(status) then Failure(HttpStatusError(status, text))
      else match body
        case Failure(m) => Failure(Raised("JSONDecodeError", m))
        case Success(resp) =>
          var arguments :- ToolArguments(resp);
          Decoding(decode(arguments))
  }

  /** Extraction succeeds exactly when the server answers 2xx with JSON of
      the expected shape and the arguments decode; the value is the decoded
      one. */
  lemma ExtractionSucceeds<T>(outcome: HttpOutcome, decode: Json -> DecodeOutcome<T>, v: T)
    ensures ExtractionOf(outcome, decode) == Success(v) <==>
      && outcome.Responded? && IsSuccess(outcome.status) && outcome.body.Success?
      && ArgumentsOf(outcome.body.value).Some?
      && decode(ArgumentsOf(outcome.body.value).value) == Decoded(v)
  {
    if outcome.Responded? && IsSuccess(outcome.status) && outcome.body.Success? {
      ToolArgumentsFound(outcome.body.value);
    }
  }

  /** Which error leaves `extraction`: httpx's own two errors keep their
      status, text and message, and only they are raised as those. */
  lemma TransportErrors<T>(outcome: HttpOutcome, decode: Json -> DecodeOutcome<T>)
    ensures var r := ExtractionOf(outcome, decode);
      && (r.Failure? && r.error.RequestError? <==> outcome.RequestFailed?)
      && (r.Failure? && r.error.HttpStatusError? <==> outcome.Responded? && !IsSuccess(outcome.status))
      && (r.Failure? && r.error.HttpStatusError? ==>
            r.error == HttpStatusError(outcome.status, outcome.text))
      && (outcome.RequestFailed? ==> r == Failure(RequestError(outcome.reason)))
  {
  }

  /** Once the arguments are found, a decoding error is wrapped with its
      kind and a decoded value is returned. */
  lemma DecodeErrors<T>(outcome: HttpOutcome, decode: Json -> DecodeOutcome<T>)
    requires outcome.Responded? && IsSuccess(outcome.status) && outcome.body.Success?
    requires ToolArguments(outcome.body.value).Success?
    ensures var r := ExtractionOf(outcome, decode);
      match decode(ToolArguments(outcome.body.value).value) {
        case Decoded(v) => r == Success(v)
        case ValidationFailure(m) => r == Failure(Raised("Exception", ValidationPrefix + m))
        case OtherFailure(m) => r == Failure(Raised("Exception", UnexpectedPrefix + m))
      }
  {
  }

  /** The tool-call test: a 200 response whose only tool call carries the
      arguments string gives what decoding that string gives. */
  lemma MockedExtraction<T>(text: string, arguments: string, decode: Json -> DecodeOutcome<T>, v: T)
    requires decode(JString(arguments)) == Decoded(v)
    ensures ExtractionOf(Responded(200, text, Success(MockResponse(JString(arguments)))), decode) == Success(v)
  {
    MockResponseArguments(JString(arguments));
  }
}
