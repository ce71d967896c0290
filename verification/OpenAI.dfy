/** The OpenAI canonicalizer (pkg/hasher/providers/openai.go), and the Azure one built on it
    (pkg/hasher/providers/azure.go). */
module OpenAI {
  import opened Wrappers
  import opened Paths
  import opened Text
  import opened Json
  import opened JsonProofs
  import opened CanonicalJson
  import opened Canonic
  import opened Tools
  import opened Schema

  /** What the canonicalizers look at in the HTTP request. */
  datatype HttpRequest = HttpRequest(httpMethod: string, path: string, namespace: string)

  datatype RawMessage = RawMessage(role: string, content: Option<Json>,
      name: string, toolCallId: string, toolCalls: seq<ToolCall>)

  /** The unmarshalled body. */
  datatype ChatRequest = ChatRequest(
    model: string,
    messages: seq<RawMessage>,
    temperature: Option<Json>,
    topP: Option<Json>,
    maxTokens: Option<Json>,
    maxCompletionTokens: Option<Json>,
    presencePenalty: Option<Json>,
    frequencyPenalty: Option<Json>,
    responseFormat: Option<Json>,
    tools: seq<Tool>,
    toolChoice: Option<Json>,
    stop: Option<Json>)

  /** The nested "function" struct: name and arguments. */
  function ParseFunction(ms: seq<Member>): Option<(string, string)> {
    match StructField(ms, "function")
    case None => None
    case Some(f) =>
      match (TextField(f, "name"), TextField(f, "arguments"))
      case (Some(name), Some(arguments)) => Some((name, arguments))
      case _ => None
  }

  function ParseToolCall(v: Json): Option<ToolCall> {
    match StructMembers(v)
    case None => None
    case Some(ms) =>
      match (TextField(ms, "id"), TextField(ms, "type"), ParseFunction(ms))
      case (Some(id), Some(kind), Some(f)) => Some(ToolCall(id, kind, f.0, f.1))
      case _ => None
  }

  function ParseMessage(fl: Floats, v: Json): Option<RawMessage> {
    match StructMembers(v)
    case None => None
    case Some(ms) =>
      match (TextField(ms, "role"), AnyField(fl, ms, "content"),
        TextField(ms, "name"), TextField(ms, "tool_call_id"), ParseList(ms, "tool_calls", ParseToolCall))
      case (Some(role), Some(content), Some(name), Some(id),
        Some(calls)) => Some(RawMessage(role, content, name, id, calls))
      case _ => None
  }

  function ParseTool(fl: Floats, v: Json): Option<Tool> {
    match StructMembers(v)
    case None => None
    case Some(ms) =>
      match (TextField(ms, "type"), MapField(fl, ms, "function"))
      case (Some(kind), Some(fn)) => Some(Tool(kind, fn))
      case _ => None
  }

  function ParseRequest(fl: Floats, ms: seq<Member>): Option<ChatRequest> {
    match (TextField(ms, "model"), ParseList(ms, "messages", v => ParseMessage(fl, v)),
           ParseList(ms, "tools", v => ParseTool(fl, v)))
    case (Some(model), Some(messages), Some(tools)) =>
      (match (FloatField(fl, ms, "temperature"), FloatField(fl, ms, "top_p"), IntField(ms, "max_tokens"),
              IntField(ms, "max_completion_tokens"), FloatField(fl, ms, "presence_penalty"),
              FloatField(fl, ms, "frequency_penalty"))
       case (Some(temperature), Some(topP), Some(maxTokens),
         Some(maxCompletionTokens), Some(presence), Some(frequency)) =>
         (match (AnyField(fl, ms, "response_format"), AnyField(fl, ms, "tool_choice"), AnyField(fl, ms, "stop"))
          case (Some(format), Some(choice), Some(stop)) =>
            Some(ChatRequest(model, messages, temperature, topP, maxTokens, maxCompletionTokens, presence, frequency,
                        format, tools, choice, stop))
          case _ => None)
       case _ => None)
    case _ => None
  }

  /** json.Unmarshal of the body into the schema. */
  function ParseBody(fl: Floats, body: string): Option<ChatRequest> {
    match Parse(body)
    case None => None
    case Some(v) =>
      match StructMembers(v)
      case None => None
      case Some(ms) => ParseRequest(fl, ms)
  }

  // The canonical request.

  function ContentText(fl: Floats, content: Option<Json>): string {
    match content
    case None => ""
    case Some(String(s)) => NormalizeText(s)
    case Some(Array(items)) => CanonicalizeJSON(fl, Print(Array(items), true)).text
    case Some(v) => Print(v, true)
  }

  function CanonicCall(fl: Floats, c: ToolCall): ToolCall {
    ToolCall(c.id, c.kind, c.name, CanonicalizeJSON(fl, c.arguments).text)
  }

  function CanonicCalls(fl: Floats, cs: seq<ToolCall>): seq<ToolCall> {
    seq(|cs|, i requires 0 <= i < |cs| => CanonicCall(fl, cs[i]))
  }

  function CanonicMessage(fl: Floats, m: RawMessage): Message {
    Message(Lower(TrimSpace(m.role)), ContentText(fl, m.content), m.name, m.toolCallId, CanonicCalls(fl, m.toolCalls))
  }

  function CanonicMessages(fl: Floats, ms: seq<RawMessage>): seq<Message> {
    seq(|ms|, i requires 0 <= i < |ms| => CanonicMessage(fl, ms[i]))
  }

  /** params[key] = *value, when there is one. */
  function Assign(params: seq<Member>, key: string, value: Option<Json>): seq<Member> {
    if value.Some? then Insert(params, Member(key, value.value)) else params
  }

  function Params(p: ChatRequest): seq<Member> {
    var a := Assign(Assign(Assign([], "temperature", p.temperature), "top_p", p.topP), "max_tokens", p.maxTokens);
    var b := Assign(Assign(Assign(a, "max_completion_tokens", p.maxCompletionTokens),
      "presence_penalty", p.presencePenalty),
                    "frequency_penalty", p.frequencyPenalty);
    Assign(Assign(Assign(b, "response_format", p.responseFormat), "tool_choice", p.toolChoice), "stop", p.stop)
  }

  function EndpointOf(req: Option<HttpRequest>, default: string): string {
    if req.Some? && req.value.path != "" then req.value.path else default
  }

  function MethodOf(req: Option<HttpRequest>): string {
    if req.Some? && req.value.httpMethod != "" then req.value.httpMethod else "POST"
  }

  function NamespaceHeader(req: Option<HttpRequest>): string {
    if req.Some? then req.value.namespace else ""
  }

  function CanonicOf(fl: Floats, req: Option<HttpRequest>, p: ChatRequest): CanonicRequest {
    CanonicRequest(NamespaceHeader(req), "openai", EndpointOf(req, "/v1/chat/completions"), MethodOf(req), p.model,
                   Some(CanonicMessages(fl, p.messages)), Params(p), StableSort(p.tools), [])
  }

  method CanonicalizeCalls(fl: Floats, toolCalls: seq<ToolCall>) returns (calls: seq<ToolCall>)
    ensures calls == CanonicCalls(fl, toolCalls)
  {
    calls := [];
    for i := 0 to |toolCalls|
      invariant |calls| == i && forall k | 0 <= k < i :: calls[k] == CanonicCall(fl, toolCalls[k])
    {
      var tc := toolCalls[i];
      var canonArgs := CanonicalizeJSON(fl, tc.arguments);
      var argsStr := tc.arguments;
      if canonArgs.valid { argsStr := canonArgs.text; }
      calls := calls + [ToolCall(tc.id, tc.kind, tc.name, argsStr)];
    }
  }

  method CanonicalizeMessage(fl: Floats, m: RawMessage) returns (msg: Message)
    ensures msg == CanonicMessage(fl, m)
  {
    var contentStr := "";
    match m.content {
      case None =>
      case Some(String(s)) => contentStr := NormalizeText(s);
      case Some(Array(items)) =>
        var partsBytes := Print(Array(items), true);
        contentStr := CanonicalizeJSON(fl, partsBytes).text;
      case Some(v) => contentStr := Print(v, true);
    }
    var calls := CanonicalizeCalls(fl, m.toolCalls);
    msg := Message(Lower(TrimSpace(m.role)), contentStr, m.name, m.toolCallId, calls);
  }

  method CanonicalizeMessages(fl: Floats, raw: seq<RawMessage>) returns (messages: seq<Message>)
    ensures messages == CanonicMessages(fl, raw)
  {
    messages := [];
    for i := 0 to |raw|
      invariant |messages| == i && forall k | 0 <= k < i :: messages[k] == CanonicMessage(fl, raw[k])
    {
      var msg := CanonicalizeMessage(fl, raw[i]);
      messages := messages + [msg];
    }
  }

  method BuildParams(parsed: ChatRequest) returns (params: seq<Member>)
    ensures params == Params(parsed)
  {
    params := [];
    params := Assign(params, "temperature", parsed.temperature);
    params := Assign(params, "top_p", parsed.topP);
    params := Assign(params, "max_tokens", parsed.maxTokens);
    params := Assign(params, "max_completion_tokens", parsed.maxCompletionTokens);
    params := Assign(params, "presence_penalty", parsed.presencePenalty);
    params := Assign(params, "frequency_penalty", parsed.frequencyPenalty);
    params := Assign(params, "response_format", parsed.responseFormat);
    params := Assign(params, "tool_choice", parsed.toolChoice);
    params := Assign(params, "stop", parsed.stop);
  }

  /** Namespace header, endpoint and method, with the defaults of requests that lack them. */
  method ReadHttp(req: Option<HttpRequest>, default: string)
      returns (namespace: string, endpoint: string, httpMethod: string)
    ensures namespace == NamespaceHeader(req) && endpoint == EndpointOf(req, default) && httpMethod == MethodOf(req)
  {
    namespace, endpoint, httpMethod := "", default, "POST";
    if req.Some? {
      namespace := req.value.namespace;
      if req.value.path != "" { endpoint := req.value.path; }
      if req.value.httpMethod != "" { httpMethod := req.value.httpMethod; }
    }
  }

  method Canonicalize(fl: Floats, req: Option<HttpRequest>, body: string) returns (r: Result<CanonicRequest, string>)
    ensures r == if body == "" then Err("empty request body")
                 else match ParseBody(fl, body)
                      case None => Err("failed to parse OpenAI request body")
                      case Some(p) => Ok(CanonicOf(fl, req, p))
  {
    if |body| == 0 { return Err("empty request body"); }
    var unmarshalled := ParseBody(fl, body);
    if unmarshalled.None? { return Err("failed to parse OpenAI request body"); }
    var parsed := unmarshalled.value;
    var messages := CanonicalizeMessages(fl, parsed.messages);
    var params := BuildParams(parsed);
    var tools := CanonicalizeTools(parsed.tools);
    var namespace, endpoint, httpMethod := ReadHttp(req, "/v1/chat/completions");
    return Ok(CanonicRequest(namespace, "openai", endpoint, httpMethod,
      parsed.model, Some(messages), params, tools, []));
  }

  // Azure: the OpenAI request under another provider name, with the deployment as model.

  /** The path segment after the first "deployments" that has one. */
  function DeploymentIn(parts: seq<string>, model: string): string {
    if |parts| < 2 then model
    else if parts[0] == "deployments" then parts[1]
    else DeploymentIn(parts[1..], model)
  }

  predicate Contains(s: string, part: string) {
    StartsWith(s, part) || (s != "" && Contains(s[1..], part))
  }

  function AzureModel(req: Option<HttpRequest>, model: string): string {
    if req.Some? && Contains(req.value.path, "/deployments/") then DeploymentIn(Split(req.value.path), model) else model
  }

  method CanonicalizeAzure(fl: Floats, req: Option<HttpRequest>, body: string)
      returns (r: Result<CanonicRequest, string>)
    ensures r == if body == "" then Err("empty request body")
                 else match ParseBody(fl, body)
                      case None => Err("failed to parse OpenAI request body")
                      case Some(p) => Ok(CanonicOf(fl, req, p).(provider := "azure", model := AzureModel(req, p.model)))
  {
    if |body| == 0 { return Err("empty request body"); }
    r := Canonicalize(fl, req, body);
    if r.Err? { return; }
    var canonic := r.value.(provider := "azure");
    if req.Some? && Contains(req.value.path, "/deployments/") {
      var parts := Split(req.value.path);
      var i := 0;
      while i < |parts|
        invariant 0 <= i <= |parts|
        invariant canonic == r.value.(provider := "azure")
        invariant DeploymentIn(parts[i..], canonic.model) == DeploymentIn(parts, canonic.model)
      {
        if parts[i] == "deployments" && i + 1 < |parts| {
          assert parts[i..][1] == parts[i + 1];
          canonic := canonic.(model := parts[i + 1]);
          break;
        }
        assert parts[i..][1..] == parts[i + 1..];
        i := i + 1;
      }
    }
    r := Ok(canonic);
  }

  // Equivalent requests collapse, and only those.

  /** The parameter map answers each name with its own field, so it determines all nine fields. */
  lemma ParamsDetermineFields(p: ChatRequest, q: ChatRequest)
    ensures Params(p) == Params(q) <==>
            && p.temperature == q.temperature && p.topP == q.topP && p.maxTokens == q.maxTokens
            && p.maxCompletionTokens == q.maxCompletionTokens && p.presencePenalty == q.presencePenalty
            && p.frequencyPenalty == q.frequencyPenalty && p.responseFormat == q.responseFormat
            && p.toolChoice == q.toolChoice && p.stop == q.stop
  {
    if Params(p) == Params(q) {
      SameParam(p, q, "temperature"); SameParam(p, q, "top_p"); SameParam(p, q, "max_tokens");
      SameParam(p, q, "max_completion_tokens"); SameParam(p, q, "presence_penalty");
        SameParam(p, q, "frequency_penalty");
      SameParam(p, q, "response_format"); SameParam(p, q, "tool_choice"); SameParam(p, q, "stop");
    }
  }

  lemma SameParam(p: ChatRequest, q: ChatRequest, key: string)
    requires Params(p) == Params(q)
    ensures ParamAt(p, key) == ParamAt(q, key)
  {
    ParamsAnswer(p, key);
    ParamsAnswer(q, key);
  }

  function ParamAt(p: ChatRequest, key: string): Option<Json> {
    if key == "temperature" then p.temperature
    else if key == "top_p" then p.topP
    else if key == "max_tokens" then p.maxTokens
    else if key == "max_completion_tokens" then p.maxCompletionTokens
    else if key == "presence_penalty" then p.presencePenalty
    else if key == "frequency_penalty" then p.frequencyPenalty
    else if key == "response_format" then p.responseFormat
    else if key == "tool_choice" then p.toolChoice
    else if key == "stop" then p.stop
    else None
  }

  lemma AssignAnswers(params: seq<Member>, name: string, value: Option<Json>, key: string)
    ensures First(Assign(params, name, value), key) == if key == name && value.Some? then value else First(params, key)
  {
    if value.Some? { InsertedFirst(params, Member(name, value.value), key); }
  }

  lemma ParamsAnswer(p: ChatRequest, key: string)
    ensures First(Params(p), key) == ParamAt(p, key)
  {
    var a1 := Assign([], "temperature", p.temperature);
    var a2 := Assign(a1, "top_p", p.topP);
    var a3 := Assign(a2, "max_tokens", p.maxTokens);
    var a4 := Assign(a3, "max_completion_tokens", p.maxCompletionTokens);
    var a5 := Assign(a4, "presence_penalty", p.presencePenalty);
    var a6 := Assign(a5, "frequency_penalty", p.frequencyPenalty);
    var a7 := Assign(a6, "response_format", p.responseFormat);
    var a8 := Assign(a7, "tool_choice", p.toolChoice);
    AssignAnswers([], "temperature", p.temperature, key);
    AssignAnswers(a1, "top_p", p.topP, key);
    AssignAnswers(a2, "max_tokens", p.maxTokens, key);
    AssignAnswers(a3, "max_completion_tokens", p.maxCompletionTokens, key);
    AssignAnswers(a4, "presence_penalty", p.presencePenalty, key);
    AssignAnswers(a5, "frequency_penalty", p.frequencyPenalty, key);
    AssignAnswers(a6, "response_format", p.responseFormat, key);
    AssignAnswers(a7, "tool_choice", p.toolChoice, key);
    AssignAnswers(a8, "stop", p.stop, key);
  }

  // Equivalence of messages, in terms of what the body says.

  /** How a content other than a string is spelled: part lists without HTML escaping, the rest with it. */
  function Spelling(v: Json): string {
    Print(v, !v.Array?)
  }

  /** Two contents that are taken for each other: texts up to line ends and outer whitespace, other values
      when they are equal, nothing with a blank text, and a text with the value that it spells. */
  predicate ContentAlike(a: Option<Json>, b: Option<Json>) {
    match (a, b)
    case (Some(String(s)), Some(String(t))) => NormalizeText(s) == NormalizeText(t)
    case (Some(String(s)), None) => NormalizeText(s) == ""
    case (None, Some(String(t))) => NormalizeText(t) == ""
    case (Some(String(s)), Some(w)) => NormalizeText(s) == Spelling(w)
    case (Some(v), Some(String(t))) => Spelling(v) == NormalizeText(t)
    case _ => a == b
  }

  lemma OtherContentText(fl: Floats, v: Json)
    requires Canonical(fl, v) && !v.String?
    ensures ContentText(fl, Some(v)) == Spelling(v) && NumbersValid(v)
  {
    CanonicalIsDecoded(fl, v);
    if v.Array? { DecodePrinted(fl, v, true); }
  }

  /** Contents get the same canonical text exactly when they are alike. */
  lemma ContentsAlike(fl: Floats, a: Option<Json>, b: Option<Json>)
    requires IsDecoded(fl, a) && IsDecoded(fl, b)
    ensures ContentText(fl, a) == ContentText(fl, b) <==> ContentAlike(a, b)
  {
    if a.Some? && !a.value.String? {
      OtherContentText(fl, a.value);
      PrintsDiffer(a.value, !a.value.Array?, a.value, false);
    }
    if b.Some? && !b.value.String? {
      OtherContentText(fl, b.value);
      PrintsDiffer(b.value, !b.value.Array?, b.value, false);
    }
    if a.Some? && !a.value.String? && b.Some? && !b.value.String? {
      PrintsDiffer(a.value, !a.value.Array?, b.value, !b.value.Array?);
    }
  }

  ghost predicate CallAlike(fl: Floats, a: ToolCall, b: ToolCall) {
    a.id == b.id && a.kind == b.kind && a.name == b.name && TextsAlike(fl, a.arguments, b.arguments)
  }

  ghost predicate CallsAlike(fl: Floats, a: seq<ToolCall>, b: seq<ToolCall>) {
    |a| == |b| && forall i | 0 <= i < |a| :: CallAlike(fl, a[i], b[i])
  }

  ghost predicate MessagesAlike(fl: Floats, a: RawMessage, b: RawMessage) {
    && Lower(TrimSpace(a.role)) == Lower(TrimSpace(b.role)) && ContentAlike(a.content, b.content)
    && a.name == b.name && a.toolCallId == b.toolCallId && CallsAlike(fl, a.toolCalls, b.toolCalls)
  }

  /** Equivalent bodies: everything equal except what canonicalization is meant to ignore, and contents that
      it cannot tell apart. */
  ghost predicate Equivalent(fl: Floats, p: ChatRequest, q: ChatRequest) {
    && p.model == q.model
    && |p.messages| == |q.messages| && (forall i | 0 <= i < |p.messages| ::
       MessagesAlike(fl, p.messages[i], q.messages[i]))
    && p.temperature == q.temperature && p.topP == q.topP && p.maxTokens == q.maxTokens
    && p.maxCompletionTokens == q.maxCompletionTokens && p.presencePenalty == q.presencePenalty
    && p.frequencyPenalty == q.frequencyPenalty && p.responseFormat == q.responseFormat
    && p.toolChoice == q.toolChoice && p.stop == q.stop
    && NamedAlike(p.tools, q.tools)
  }

  /** Contents of an unmarshalled body are decoded values. */
  predicate Unmarshalled(fl: Floats, p: ChatRequest) {
    forall i | 0 <= i < |p.messages| :: IsDecoded(fl, p.messages[i].content)
  }

  lemma ParsedIsUnmarshalled(fl: Floats, body: string)
    requires fl.Sound() && ParseBody(fl, body).Some?
    ensures Unmarshalled(fl, ParseBody(fl, body).value)
  {
    ParsedNumbersValid(body);
    var ms, p := StructMembers(Parse(body).value).value, ParseBody(fl, body).value;
    var f := v => ParseMessage(fl, v);
    forall i | 0 <= i < |p.messages| ensures IsDecoded(fl, p.messages[i].content) {
      var v := ListElement(ms, "messages", f, i);
      AnyFieldIsDecoded(fl, if v.Object? then v.members else [], "content");
    }
  }

  lemma CallsAlikeIffEqual(fl: Floats, a: seq<ToolCall>, b: seq<ToolCall>)
    requires fl.Sound()
    ensures CanonicCalls(fl, a) == CanonicCalls(fl, b) <==> CallsAlike(fl, a, b)
  {
    var x, y := CanonicCalls(fl, a), CanonicCalls(fl, b);
    assert |x| == |a| && |y| == |b|;
    if |a| == |b| {
      forall i | 0 <= i < |a| ensures x[i] == y[i] <==> CallAlike(fl, a[i], b[i]) {
        CanonicalAlikeIff(fl, a[i].arguments, b[i].arguments);
      }
      assert x == y <==> forall i | 0 <= i < |x| :: x[i] == y[i];
    }
  }

  lemma MessagesAlikeIffEqual(fl: Floats, a: RawMessage, b: RawMessage)
    requires fl.Sound() && IsDecoded(fl, a.content) && IsDecoded(fl, b.content)
    ensures CanonicMessage(fl, a) == CanonicMessage(fl, b) <==> MessagesAlike(fl, a, b)
  {
    ContentsAlike(fl, a.content, b.content);
    CallsAlikeIffEqual(fl, a.toolCalls, b.toolCalls);
  }

  /** Two accepted bodies get the same canonical request exactly when they are equivalent. */
  lemma CanonicAlikeIffEquivalent(fl: Floats, req: Option<HttpRequest>, p: ChatRequest, q: ChatRequest)
    requires fl.Sound() && Unmarshalled(fl, p) && Unmarshalled(fl, q)
    ensures CanonicOf(fl, req, p) == CanonicOf(fl, req, q) <==> Equivalent(fl, p, q)
  {
    ParamsDetermineFields(p, q);
    SortedAlikeIffNamedAlike(p.tools, q.tools);
    var a, b := CanonicMessages(fl, p.messages), CanonicMessages(fl, q.messages);
    if |p.messages| == |q.messages| {
      forall i | 0 <= i < |p.messages| ensures a[i] == b[i] <==> MessagesAlike(fl, p.messages[i], q.messages[i]) {
        MessagesAlikeIffEqual(fl, p.messages[i], q.messages[i]);
      }
      assert a == b <==> forall i | 0 <= i < |a| :: a[i] == b[i];
    } else {
      assert |a| != |b|;
    }
  }

  // Collapses that the design does not ask for: a text may be taken for something that is no text.

  /** A text that is exactly the canonical spelling of a list, an object, a number or a boolean. */
  predicate SpellsAValue(fl: Floats, text: string) {
    var v := Decode(fl, text);
    v.Some? && !v.value.String? && !v.value.Null? && Spelling(v.value) == text
  }

  /** A string content shares its canonical text with some content that is no string if and only if its
      normalized text is empty, as for null or absent content, or spells a value. */
  lemma TextPassesIff(fl: Floats, s: string)
    requires fl.Sound()
    ensures (exists other: Option<Json> :: IsDecoded(fl, other) && !(other.Some? && other.value.String?)
                                          && ContentText(fl, other) == ContentText(fl, Some(String(s)))) <==>
            NormalizeText(s) == "" || SpellsAValue(fl, NormalizeText(s))
  {
    var text := NormalizeText(s);
    if other: Option<Json> :| IsDecoded(fl, other) && !(other.Some? && other.value.String?)
                              && ContentText(fl, other) == ContentText(fl, Some(String(s))) {
      if other.Some? {
        OtherContentText(fl, other.value);
        DecodePrinted(fl, other.value, !other.value.Array?);
      }
    }
    if text == "" { assert IsDecoded(fl, None) && ContentText(fl, None) == text; }
    if SpellsAValue(fl, text) {
      ParsedNumbersValid(text);
      DecodedIsCanonical(fl, Parse(text).value);
      var v := Decode(fl, text).value;
      OtherContentText(fl, v);
      assert IsDecoded(fl, Some(v)) && ContentText(fl, Some(v)) == text;
    }
  }

  /** As for the empty list. */
  lemma TextMayPassForParts(fl: Floats)
    ensures ContentText(fl, Some(String("[]"))) == ContentText(fl, Some(Array([])))
  {
    DecodePrinted(fl, Array([]), true);
    EmptyListText();
  }

  lemma EmptyListText()
    ensures Print(Array([]), false) == "[]" && NormalizeText("[]") == "[]"
  {
    EmptyListPrints();
    TidyTextStays("[]");
  }

  lemma EmptyListPrints()
    ensures Print(Array([]), false) == "[]"
  {
    var ts := [LBracket, RBracket];
    assert TokensThen(Array([]), []) == ts;
    var gaps := NoGaps(2);
    assert ts[1..] == [RBracket] && [RBracket][1..] == [];
    assert Spell([], gaps[1..][1..], false) == "";
    assert Spell(ts[1..], gaps[1..], false) == "]";
    assert Spell(ts, gaps, false) == "[]";
  }

  // Body text: member order, whitespace and members outside the schema.

  const SchemaKeys := {"model", "messages", "temperature", "top_p", "max_tokens", "max_completion_tokens",
                       "presence_penalty", "frequency_penalty", "response_format", "tools", "tool_choice", "stop"}

  /** Two bodies whose schema members hold the same values, whatever their order and other members. */
  ghost predicate BodiesAgree(a: seq<Member>, b: seq<Member>) {
    forall key | key in SchemaKeys :: Agree(Last(a, key), Last(b, key))
  }

  lemma ToolCallsRespected()
    ensures Respects(ParseToolCall)
  {
    forall v, w | Same(Exact, v, w) && NumbersValid(v) && NumbersValid(w)
        && ParseToolCall(v).Some? && ParseToolCall(w).Some?
      ensures ParseToolCall(v) == ParseToolCall(w)
    {
      if v.Object? { ToolCallAgrees(v.members, w.members); }
    }
  }

  lemma ToolCallAgrees(a: seq<Member>, b: seq<Member>)
    requires MembersValid(a) && MembersValid(b) && Same(Exact, Object(a), Object(b))
    ensures ParseToolCall(Object(a)) == ParseToolCall(Object(b))
  {
    ObjectFieldsAgree(Exact, a, b, "id");
    ObjectFieldsAgree(Exact, a, b, "type");
    FunctionAgrees(a, b);
  }

  lemma FunctionAgrees(a: seq<Member>, b: seq<Member>)
    requires MembersValid(a) && MembersValid(b) && Same(Exact, Object(a), Object(b))
    ensures ParseFunction(a) == ParseFunction(b)
  {
    SameObjectsAgree(a, b, "function");
    LastValid(a, "function");
    LastValid(b, "function");
    if Last(a, "function").Some? && Last(a, "function").value.Object? {
      var f, g := Last(a, "function").value.members, Last(b, "function").value.members;
      ObjectFieldsAgree(Exact, f, g, "name");
      ObjectFieldsAgree(Exact, f, g, "arguments");
    }
  }

  lemma MessagesRespected(fl: Floats)
    requires fl.Sound()
    ensures Respects(v => ParseMessage(fl, v))
  {
    ToolCallsRespected();
    forall v, w | Same(Exact, v, w) && NumbersValid(v) && NumbersValid(w)
        && ParseMessage(fl, v).Some? && ParseMessage(fl, w).Some?
      ensures ParseMessage(fl, v) == ParseMessage(fl, w)
    {
      if v.Object? {
        var a, b := v.members, w.members;
        ObjectFieldsAgree(fl, a, b, "role"); ObjectFieldsAgree(fl, a, b, "content");
          ObjectFieldsAgree(fl, a, b, "name");
        ObjectFieldsAgree(fl, a, b, "tool_call_id"); ObjectFieldsAgree(fl, a, b, "tool_calls");
        ListsAgree(a, b, "tool_calls", ParseToolCall);
      }
    }
  }

  lemma ToolsRespected(fl: Floats)
    requires fl.Sound()
    ensures Respects(v => ParseTool(fl, v))
  {
    forall v, w | Same(Exact, v, w) && NumbersValid(v) && NumbersValid(w)
        && ParseTool(fl, v).Some? && ParseTool(fl, w).Some?
      ensures ParseTool(fl, v) == ParseTool(fl, w)
    {
      if v.Object? {
        ObjectFieldsAgree(fl, v.members, w.members, "type");
        ObjectFieldsAgree(fl, v.members, w.members, "function");
      }
    }
  }

  lemma AgreeingBodiesParseAlike(fl: Floats, a: seq<Member>, b: seq<Member>)
    requires fl.Sound() && MembersValid(a) && MembersValid(b) && BodiesAgree(a, b)
    requires ParseRequest(fl, a).Some? && ParseRequest(fl, b).Some?
    ensures ParseRequest(fl, a) == ParseRequest(fl, b)
  {
    MessagesRespected(fl);
    ToolsRespected(fl);
    ListsAgree(a, b, "messages", v => ParseMessage(fl, v));
    ListsAgree(a, b, "tools", v => ParseTool(fl, v));
    FieldsAgree(fl, a, b, "model");
    FieldsAgree(fl, a, b, "temperature"); FieldsAgree(fl, a, b, "top_p"); FieldsAgree(fl, a, b, "max_tokens");
    FieldsAgree(fl, a, b, "max_completion_tokens"); FieldsAgree(fl, a, b, "presence_penalty");
    FieldsAgree(fl, a, b, "frequency_penalty"); FieldsAgree(fl, a, b, "response_format");
    FieldsAgree(fl, a, b, "tool_choice"); FieldsAgree(fl, a, b, "stop");
  }

  /** Bodies that are both accepted and agree on the schema's members get the same canonical request: the
      order of members, the layout of the text and members such as user, stream, seed or n do not count. */
  lemma BodyTextDoesNotMatter(fl: Floats, req: Option<HttpRequest>, body1: string, body2: string)
    requires fl.Sound() && ParseBody(fl, body1).Some? && ParseBody(fl, body2).Some?
    requires Parse(body1).value.Object? && Parse(body2).value.Object?
    requires BodiesAgree(Parse(body1).value.members, Parse(body2).value.members)
    ensures CanonicOf(fl, req, ParseBody(fl, body1).value) == CanonicOf(fl, req, ParseBody(fl, body2).value)
  {
    ParsedNumbersValid(body1);
    ParsedNumbersValid(body2);
    AgreeingBodiesParseAlike(fl, Parse(body1).value.members, Parse(body2).value.members);
  }

  // Every canonical request can be hashed injectively.

  lemma AssignKeepsValid(params: seq<Member>, name: string, value: Option<Json>)
    requires MembersValid(params) && ValidIfAny(value)
    ensures MembersValid(Assign(params, name, value))
  {
    if value.Some? {
      var m := Member(name, value.value);
      MembersPointwise(params);
      forall i | 0 <= i < |Insert(params, m)| ensures NumbersValid(Insert(params, m)[i].value) {
        InsertedFrom(params, m, i);
      }
      MembersValidPointwise(Insert(params, m));
    }
  }

  lemma {:induction false} MembersPointwise(members: seq<Member>)
    requires MembersValid(members)
    ensures forall i | 0 <= i < |members| :: NumbersValid(members[i].value)
  {
    if members != [] { MembersPointwise(members[1..]); }
  }

  lemma ParamsValid(p: ChatRequest)
    requires ValidIfAny(p.temperature) && ValidIfAny(p.topP)
             && ValidIfAny(p.maxTokens) && ValidIfAny(p.maxCompletionTokens)
    requires ValidIfAny(p.presencePenalty) && ValidIfAny(p.frequencyPenalty) && ValidIfAny(p.responseFormat)
    requires ValidIfAny(p.toolChoice) && ValidIfAny(p.stop)
    ensures MembersValid(Params(p))
  {
    var a1 := Assign([], "temperature", p.temperature);
    var a2 := Assign(a1, "top_p", p.topP);
    var a3 := Assign(a2, "max_tokens", p.maxTokens);
    var a4 := Assign(a3, "max_completion_tokens", p.maxCompletionTokens);
    var a5 := Assign(a4, "presence_penalty", p.presencePenalty);
    var a6 := Assign(a5, "frequency_penalty", p.frequencyPenalty);
    var a7 := Assign(a6, "response_format", p.responseFormat);
    var a8 := Assign(a7, "tool_choice", p.toolChoice);
    AssignKeepsValid([], "temperature", p.temperature);
    AssignKeepsValid(a1, "top_p", p.topP);
    AssignKeepsValid(a2, "max_tokens", p.maxTokens);
    AssignKeepsValid(a3, "max_completion_tokens", p.maxCompletionTokens);
    AssignKeepsValid(a4, "presence_penalty", p.presencePenalty);
    AssignKeepsValid(a5, "frequency_penalty", p.frequencyPenalty);
    AssignKeepsValid(a6, "response_format", p.responseFormat);
    AssignKeepsValid(a7, "tool_choice", p.toolChoice);
    AssignKeepsValid(a8, "stop", p.stop);
  }

  lemma SortKeepsValid(ts: seq<Tool>)
    requires forall i | 0 <= i < |ts| :: NumbersValid(ts[i].fn)
    ensures forall i | 0 <= i < |StableSort(ts)| :: NumbersValid(StableSort(ts)[i].fn)
  {
    SortIsPermutation(ts);
    forall i | 0 <= i < |StableSort(ts)| ensures NumbersValid(StableSort(ts)[i].fn) {
      assert StableSort(ts)[i] in multiset(StableSort(ts));
      assert StableSort(ts)[i] in multiset(ts);
      var j :| 0 <= j < |ts| && ts[j] == StableSort(ts)[i];
    }
  }

  lemma AcceptedToolsValid(fl: Floats, ms: seq<Member>)
    requires fl.Sound() && MembersValid(ms) && ParseList(ms, "tools", v => ParseTool(fl, v)).Some?
    ensures var ts := ParseList(ms, "tools", v => ParseTool(fl, v)).value;
            forall i | 0 <= i < |ts| :: NumbersValid(ts[i].fn)
  {
    var f := v => ParseTool(fl, v);
    var ts := ParseList(ms, "tools", f).value;
    forall i | 0 <= i < |ts| ensures NumbersValid(ts[i].fn) {
      var v := ListElement(ms, "tools", f, i);
      FieldsValid(fl, if v.Object? then v.members else [], "function");
    }
  }

  /** The canonical request of every accepted body is in the domain of the injectivity theorem. */
  lemma CanonicIsEncodable(fl: Floats, req: Option<HttpRequest>, body: string)
    requires fl.Sound() && ParseBody(fl, body).Some?
    ensures Encodable(CanonicOf(fl, req, ParseBody(fl, body).value))
  {
    ParsedNumbersValid(body);
    var ms := StructMembers(Parse(body).value).value;
    var p := ParseBody(fl, body).value;
    FieldsValid(fl, ms, "temperature"); FieldsValid(fl, ms, "top_p"); FieldsValid(fl, ms, "max_tokens");
    FieldsValid(fl, ms, "max_completion_tokens"); FieldsValid(fl, ms, "presence_penalty");
    FieldsValid(fl, ms, "frequency_penalty"); FieldsValid(fl, ms, "response_format");
    FieldsValid(fl, ms, "tool_choice"); FieldsValid(fl, ms, "stop");
    ParamsValid(p);
    AcceptedToolsValid(fl, ms);
    SortKeepsValid(p.tools);
  }

  /** Hashes of accepted bodies agree exactly when the bodies are equivalent. */
  lemma HashesAgreeIffEquivalent(fl: Floats, digest: string -> string,
      hashed: iset<string>, req: Option<HttpRequest>, body1: string, body2: string)
    requires fl.Sound() && ParseBody(fl, body1).Some? && ParseBody(fl, body2).Some?
    requires var p, q := ParseBody(fl, body1).value, ParseBody(fl, body2).value;
             CollisionFree(digest, hashed) && Encode(CanonicOf(fl, req, p)) in hashed
               && Encode(CanonicOf(fl, req, q)) in hashed
    ensures var p, q := ParseBody(fl, body1).value, ParseBody(fl, body2).value;
            Hash(digest, Some(CanonicOf(fl, req, p))) == Hash(digest, Some(CanonicOf(fl, req, q))) <==>
              Equivalent(fl, p, q)
  {
    var p, q := ParseBody(fl, body1).value, ParseBody(fl, body2).value;
    ParsedIsUnmarshalled(fl, body1);
    ParsedIsUnmarshalled(fl, body2);
    CanonicIsEncodable(fl, req, body1);
    CanonicIsEncodable(fl, req, body2);
    HashIdentifies(digest, hashed, CanonicOf(fl, req, p), CanonicOf(fl, req, q));
    CanonicAlikeIffEquivalent(fl, req, p, q);
  }
}
