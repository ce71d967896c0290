/** The canonical requests of the providers, field by field (pkg/hasher/providers): which field of the body or
    of the HTTP request each one holds, and under which name parameters and tools appear. */
module Requests {
  import opened Wrappers
  import opened Ordering
  import opened Paths
  import opened Text
  import opened Json
  import opened JsonProofs
  import opened CanonicalJson
  import opened Canonic
  import opened Tools
  import opened Schema
  import opened OpenAI
  import Anthropic
  import Bodies
  import Encoding
  import Conversation

  // What every provider takes from the HTTP request.

  /** Namespace, endpoint and method are those of the HTTP request, or the defaults where it has none. */
  predicate Addressed(r: CanonicRequest, req: Option<HttpRequest>, default: string) {
    && (req.None? ==> r.namespace == "" && r.endpoint == default && r.httpMethod == "POST")
    && (req.Some? ==>
          && r.namespace == req.value.namespace
          && (if req.value.path == "" then r.endpoint == default else r.endpoint == req.value.path)
          && (if req.value.httpMethod == "" then r.httpMethod == "POST" else r.httpMethod == req.value.httpMethod))
  }

  /** `sorted` holds the tools of `ts` in the order of their names, equal names in the order of the list. */
  ghost predicate SortedByName(sorted: seq<Tool>, ts: seq<Tool>) {
    Ordered(sorted) && multiset(sorted) == multiset(ts) && NamedAlike(sorted, ts)
  }

  /** The name by which a tool is sorted is the string member "name" of its function. */
  lemma ToolNames(t: Tool)
    ensures t.fn.Object? && First(t.fn.members, "name").Some? && First(t.fn.members, "name").value.String? ==>
              First(t.fn.members, "name") == Some(String(NameOf(t)))
    ensures !(t.fn.Object? && First(t.fn.members, "name").Some? && First(t.fn.members, "name").value.String?) ==>
              NameOf(t) == ""
  {
  }

  lemma ToolsAreSorted(ts: seq<Tool>)
    ensures SortedByName(StableSort(ts), ts)
  {
    SortIsOrdered(ts);
    SortIsPermutation(ts);
    SortedAlikeIffNamedAlike(StableSort(ts), ts);
    SortIsIdempotent(ts);
  }

  lemma ParametersAreSorted(params: seq<Member>, key: string, value: Option<Json>)
    requires Sorted(params)
    ensures Sorted(Assign(params, key, value))
  {
    if value.Some? { InsertKeepsSorted(params, Member(key, value.value)); }
  }

  // OpenAI.

  /** The text of a content: strings normalized, other values printed, lists of parts without HTML escaping. */
  predicate ContentIs(text: string, content: Option<Json>) {
    match content
    case None => text == ""
    case Some(String(s)) => text == NormalizeText(s)
    case Some(Array(parts)) => text == Print(Array(parts), false)
    case Some(v) => text == Print(v, true)
  }

  /** Arguments that are a JSON text are canonicalized, others are kept. */
  predicate CallIs(fl: Floats, c: ToolCall, raw: ToolCall) {
    && c.id == raw.id && c.kind == raw.kind && c.name == raw.name
    && c.arguments == match Decode(fl, raw.arguments)
                      case Some(v) => Print(v, false)
                      case None => raw.arguments
  }

  predicate MessageIs(fl: Floats, m: Message, raw: RawMessage) {
    && m.role == Lower(TrimSpace(raw.role)) && ContentIs(m.content, raw.content)
    && m.name == raw.name && m.toolCallId == raw.toolCallId
    && |m.toolCalls| == |raw.toolCalls|
    && forall i | 0 <= i < |m.toolCalls| :: CallIs(fl, m.toolCalls[i], raw.toolCalls[i])
  }

  /** Parameters under their names, sorted, and no others. */
  ghost predicate ChatParameters(params: seq<Member>, p: ChatRequest) {
    && Sorted(params)
    && First(params, "temperature") == p.temperature && First(params, "top_p") == p.topP
    && First(params, "max_tokens") == p.maxTokens && First(params, "max_completion_tokens") == p.maxCompletionTokens
    && First(params, "presence_penalty") == p.presencePenalty
    && First(params, "frequency_penalty") == p.frequencyPenalty
    && First(params, "response_format") == p.responseFormat
    && First(params, "tool_choice") == p.toolChoice && First(params, "stop") == p.stop
    && forall key | First(params, key).Some? ::
         key in {"temperature", "top_p", "max_tokens", "max_completion_tokens", "presence_penalty",
                 "frequency_penalty", "response_format", "tool_choice", "stop"}
  }

  lemma ChatParametersAre(p: ChatRequest)
    ensures ChatParameters(OpenAI.Params(p), p)
  {
    ChatParametersAreSorted(p);
    ChatNumbersAre(p);
    OpenAI.ParamsAnswer(p, "response_format");
    OpenAI.ParamsAnswer(p, "tool_choice");
    OpenAI.ParamsAnswer(p, "stop");
    forall key | First(OpenAI.Params(p), key).Some?
      ensures key in {"temperature", "top_p", "max_tokens", "max_completion_tokens", "presence_penalty",
                      "frequency_penalty", "response_format", "tool_choice", "stop"}
    {
      OpenAI.ParamsAnswer(p, key);
    }
  }

  lemma ChatNumbersAre(p: ChatRequest)
    ensures var params := OpenAI.Params(p);
            && First(params, "temperature") == p.temperature && First(params, "top_p") == p.topP
            && First(params, "max_tokens") == p.maxTokens
            && First(params, "max_completion_tokens") == p.maxCompletionTokens
            && First(params, "presence_penalty") == p.presencePenalty
            && First(params, "frequency_penalty") == p.frequencyPenalty
  {
    OpenAI.ParamsAnswer(p, "temperature");
    OpenAI.ParamsAnswer(p, "top_p");
    OpenAI.ParamsAnswer(p, "max_tokens");
    OpenAI.ParamsAnswer(p, "max_completion_tokens");
    OpenAI.ParamsAnswer(p, "presence_penalty");
    OpenAI.ParamsAnswer(p, "frequency_penalty");
  }

  lemma ChatParametersAreSorted(p: ChatRequest)
    ensures Sorted(OpenAI.Params(p))
  {
    var a1 := Assign([], "temperature", p.temperature);
    var a2 := Assign(a1, "top_p", p.topP);
    var a3 := Assign(a2, "max_tokens", p.maxTokens);
    var a4 := Assign(a3, "max_completion_tokens", p.maxCompletionTokens);
    var a5 := Assign(a4, "presence_penalty", p.presencePenalty);
    var a6 := Assign(a5, "frequency_penalty", p.frequencyPenalty);
    var a7 := Assign(a6, "response_format", p.responseFormat);
    var a8 := Assign(a7, "tool_choice", p.toolChoice);
    ParametersAreSorted([], "temperature", p.temperature);
    ParametersAreSorted(a1, "top_p", p.topP);
    ParametersAreSorted(a2, "max_tokens", p.maxTokens);
    ParametersAreSorted(a3, "max_completion_tokens", p.maxCompletionTokens);
    ParametersAreSorted(a4, "presence_penalty", p.presencePenalty);
    ParametersAreSorted(a5, "frequency_penalty", p.frequencyPenalty);
    ParametersAreSorted(a6, "response_format", p.responseFormat);
    ParametersAreSorted(a7, "tool_choice", p.toolChoice);
    ParametersAreSorted(a8, "stop", p.stop);
  }

  lemma MessageIsCanonic(fl: Floats, m: RawMessage)
    requires IsDecoded(fl, m.content)
    ensures MessageIs(fl, OpenAI.CanonicMessage(fl, m), m)
  {
    if m.content.Some? && m.content.value.Array? { DecodePrinted(fl, m.content.value, true); }
  }

  /** The canonical request of an OpenAI body, field by field. */
  ghost predicate ChatIs(fl: Floats, r: CanonicRequest, provider: string, model: string,
      req: Option<HttpRequest>, p: ChatRequest) {
    && r.provider == provider && Addressed(r, req, "/v1/chat/completions")
    && r.model == model && r.extraFields == []
    && r.messages.Some? && |r.messages.value| == |p.messages|
    && (forall i | 0 <= i < |p.messages| :: MessageIs(fl, r.messages.value[i], p.messages[i]))
    && ChatParameters(r.parameters, p) && SortedByName(r.tools, p.tools)
  }

  lemma ChatIsCanonic(fl: Floats, req: Option<HttpRequest>, p: ChatRequest)
    requires OpenAI.Unmarshalled(fl, p)
    ensures ChatIs(fl, OpenAI.CanonicOf(fl, req, p), "openai", p.model, req, p)
  {
    forall i | 0 <= i < |p.messages|
      ensures MessageIs(fl, OpenAI.CanonicMessages(fl, p.messages)[i], p.messages[i])
    {
      MessageIsCanonic(fl, p.messages[i]);
    }
    ChatParametersAre(p);
    ToolsAreSorted(p.tools);
  }

  // Azure.

  lemma {:induction false} SplitAppend(a: string, b: string)
    ensures Split(a + "/" + b) == Split(a) + Split(b)
  {
    if a == "" {
      assert a + "/" + b == "/" + b && ("/" + b)[1..] == b;
    } else {
      SplitAppend(a[1..], b);
      assert (a + "/" + b)[1..] == a[1..] + "/" + b && (a + "/" + b)[0] == a[0];
      ConsSegments(a[0], Split(a[1..]), Split(b));
    }
  }

  lemma ConsSegments(c: char, a: seq<string>, b: seq<string>)
    requires |a| > 0
    ensures [""] + (a + b) == ([""] + a) + b
    ensures [[c] + (a + b)[0]] + (a + b)[1..] == ([[c] + a[0]] + a[1..]) + b
  {
  }

  lemma {:induction false} DeploymentAfter(before: seq<string>, after: seq<string>, model: string)
    requires "deployments" !in before && |after| > 0
    ensures DeploymentIn(before + ["deployments"] + after, model) == after[0]
  {
    var parts := before + ["deployments"] + after;
    if before != [] {
      DeploymentAfter(before[1..], after, model);
      assert parts[1..] == before[1..] + ["deployments"] + after;
    }
  }

  predicate Occurs(s: string, part: string, i: nat) {
    i + |part| <= |s| && s[i..i + |part|] == part
  }

  lemma {:induction false} ContainsAt(s: string, part: string, i: nat)
    requires Occurs(s, part, i)
    ensures Contains(s, part)
  {
    if i > 0 {
      assert s[1..][i - 1..i - 1 + |part|] == part;
      ContainsAt(s[1..], part, i - 1);
    }
  }

  lemma {:induction false} ContainedSomewhere(s: string, part: string) returns (i: nat)
    requires Contains(s, part)
    ensures Occurs(s, part, i)
  {
    if StartsWith(s, part) { return 0; }
    var j := ContainedSomewhere(s[1..], part);
    assert s[1..][j..j + |part|] == s[j + 1..j + 1 + |part|];
    i := j + 1;
  }

  lemma SegmentBetween(before: string, segment: string, after: string)
    requires '/' !in segment
    ensures var path := before + ("/" + segment + "/") + after;
            Split(path) == Split(before) + [segment] + Split(after)
  {
    var path := before + ("/" + segment + "/") + after;
    assert path == before + "/" + (segment + "/" + after);
    SplitAppend(before, segment + "/" + after);
    SplitAtSeparator(segment, after);
    assert Split(before) + ([segment] + Split(after)) == Split(before) + [segment] + Split(after);
  }

  lemma FirstOf(parts: seq<string>, segment: string, j: nat) returns (k: nat)
    requires j < |parts| && parts[j] == segment
    ensures k <= j && parts[k] == segment && segment !in parts[..k]
  {
    k := 0;
    while parts[k] != segment
      invariant k <= j && segment !in parts[..k]
      decreases j - k
    {
      assert parts[..k + 1] == parts[..k] + [parts[k]];
      k := k + 1;
    }
  }

  lemma OccurrenceSplits(path: string, segment: string, i: nat) returns (before: seq<string>, after: seq<string>)
    requires '/' !in segment && Occurs(path, "/" + segment + "/", i)
    ensures Split(path) == before + [segment] + after && segment !in before && after != []
  {
    var part := "/" + segment + "/";
    var p, q := path[..i], path[i + |part|..];
    assert path == p + part + q;
    SegmentBetween(p, segment, q);
    var parts := Split(path);
    var k := FirstOf(parts, segment, |Split(p)|);
    before, after := parts[..k], parts[k + 1..];
    assert parts == before + [segment] + after;
  }

  /** The model of an Azure request with "/deployments/" in its path is the path segment after the first
      segment "deployments". */
  lemma AzureModelIsDeployment(req: HttpRequest, i: nat, model: string)
      returns (before: seq<string>, after: seq<string>)
    requires Occurs(req.path, "/deployments/", i)
    ensures Split(req.path) == before + ["deployments"] + after && "deployments" !in before && after != []
    ensures AzureModel(Some(req), model) == after[0]
  {
    assert "/" + "deployments" + "/" == "/deployments/";
    before, after := OccurrenceSplits(req.path, "deployments", i);
    ContainsAt(req.path, "/deployments/", i);
    DeploymentAfter(before, after, model);
  }

  /** Without "/deployments/" in its path, or without an HTTP request, the model is that of the body. */
  lemma AzureModelIsKept(req: Option<HttpRequest>, model: string)
    requires req.Some? ==> forall i: nat :: !Occurs(req.value.path, "/deployments/", i)
    ensures AzureModel(req, model) == model
  {
    if req.Some? && Contains(req.value.path, "/deployments/") {
      var i := ContainedSomewhere(req.value.path, "/deployments/");
    }
  }

  lemma AzureIsCanonic(fl: Floats, req: Option<HttpRequest>, p: ChatRequest)
    requires OpenAI.Unmarshalled(fl, p)
    ensures var r := OpenAI.CanonicOf(fl, req, p).(provider := "azure", model := AzureModel(req, p.model));
            ChatIs(fl, r, "azure", AzureModel(req, p.model), req, p)
  {
    ChatIsCanonic(fl, req, p);
  }

  // Anthropic.

  ghost predicate MessagesParameters(params: seq<Member>, p: Anthropic.MessagesRequest) {
    && Sorted(params)
    && First(params, "max_tokens") == p.maxTokens && First(params, "temperature") == p.temperature
    && First(params, "top_p") == p.topP && First(params, "top_k") == p.topK
    && First(params, "tool_choice") == p.toolChoice
    && (if p.stopSequences == [] then First(params, "stop_sequences") == None
        else StopsAre(First(params, "stop_sequences"), p.stopSequences))
    && forall key | First(params, key).Some? ::
         key in {"max_tokens", "temperature", "top_p", "top_k", "stop_sequences", "tool_choice"}
  }

  predicate StopsAre(v: Option<Json>, stops: seq<string>) {
    && v.Some? && v.value.Array? && |v.value.items| == |stops|
    && forall i | 0 <= i < |stops| :: v.value.items[i] == String(stops[i])
  }

  lemma MessagesParametersAre(p: Anthropic.MessagesRequest)
    ensures MessagesParameters(Anthropic.Params(p), p)
  {
    MessagesParametersAreSorted(p);
    Anthropic.ParamsAnswer(p, "max_tokens");
    Anthropic.ParamsAnswer(p, "temperature");
    Anthropic.ParamsAnswer(p, "top_p");
    Anthropic.ParamsAnswer(p, "top_k");
    Anthropic.ParamsAnswer(p, "stop_sequences");
    Anthropic.ParamsAnswer(p, "tool_choice");
    forall key | First(Anthropic.Params(p), key).Some?
      ensures key in {"max_tokens", "temperature", "top_p", "top_k", "stop_sequences", "tool_choice"}
    {
      Anthropic.ParamsAnswer(p, key);
    }
  }

  lemma MessagesParametersAreSorted(p: Anthropic.MessagesRequest)
    ensures Sorted(Anthropic.Params(p))
  {
    var a1 := Assign([], "max_tokens", p.maxTokens);
    var a2 := Assign(a1, "temperature", p.temperature);
    var a3 := Assign(a2, "top_p", p.topP);
    var a4 := Assign(a3, "top_k", p.topK);
    var a5 := Assign(a4, "stop_sequences", Anthropic.StopList(p.stopSequences));
    ParametersAreSorted([], "max_tokens", p.maxTokens);
    ParametersAreSorted(a1, "temperature", p.temperature);
    ParametersAreSorted(a2, "top_p", p.topP);
    ParametersAreSorted(a3, "top_k", p.topK);
    ParametersAreSorted(a4, "stop_sequences", Anthropic.StopList(p.stopSequences));
    ParametersAreSorted(a5, "tool_choice", p.toolChoice);
  }

  /** A tool as OpenAI would have it: kind "function", and a map of its three fields. */
  ghost predicate ToolIs(t: Tool, raw: Anthropic.RawTool) {
    && t.kind == "function" && t.fn.Object? && Sorted(t.fn.members)
    && First(t.fn.members, "name") == Some(String(raw.name))
    && First(t.fn.members, "description") == Some(String(raw.description))
    && First(t.fn.members, "parameters") == Some(raw.inputSchema)
    && forall key | First(t.fn.members, key).Some? :: key in {"name", "description", "parameters"}
  }

  lemma ToolIsCanonic(t: Anthropic.RawTool)
    ensures ToolIs(Anthropic.CanonicTool(t), t)
  {
    var d, n, s := Member("description", String(t.description)), Member("name", String(t.name)),
      Member("parameters", t.inputSchema);
    var ms := Anthropic.CanonicTool(t).fn.members;
    assert ms == [d] + ([n] + [s]);
    forall key
      ensures First(ms, key) == if key == "description" then Some(d.value) else if key == "name" then Some(n.value)
                                else if key == "parameters" then Some(s.value) else None
    {
      FirstOfThreeParts([d], [n], [s], key);
      FirstOfOne([d], "description", key);
      FirstOfOne([n], "name", key);
      FirstOfOne([s], "parameters", key);
    }
    assert "description"[0] < "name"[0] < "parameters"[0];
  }

  ghost predicate ToolsAre(ts: seq<Tool>, raw: seq<Anthropic.RawTool>) {
    |ts| == |raw| && forall i | 0 <= i < |raw| :: ToolIs(ts[i], raw[i])
  }

  lemma ToolsAreCanonic(raw: seq<Anthropic.RawTool>)
    ensures ToolsAre(Anthropic.CanonicTools(raw), raw)
  {
    forall i | 0 <= i < |raw| ensures ToolIs(Anthropic.CanonicTools(raw)[i], raw[i]) { ToolIsCanonic(raw[i]); }
  }

  /** The canonical request of an Anthropic body, field by field; its messages are the turns that the body
      says, the system prompt first. */
  ghost predicate ConversationIs(r: CanonicRequest, req: Option<HttpRequest>, p: Anthropic.MessagesRequest) {
    && r.provider == "anthropic" && Addressed(r, req, "/v1/messages")
    && r.model == p.model && r.extraFields == []
    && r.messages.Some? && RenderAll(r.messages.value, Conversation.TurnsIn(p))
    && MessagesParameters(r.parameters, p)
    && exists ts :: ToolsAre(ts, p.tools) && SortedByName(r.tools, ts)
  }

  ghost predicate RenderAll(ms: seq<Message>, ts: seq<Conversation.Turn>) {
    |ms| == |ts| && forall i | 0 <= i < |ts| :: Conversation.Renders(ms[i], ts[i])
  }

  lemma ConversationIsCanonic(fl: Floats, req: Option<HttpRequest>, p: Anthropic.MessagesRequest)
    requires Conversation.Unmarshalled(fl, p)
    ensures ConversationIs(Anthropic.CanonicOf(fl, req, p), req, p)
  {
    Conversation.MessagesRender(fl, p);
    MessagesParametersAre(p);
    ToolsAreCanonic(p.tools);
    ToolsAreSorted(Anthropic.CanonicTools(p.tools));
  }

  // From body to hashed text.

  /** The text hashed for an OpenAI body tells the request that is, field by field, what the body says. */
  lemma ChatIsHashed(fl: Floats, req: Option<HttpRequest>, body: string, p: ChatRequest)
    requires fl.Sound() && OpenAI.ParseBody(fl, body) == Some(p)
    ensures var r := OpenAI.CanonicOf(fl, req, p);
            && Parse(body).Some? && Bodies.SaysChat(fl, Parse(body).value, p)
            && ChatIs(fl, r, "openai", p.model, req, p)
            && Parse(Encode(r)).Some? && Encoding.TellsRequest(Parse(Encode(r)).value, r)
  {
    Bodies.ChatBodyIsSaid(fl, body, p);
    OpenAI.ParsedIsUnmarshalled(fl, body);
    ChatIsCanonic(fl, req, p);
    OpenAI.CanonicIsEncodable(fl, req, body);
    Encoding.EncodingTells(OpenAI.CanonicOf(fl, req, p));
  }

  /** The same for Anthropic bodies. */
  lemma ConversationIsHashed(fl: Floats, req: Option<HttpRequest>, body: string, p: Anthropic.MessagesRequest)
    requires fl.Sound() && Anthropic.ParseBody(fl, body) == Some(p)
    ensures var r := Anthropic.CanonicOf(fl, req, p);
            && Parse(body).Some? && Bodies.SaysMessages(fl, Parse(body).value, p)
            && ConversationIs(r, req, p)
            && Parse(Encode(r)).Some? && Encoding.TellsRequest(Parse(Encode(r)).value, r)
  {
    Bodies.MessagesBodyIsSaid(fl, body, p);
    Conversation.ParsedIsUnmarshalled(fl, body);
    ConversationIsCanonic(fl, req, p);
    Anthropic.CanonicIsEncodable(fl, req, body);
    Encoding.EncodingTells(Anthropic.CanonicOf(fl, req, p));
  }
}
