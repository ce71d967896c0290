/** The Anthropic canonicalizer (pkg/hasher/providers/anthropic.go). */
module Anthropic {
  import opened Wrappers
  import opened Paths
  import opened Text
  import opened Json
  import opened JsonProofs
  import opened CanonicalJson
  import opened Canonic
  import opened Tools
  import opened Schema
  import OpenAI

  datatype RawMessage = RawMessage(role: string, content: Option<Json>)

  datatype RawTool = RawTool(name: string, description: string, inputSchema: Json)

  datatype MessagesRequest = MessagesRequest(
    model: string,
    messages: seq<RawMessage>,
    system: Option<Json>,
    maxTokens: Option<Json>,
    temperature: Option<Json>,
    topP: Option<Json>,
    topK: Option<Json>,
    stopSequences: seq<string>,
    tools: seq<RawTool>,
    toolChoice: Option<Json>)

  function ParseMessage(fl: Floats, v: Json): Option<RawMessage> {
    match StructMembers(v)
    case None => None
    case Some(ms) =>
      match (TextField(ms, "role"), AnyField(fl, ms, "content"))
      case (Some(role), Some(content)) => Some(RawMessage(role, content))
      case _ => None
  }

  function ParseTool(fl: Floats, v: Json): Option<RawTool> {
    match StructMembers(v)
    case None => None
    case Some(ms) =>
      match (TextField(ms, "name"), TextField(ms, "description"), MapField(fl, ms, "input_schema"))
      case (Some(name), Some(description), Some(schema)) => Some(RawTool(name, description, schema))
      case _ => None
  }

  function ParseText(v: Json): Option<string> {
    match v
    case Null => Some("")
    case String(s) => Some(s)
    case _ => None
  }

  function ParseRequest(fl: Floats, ms: seq<Member>): Option<MessagesRequest> {
    match (TextField(ms, "model"), ParseList(ms, "messages", v => ParseMessage(fl, v)), AnyField(fl, ms, "system"),
           ParseList(ms, "stop_sequences", ParseText), ParseList(ms, "tools", v => ParseTool(fl, v)),
           AnyField(fl, ms, "tool_choice"))
    case (Some(model), Some(messages), Some(system), Some(stops), Some(tools), Some(choice)) =>
      (match (IntField(ms, "max_tokens"), FloatField(fl, ms, "temperature"),
        FloatField(fl, ms, "top_p"), IntField(ms, "top_k"))
       case (Some(maxTokens), Some(temperature), Some(topP), Some(topK)) =>
         Some(MessagesRequest(model, messages, system, maxTokens, temperature, topP, topK, stops, tools, choice))
       case _ => None)
    case _ => None
  }

  function ParseBody(fl: Floats, body: string): Option<MessagesRequest> {
    match Parse(body)
    case None => None
    case Some(v) =>
      match StructMembers(v)
      case None => None
      case Some(ms) => ParseRequest(fl, ms)
  }

  // Content blocks.

  /** Text parts and tool calls gathered from content blocks. */
  datatype Flat = Flat(texts: seq<string>, calls: seq<ToolCall>)

  function ValueAt(ms: seq<Member>, key: string): Json {
    var v := First(ms, key);
    if v.Some? then v.value else Null
  }

  /** One content block added to what was gathered before it. */
  function AddBlock(fl: Floats, flat: Flat, part: Json): Flat {
    if !part.Object? then flat
    else
      var ms := part.members;
      var kind := TextAt(ms, "type");
      if kind == "text" then
        match First(ms, "text")
        case Some(String(txt)) => flat.(texts := flat.texts + [NormalizeText(txt)])
        case _ => flat
      else if kind == "tool_use" then
        flat.(calls := flat.calls + [ToolCall(TextAt(ms, "id"), "function", TextAt(ms, "name"),
                                              CanonicalizeJSON(fl, Print(ValueAt(ms, "input"), true)).text)])
      else if kind == "tool_result" then
        flat.(texts := flat.texts + [CanonicalizeJSON(fl, Print(part, true)).text])
      else flat.(texts := flat.texts + [Print(part, true)])
  }

  function Flatten(fl: Floats, parts: seq<Json>): Flat {
    if parts == [] then Flat([], []) else AddBlock(fl, Flatten(fl, parts[..|parts| - 1]), parts[|parts| - 1])
  }

  function CanonicMessage(fl: Floats, m: RawMessage): Message {
    var role := Lower(TrimSpace(m.role));
    match m.content
    case Some(String(s)) => Message(role, NormalizeText(s), "", "", [])
    case Some(Array(parts)) =>
      var flat := Flatten(fl, parts);
      Message(role, JoinLines(flat.texts), "", "", flat.calls)
    case _ => Message(role, "", "", "", [])
  }

  function CanonicMessages(fl: Floats, ms: seq<RawMessage>): seq<Message> {
    seq(|ms|, i requires 0 <= i < |ms| => CanonicMessage(fl, ms[i]))
  }

  function SystemText(fl: Floats, system: Option<Json>): string {
    match system
    case Some(String(s)) => NormalizeText(s)
    case Some(Array(parts)) => CanonicalizeJSON(fl, Print(Array(parts), true)).text
    case _ => ""
  }

  function SystemMessages(fl: Floats, system: Option<Json>): seq<Message> {
    if SystemText(fl, system) == "" then [] else [Message("system", SystemText(fl, system), "", "", [])]
  }

  function StopList(stops: seq<string>): Option<Json> {
    if stops == [] then None else Some(Array(seq(|stops|, i requires 0 <= i < |stops| => String(stops[i]))))
  }

  function Params(p: MessagesRequest): seq<Member> {
    var a := OpenAI.Assign(OpenAI.Assign(OpenAI.Assign([], "max_tokens", p.maxTokens), "temperature", p.temperature),
      "top_p", p.topP);
    OpenAI.Assign(OpenAI.Assign(OpenAI.Assign(a, "top_k", p.topK), "stop_sequences", StopList(p.stopSequences)),
      "tool_choice", p.toolChoice)
  }

  function CanonicTool(t: RawTool): Tool {
    Tool("function", Object([Member("description", String(t.description)),
      Member("name", String(t.name)), Member("parameters", t.inputSchema)]))
  }

  function CanonicTools(ts: seq<RawTool>): seq<Tool> {
    seq(|ts|, i requires 0 <= i < |ts| => CanonicTool(ts[i]))
  }

  function CanonicOf(fl: Floats, req: Option<OpenAI.HttpRequest>, p: MessagesRequest): CanonicRequest {
    CanonicRequest(OpenAI.NamespaceHeader(req), "anthropic",
      OpenAI.EndpointOf(req, "/v1/messages"), OpenAI.MethodOf(req), p.model,
                   Some(SystemMessages(fl, p.system) + CanonicMessages(fl, p.messages)),
                   Params(p), StableSort(CanonicTools(p.tools)), [])
  }

  method FlattenBlocks(fl: Floats, parts: seq<Json>) returns (contentStr: string, toolCalls: seq<ToolCall>)
    ensures contentStr == JoinLines(Flatten(fl, parts).texts) && toolCalls == Flatten(fl, parts).calls
  {
    var textParts := [];
    toolCalls := [];
    for i := 0 to |parts|
      invariant Flat(textParts, toolCalls) == Flatten(fl, parts[..i])
    {
      assert parts[..i + 1][..i] == parts[..i];
      var part := parts[i];
      if !part.Object? { continue; }
      var pType := TextAt(part.members, "type");
      if pType == "text" {
        match First(part.members, "text") {
          case Some(String(txt)) => textParts := textParts + [NormalizeText(txt)];
          case _ =>
        }
      } else if pType == "tool_use" {
        var argsBytes := Print(ValueAt(part.members, "input"), true);
        var canonArgs := CanonicalizeJSON(fl, argsBytes);
        toolCalls := toolCalls + [ToolCall(TextAt(part.members, "id"),
          "function", TextAt(part.members, "name"), canonArgs.text)];
      } else if pType == "tool_result" {
        var canonRes := CanonicalizeJSON(fl, Print(part, true));
        textParts := textParts + [canonRes.text];
      } else {
        textParts := textParts + [Print(part, true)];
      }
    }
    assert parts[..|parts|] == parts;
    contentStr := JoinLines(textParts);
  }

  method CanonicalizeSystem(fl: Floats, system: Option<Json>) returns (messages: seq<Message>)
    ensures messages == SystemMessages(fl, system)
  {
    messages := [];
    if system.Some? {
      var sysText := "";
      match system.value {
        case String(s) => sysText := NormalizeText(s);
        case Array(parts) => sysText := CanonicalizeJSON(fl, Print(Array(parts), true)).text;
        case _ =>
      }
      if sysText != "" { messages := messages + [Message("system", sysText, "", "", [])]; }
    }
  }

  method CanonicalizeMessage(fl: Floats, m: RawMessage) returns (msg: Message)
    ensures msg == CanonicMessage(fl, m)
  {
    var contentStr, toolCalls := "", [];
    match m.content {
      case Some(String(s)) => contentStr := NormalizeText(s);
      case Some(Array(parts)) => contentStr, toolCalls := FlattenBlocks(fl, parts);
      case _ =>
    }
    msg := Message(Lower(TrimSpace(m.role)), contentStr, "", "", toolCalls);
  }

  method BuildTools(raw: seq<RawTool>) returns (tools: seq<Tool>)
    ensures tools == StableSort(CanonicTools(raw))
  {
    tools := [];
    if |raw| > 0 {
      for i := 0 to |raw|
        invariant |tools| == i && forall k | 0 <= k < i :: tools[k] == CanonicTool(raw[k])
      {
        tools := tools + [CanonicTool(raw[i])];
      }
      assert tools == CanonicTools(raw);
      tools := CanonicalizeTools(tools);
    }
  }

  method CanonicalizeMessages(fl: Floats, parsed: MessagesRequest) returns (messages: seq<Message>)
    ensures messages == SystemMessages(fl, parsed.system) + CanonicMessages(fl, parsed.messages)
  {
    messages := CanonicalizeSystem(fl, parsed.system);
    ghost var n := |messages|;
    for i := 0 to |parsed.messages|
      invariant |messages| == n + i && messages[..n] == SystemMessages(fl, parsed.system)
      invariant forall k | 0 <= k < i :: messages[n + k] == CanonicMessage(fl, parsed.messages[k])
    {
      var msg := CanonicalizeMessage(fl, parsed.messages[i]);
      messages := messages + [msg];
    }
    assert messages[n..] == CanonicMessages(fl, parsed.messages);
    assert messages == messages[..n] + messages[n..];
  }

  method BuildParams(parsed: MessagesRequest) returns (params: seq<Member>)
    ensures params == Params(parsed)
  {
    params := [];
    params := OpenAI.Assign(params, "max_tokens", parsed.maxTokens);
    params := OpenAI.Assign(params, "temperature", parsed.temperature);
    params := OpenAI.Assign(params, "top_p", parsed.topP);
    params := OpenAI.Assign(params, "top_k", parsed.topK);
    params := OpenAI.Assign(params, "stop_sequences", StopList(parsed.stopSequences));
    params := OpenAI.Assign(params, "tool_choice", parsed.toolChoice);
  }

  method Canonicalize(fl: Floats, req: Option<OpenAI.HttpRequest>, body: string)
      returns (r: Result<CanonicRequest, string>)
    ensures r == if body == "" then Err("empty request body")
                 else match ParseBody(fl, body)
                      case None => Err("failed to parse Anthropic request body")
                      case Some(p) => Ok(CanonicOf(fl, req, p))
  {
    if |body| == 0 { return Err("empty request body"); }
    var unmarshalled := ParseBody(fl, body);
    if unmarshalled.None? { return Err("failed to parse Anthropic request body"); }
    var parsed := unmarshalled.value;
    var messages := CanonicalizeMessages(fl, parsed);
    var params := BuildParams(parsed);
    var tools := BuildTools(parsed.tools);
    return Ok(CanonicRequest(OpenAI.NamespaceHeader(req), "anthropic",
      OpenAI.EndpointOf(req, "/v1/messages"), OpenAI.MethodOf(req),
                             parsed.model, Some(messages), params, tools, []));
  }

  // Equivalent requests.

  /** A text given as a string and as a single text block, whatever else the block holds, is one message. */
  lemma StringIsOneTextBlock(fl: Floats, role: string, s: string, block: seq<Member>)
    requires First(block, "type") == Some(String("text")) && First(block, "text") == Some(String(s))
    ensures CanonicMessage(fl, RawMessage(role, Some(String(s)))) ==
            CanonicMessage(fl, RawMessage(role, Some(Array([Object(block)]))))
  {
    var parts := [Object(block)];
    assert parts[..0] == [];
    assert Flatten(fl, parts) == Flat([NormalizeText(s)], []);
  }

  function ToolPart(fl: Floats, part: Json): Flat {
    AddBlock(fl, Flat([], []), part)
  }

  /** Blocks contribute independently: flattening a concatenation concatenates the texts and the calls. */
  lemma {:induction false} FlattenAppends(fl: Floats, a: seq<Json>, b: seq<Json>)
    ensures Flatten(fl, a + b) == Flat(Flatten(fl, a).texts + Flatten(fl, b).texts,
            Flatten(fl, a).calls + Flatten(fl, b).calls)
  {
    if b == [] {
      assert a + b == a;
      assert Flatten(fl, a).texts + [] == Flatten(fl, a).texts && Flatten(fl, a).calls + [] == Flatten(fl, a).calls;
    } else {
      var n := |b| - 1;
      FlattenAppends(fl, a, b[..n]);
      assert (a + b)[..|a + b| - 1] == a + b[..n];
      BlockAppends(fl, Flatten(fl, a), Flatten(fl, b[..n]), b[n]);
    }
  }

  lemma BlockAppends(fl: Floats, a: Flat, b: Flat, part: Json)
    ensures AddBlock(fl, Flat(a.texts + b.texts, a.calls + b.calls), part) ==
            Flat(a.texts + AddBlock(fl, b, part).texts, a.calls + AddBlock(fl, b, part).calls)
  {
    var more := ToolPart(fl, part);
    assert (a.texts + b.texts) + more.texts == a.texts + (b.texts + more.texts);
    assert (a.calls + b.calls) + more.calls == a.calls + (b.calls + more.calls);
    assert forall f: Flat :: f.texts + [] == f.texts && f.calls + [] == f.calls;
  }

  /** Tool calls and text blocks do not disturb each other's order: moving the tool calls behind the other
      blocks leaves the message as it is. */
  lemma CallsAndTextsCommute(fl: Floats, texts: seq<Json>, calls: seq<Json>)
    requires Flatten(fl, texts).calls == [] && Flatten(fl, calls).texts == []
    ensures Flatten(fl, texts + calls) == Flatten(fl, calls + texts)
  {
    FlattenAppends(fl, texts, calls);
    FlattenAppends(fl, calls, texts);
    assert Flatten(fl, texts).texts + [] == [] + Flatten(fl, texts).texts;
    assert Flatten(fl, calls).calls + [] == [] + Flatten(fl, calls).calls;
  }

  function ParamAt(p: MessagesRequest, key: string): Option<Json> {
    if key == "max_tokens" then p.maxTokens
    else if key == "temperature" then p.temperature
    else if key == "top_p" then p.topP
    else if key == "top_k" then p.topK
    else if key == "stop_sequences" then StopList(p.stopSequences)
    else if key == "tool_choice" then p.toolChoice
    else None
  }

  lemma SameParam(p: MessagesRequest, q: MessagesRequest, key: string)
    requires Params(p) == Params(q)
    ensures ParamAt(p, key) == ParamAt(q, key)
  {
    ParamsAnswer(p, key);
    ParamsAnswer(q, key);
  }

  lemma ParamsAnswer(p: MessagesRequest, key: string)
    ensures First(Params(p), key) == ParamAt(p, key)
  {
    var a1 := OpenAI.Assign([], "max_tokens", p.maxTokens);
    var a2 := OpenAI.Assign(a1, "temperature", p.temperature);
    var a3 := OpenAI.Assign(a2, "top_p", p.topP);
    var a4 := OpenAI.Assign(a3, "top_k", p.topK);
    var a5 := OpenAI.Assign(a4, "stop_sequences", StopList(p.stopSequences));
    OpenAI.AssignAnswers([], "max_tokens", p.maxTokens, key);
    OpenAI.AssignAnswers(a1, "temperature", p.temperature, key);
    OpenAI.AssignAnswers(a2, "top_p", p.topP, key);
    OpenAI.AssignAnswers(a3, "top_k", p.topK, key);
    OpenAI.AssignAnswers(a4, "stop_sequences", StopList(p.stopSequences), key);
    OpenAI.AssignAnswers(a5, "tool_choice", p.toolChoice, key);
  }

  lemma StopListInjective(a: seq<string>, b: seq<string>)
    ensures StopList(a) == StopList(b) <==> a == b
  {
    if StopList(a) == StopList(b) && a != [] {
      var x, y := StopList(a).value.items, StopList(b).value.items;
      assert |a| == |x| == |y| == |b|;
      forall i | 0 <= i < |a| ensures a[i] == b[i] { assert x[i] == y[i]; }
    }
  }

  lemma ParamsDetermineFields(p: MessagesRequest, q: MessagesRequest)
    ensures Params(p) == Params(q) <==>
            && p.maxTokens == q.maxTokens && p.temperature == q.temperature && p.topP == q.topP && p.topK == q.topK
            && p.stopSequences == q.stopSequences && p.toolChoice == q.toolChoice
  {
    StopListInjective(p.stopSequences, q.stopSequences);
    if Params(p) == Params(q) {
      SameParam(p, q, "max_tokens"); SameParam(p, q, "temperature"); SameParam(p, q, "top_p");
      SameParam(p, q, "top_k"); SameParam(p, q, "stop_sequences"); SameParam(p, q, "tool_choice");
    }
  }

  /** The name of a canonical tool is the name the body gave it. */
  lemma CanonicToolName(t: RawTool)
    ensures NameOf(CanonicTool(t)) == t.name
  {
    var ms := MembersOf(CanonicTool(t).fn);
    assert ms[1..][0] == ms[1];
    assert First(ms, "name") == First(ms[1..], "name");
  }

  // Body text.

  const SchemaKeys := {"model", "messages", "system", "max_tokens", "temperature", "top_p", "top_k", "stop_sequences",
                       "tools", "tool_choice"}

  /** Two bodies whose schema members hold the same values, whatever their order and other members. */
  ghost predicate BodiesAgree(a: seq<Member>, b: seq<Member>) {
    forall key | key in SchemaKeys :: Agree(Last(a, key), Last(b, key))
  }

  lemma MessagesRespected(fl: Floats)
    requires fl.Sound()
    ensures Respects(v => ParseMessage(fl, v))
  {
    forall v, w | Same(Exact, v, w) && NumbersValid(v) && NumbersValid(w)
        && ParseMessage(fl, v).Some? && ParseMessage(fl, w).Some?
      ensures ParseMessage(fl, v) == ParseMessage(fl, w)
    {
      if v.Object? {
        ObjectFieldsAgree(fl, v.members, w.members, "role");
        ObjectFieldsAgree(fl, v.members, w.members, "content");
      }
    }
  }

  lemma ToolsRespected(fl: Floats)
    requires fl.Sound()
    ensures Respects(v => ParseTool(fl, v))
  {
    forall v, w | Same(Exact, v, w) && NumbersValid(v) && NumbersValid(w)
        && ParseTool(fl, v).Some? && ParseTool(fl, w).Some?
      ensures ParseTool(fl, v) == ParseTool(fl, w)
    {
      if v.Object? {
        ObjectFieldsAgree(fl, v.members, w.members, "name");
        ObjectFieldsAgree(fl, v.members, w.members, "description");
        ObjectFieldsAgree(fl, v.members, w.members, "input_schema");
      }
    }
  }

  lemma AgreeingBodiesParseAlike(fl: Floats, a: seq<Member>, b: seq<Member>)
    requires fl.Sound() && MembersValid(a) && MembersValid(b) && BodiesAgree(a, b)
    requires ParseRequest(fl, a).Some? && ParseRequest(fl, b).Some?
    ensures ParseRequest(fl, a) == ParseRequest(fl, b)
  {
    MessagesRespected(fl);
    ToolsRespected(fl);
    ListsAgree(a, b, "messages", v => ParseMessage(fl, v));
    ListsAgree(a, b, "tools", v => ParseTool(fl, v));
    ListsAgree(a, b, "stop_sequences", ParseText);
    FieldsAgree(fl, a, b, "model"); FieldsAgree(fl, a, b, "system"); FieldsAgree(fl, a, b, "max_tokens");
    FieldsAgree(fl, a, b, "temperature"); FieldsAgree(fl, a, b, "top_p"); FieldsAgree(fl, a, b, "top_k");
    FieldsAgree(fl, a, b, "tool_choice");
  }

  /** Bodies that are both accepted and agree on the schema's members get the same canonical request. */
  lemma BodyTextDoesNotMatter(fl: Floats, req: Option<OpenAI.HttpRequest>, body1: string, body2: string)
    requires fl.Sound() && ParseBody(fl, body1).Some? && ParseBody(fl, body2).Some?
    requires Parse(body1).value.Object? && Parse(body2).value.Object?
    requires BodiesAgree(Parse(body1).value.members, Parse(body2).value.members)
    ensures CanonicOf(fl, req, ParseBody(fl, body1).value) == CanonicOf(fl, req, ParseBody(fl, body2).value)
  {
    ParsedNumbersValid(body1);
    ParsedNumbersValid(body2);
    AgreeingBodiesParseAlike(fl, Parse(body1).value.members, Parse(body2).value.members);
  }

  // Hashing.

  lemma ParamsValid(p: MessagesRequest)
    requires ValidIfAny(p.maxTokens) && ValidIfAny(p.temperature)
             && ValidIfAny(p.topP) && ValidIfAny(p.topK) && ValidIfAny(p.toolChoice)
    ensures MembersValid(Params(p))
  {
    var a1 := OpenAI.Assign([], "max_tokens", p.maxTokens);
    var a2 := OpenAI.Assign(a1, "temperature", p.temperature);
    var a3 := OpenAI.Assign(a2, "top_p", p.topP);
    var a4 := OpenAI.Assign(a3, "top_k", p.topK);
    var a5 := OpenAI.Assign(a4, "stop_sequences", StopList(p.stopSequences));
    if p.stopSequences != [] { ItemsValidPointwise(StopList(p.stopSequences).value.items); }
    OpenAI.AssignKeepsValid([], "max_tokens", p.maxTokens);
    OpenAI.AssignKeepsValid(a1, "temperature", p.temperature);
    OpenAI.AssignKeepsValid(a2, "top_p", p.topP);
    OpenAI.AssignKeepsValid(a3, "top_k", p.topK);
    OpenAI.AssignKeepsValid(a4, "stop_sequences", StopList(p.stopSequences));
    OpenAI.AssignKeepsValid(a5, "tool_choice", p.toolChoice);
  }

  lemma AcceptedToolsValid(fl: Floats, ms: seq<Member>)
    requires fl.Sound() && MembersValid(ms) && ParseList(ms, "tools", v => ParseTool(fl, v)).Some?
    ensures var ts := CanonicTools(ParseList(ms, "tools", v => ParseTool(fl, v)).value);
            forall i | 0 <= i < |ts| :: NumbersValid(ts[i].fn)
  {
    var f := v => ParseTool(fl, v);
    var raw := ParseList(ms, "tools", f).value;
    forall i | 0 <= i < |raw| ensures NumbersValid(CanonicTool(raw[i]).fn) {
      var v := ListElement(ms, "tools", f, i);
      FieldsValid(fl, if v.Object? then v.members else [], "input_schema");
      MembersValidPointwise(MembersOf(CanonicTool(raw[i]).fn));
    }
  }

  lemma CanonicIsEncodable(fl: Floats, req: Option<OpenAI.HttpRequest>, body: string)
    requires fl.Sound() && ParseBody(fl, body).Some?
    ensures Encodable(CanonicOf(fl, req, ParseBody(fl, body).value))
  {
    ParsedNumbersValid(body);
    var ms := StructMembers(Parse(body).value).value;
    var p := ParseBody(fl, body).value;
    FieldsValid(fl, ms, "max_tokens"); FieldsValid(fl, ms, "temperature"); FieldsValid(fl, ms, "top_p");
    FieldsValid(fl, ms, "top_k"); FieldsValid(fl, ms, "tool_choice");
    ParamsValid(p);
    AcceptedToolsValid(fl, ms);
    OpenAI.SortKeepsValid(CanonicTools(p.tools));
  }
}
