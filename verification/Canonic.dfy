/** CanonicRequest and its hash (pkg/hasher/hasher.go).

    A Go map[string]interface{} is a member list sorted by key. Fields tagged omitempty are left out when
    empty, so an absent and an empty value are one value here. A nil message slice encodes as null and is
    kept apart from an empty one. */
module Canonic {
  import opened Wrappers
  import opened Json
  import opened JsonProofs
  import opened CanonicalJson

  datatype ToolCall = ToolCall(id: string, kind: string, name: string, arguments: string)

  datatype Message = Message(role: string, content: string, name: string, toolCallId: string, toolCalls: seq<ToolCall>)

  /** `fn` is an object, or null for a nil map. */
  datatype Tool = Tool(kind: string, fn: Json)

  datatype CanonicRequest = CanonicRequest(
    namespace: string,
    provider: string,
    endpoint: string,
    httpMethod: string,
    model: string,
    messages: Option<seq<Message>>,
    parameters: seq<Member>,
    tools: seq<Tool>,
    extraFields: seq<Member>)

  // Struct encoding: fields in declaration order, empty omitempty fields left out.

  function TextIf(key: string, s: string): seq<Member> {
    if s == "" then [] else [Member(key, String(s))]
  }

  function ListIf(key: string, items: seq<Json>): seq<Member> {
    if items == [] then [] else [Member(key, Array(items))]
  }

  function MapIf(key: string, members: seq<Member>): seq<Member> {
    if members == [] then [] else [Member(key, Object(members))]
  }

  function ToolCallTree(c: ToolCall): Json {
    Object(TextIf("id", c.id)
           + [Member("type", String(c.kind)),
              Member("function", Object([Member("name", String(c.name)), Member("arguments", String(c.arguments))]))])
  }

  function ToolCallTrees(cs: seq<ToolCall>): seq<Json> {
    seq(|cs|, i requires 0 <= i < |cs| => ToolCallTree(cs[i]))
  }

  function MessageTree(m: Message): Json {
    Object([Member("role", String(m.role)), Member("content", String(m.content))]
           + (TextIf("name", m.name) + (TextIf("tool_call_id", m.toolCallId)
           + ListIf("tool_calls", ToolCallTrees(m.toolCalls)))))
  }

  function ToolTree(t: Tool): Json {
    Object([Member("type", String(t.kind)), Member("function", t.fn)])
  }

  function MessageTrees(ms: seq<Message>): seq<Json> {
    seq(|ms|, i requires 0 <= i < |ms| => MessageTree(ms[i]))
  }

  function ToolTrees(ts: seq<Tool>): seq<Json> {
    seq(|ts|, i requires 0 <= i < |ts| => ToolTree(ts[i]))
  }

  function FixedFields(r: CanonicRequest): seq<Member> {
    [Member("provider", String(r.provider)), Member("endpoint", String(r.endpoint)),
     Member("method", String(r.httpMethod)), Member("model", String(r.model)),
     Member("messages", if r.messages.Some? then Array(MessageTrees(r.messages.value)) else Null)]
  }

  function Fields(r: CanonicRequest): seq<Member> {
    TextIf("namespace", r.namespace)
    + (FixedFields(r)
    + (MapIf("parameters", r.parameters)
      + (ListIf("tools", ToolTrees(r.tools)) + MapIf("extra_fields", r.extraFields))))
  }

  /** json.Marshal of the request: the bytes that are hashed. */
  function Encode(r: CanonicRequest): string {
    Print(Object(Fields(r)), true)
  }

  /** The free-form JSON values inside the request hold number tokens. */
  predicate Encodable(r: CanonicRequest) {
    MembersValid(r.parameters) && MembersValid(r.extraFields) && forall i | 0 <= i < |r.tools| ::
      NumbersValid(r.tools[i].fn)
  }

  // Reading the fields back.

  function TextAt(members: seq<Member>, key: string): string {
    match First(members, key)
    case Some(String(s)) => s
    case _ => ""
  }

  function ListAt(members: seq<Member>, key: string): seq<Json> {
    match First(members, key)
    case Some(Array(items)) => items
    case _ => []
  }

  function MapAt(members: seq<Member>, key: string): seq<Member> {
    match First(members, key)
    case Some(Object(members)) => members
    case _ => []
  }

  function MembersOf(v: Json): seq<Member> {
    if v.Object? then v.members else []
  }

  function ReadToolCall(v: Json): ToolCall {
    var f := MapAt(MembersOf(v), "function");
    ToolCall(TextAt(MembersOf(v), "id"), TextAt(MembersOf(v), "type"), TextAt(f, "name"), TextAt(f, "arguments"))
  }

  function ReadMessage(v: Json): Message {
    var ms := MembersOf(v);
    var calls := ListAt(ms, "tool_calls");
    Message(TextAt(ms, "role"), TextAt(ms, "content"), TextAt(ms, "name"), TextAt(ms, "tool_call_id"),
            seq(|calls|, i requires 0 <= i < |calls| => ReadToolCall(calls[i])))
  }

  function ReadTool(v: Json): Tool {
    var f := First(MembersOf(v), "function");
    Tool(TextAt(MembersOf(v), "type"), if f.Some? then f.value else Null)
  }

  function ReadRequest(ms: seq<Member>): CanonicRequest {
    var messages, tools := First(ms, "messages"), ListAt(ms, "tools");
    CanonicRequest(
      TextAt(ms, "namespace"), TextAt(ms, "provider"), TextAt(ms, "endpoint"),
      TextAt(ms, "method"), TextAt(ms, "model"),
      if messages.Some? && messages.value.Array?
      then
        var items := messages.value.items;
        Some(seq(|items|, i requires 0 <= i < |items| => ReadMessage(items[i])))
      else None,
      MapAt(ms, "parameters"),
      seq(|tools|, i requires 0 <= i < |tools| => ReadTool(tools[i])),
      MapAt(ms, "extra_fields"))
  }

  lemma {:induction false} FirstAppend(a: seq<Member>, b: seq<Member>, key: string)
    ensures First(a + b, key) == if First(a, key).Some? then First(a, key) else First(b, key)
  {
    if a == [] { assert a + b == b; }
    else { FirstAppend(a[1..], b, key); assert (a + b)[1..] == a[1..] + b; }
  }

  lemma FirstOfTwo(ms: seq<Member>, key: string)
    requires |ms| == 2
    ensures First(ms, key) == if ms[0].key == key then Some(ms[0].value)
                              else if ms[1].key == key then Some(ms[1].value) else None
  {
    var tail := ms[1..];
    assert tail[0] == ms[1] && tail[1..] == [];
    assert First(tail, key) == if tail[0].key == key then Some(tail[0].value) else First(tail[1..], key);
  }

  lemma FirstOfFive(ms: seq<Member>, key: string)
    requires |ms| == 5
    ensures First(ms, key) == if ms[0].key == key then Some(ms[0].value)
                              else if ms[1].key == key then Some(ms[1].value)
                              else if ms[2].key == key then Some(ms[2].value)
                              else if ms[3].key == key then Some(ms[3].value)
                              else if ms[4].key == key then Some(ms[4].value) else None
  {
    FirstOfTwo(ms[3..], key);
    FirstAppend([ms[0]], ms[1..], key);
    FirstAppend([ms[1]], ms[2..], key);
    FirstAppend([ms[2]], ms[3..], key);
    assert ms == [ms[0]] + ms[1..] && ms[1..] == [ms[1]] + ms[2..] && ms[2..] == [ms[2]] + ms[3..];
  }

  lemma FirstOfThreeParts(a: seq<Member>, b: seq<Member>, c: seq<Member>, key: string)
    ensures First(a + (b + c), key) == if First(a, key).Some? then First(a, key)
                                       else if First(b, key).Some? then First(b, key) else First(c, key)
  {
    FirstAppend(a, b + c, key);
    FirstAppend(b, c, key);
  }

  /** A field that is left out when empty is found under its own key only. */
  predicate OneField(ms: seq<Member>, key: string) {
    ms == [] || (|ms| == 1 && ms[0].key == key)
  }

  lemma FirstOfOne(ms: seq<Member>, own: string, key: string)
    requires OneField(ms, own)
    ensures First(ms, key) == if ms != [] && key == own then Some(ms[0].value) else None
  {
    if ms != [] { assert ms[1..] == []; }
  }

  lemma ToolCallReadsBack(c: ToolCall)
    ensures ReadToolCall(ToolCallTree(c)) == c
  {
    var f := [Member("name", String(c.name)), Member("arguments", String(c.arguments))];
    var id, rest := TextIf("id", c.id), [Member("type", String(c.kind)), Member("function", Object(f))];
    forall key
      ensures First(id + rest, key) == if key == "id" && c.id != "" then Some(String(c.id)) else First(rest, key)
    {
      FirstAppend(id, rest, key);
      FirstOfOne(id, "id", key);
    }
    FirstOfTwo(rest, "id"); FirstOfTwo(rest, "type"); FirstOfTwo(rest, "function");
    FirstOfTwo(f, "name"); FirstOfTwo(f, "arguments");
  }

  lemma MessageFields(m: Message, key: string)
    ensures First(MembersOf(MessageTree(m)), key) ==
            if key == "role" then Some(String(m.role))
            else if key == "content" then Some(String(m.content))
            else if key == "name" && m.name != "" then Some(String(m.name))
            else if key == "tool_call_id" && m.toolCallId != "" then Some(String(m.toolCallId))
            else if key == "tool_calls" && m.toolCalls != [] then Some(Array(ToolCallTrees(m.toolCalls)))
            else None
  {
    var head := [Member("role", String(m.role)), Member("content", String(m.content))];
    var a, b, c := TextIf("name", m.name), TextIf("tool_call_id", m.toolCallId),
      ListIf("tool_calls", ToolCallTrees(m.toolCalls));
    assert MembersOf(MessageTree(m)) == head + (a + (b + c));
    FirstAppend(head, a + (b + c), key);
    FirstOfThreeParts(a, b, c, key);
    FirstOfTwo(head, key);
    FirstOfOne(a, "name", key);
    FirstOfOne(b, "tool_call_id", key);
    FirstOfOne(c, "tool_calls", key);
  }

  lemma MessageReadsBack(m: Message)
    ensures ReadMessage(MessageTree(m)) == m
  {
    MessageFields(m, "role"); MessageFields(m, "content"); MessageFields(m, "name");
    MessageFields(m, "tool_call_id"); MessageFields(m, "tool_calls");
    forall i | 0 <= i < |m.toolCalls| ensures ReadToolCall(ToolCallTrees(m.toolCalls)[i]) == m.toolCalls[i] {
      ToolCallReadsBack(m.toolCalls[i]);
    }
    assert ReadMessage(MessageTree(m)).toolCalls == m.toolCalls;
  }

  lemma ToolReadsBack(t: Tool)
    ensures ReadTool(ToolTree(t)) == t
  {
    FirstOfTwo(MembersOf(ToolTree(t)), "type");
    FirstOfTwo(MembersOf(ToolTree(t)), "function");
  }

  lemma RequestFields(r: CanonicRequest, key: string)
    ensures First(Fields(r), key) ==
            if key == "namespace" && r.namespace != "" then Some(String(r.namespace))
            else if key == "provider" then Some(String(r.provider))
            else if key == "endpoint" then Some(String(r.endpoint))
            else if key == "method" then Some(String(r.httpMethod))
            else if key == "model" then Some(String(r.model))
            else if key == "messages"
            then Some(if r.messages.Some? then Array(MessageTrees(r.messages.value)) else Null)
            else if key == "parameters" && r.parameters != [] then Some(Object(r.parameters))
            else if key == "tools" && r.tools != [] then Some(Array(ToolTrees(r.tools)))
            else if key == "extra_fields" && r.extraFields != [] then Some(Object(r.extraFields))
            else None
  {
    var ns := TextIf("namespace", r.namespace);
    var fixed := FixedFields(r);
    var params, tools, extra := MapIf("parameters", r.parameters),
      ListIf("tools", ToolTrees(r.tools)), MapIf("extra_fields", r.extraFields);
    FirstAppend(ns, fixed + (params + (tools + extra)), key);
    FirstAppend(fixed, params + (tools + extra), key);
    FirstOfThreeParts(params, tools, extra, key);
    FirstOfOne(ns, "namespace", key);
    FirstOfFive(fixed, key);
    FirstOfOne(params, "parameters", key);
    FirstOfOne(tools, "tools", key);
    FirstOfOne(extra, "extra_fields", key);
  }

  /** The field list determines the request. */
  lemma FieldsReadBack(r: CanonicRequest)
    ensures ReadRequest(Fields(r)) == r
  {
    RequestFields(r, "namespace"); RequestFields(r, "provider"); RequestFields(r, "endpoint");
    RequestFields(r, "method"); RequestFields(r, "model"); RequestFields(r, "messages");
    RequestFields(r, "parameters"); RequestFields(r, "tools"); RequestFields(r, "extra_fields");
    ToolsReadBack(r.tools);
    var back := ReadRequest(Fields(r));
    if r.messages.Some? {
      MessagesReadBack(r.messages.value);
      assert First(Fields(r), "messages").value.items == MessageTrees(r.messages.value);
      assert back.messages.value == r.messages.value;
    }
    assert ListAt(Fields(r), "tools") == ToolTrees(r.tools);
    assert back.messages == r.messages && back.tools == r.tools;
  }

  lemma ToolsReadBack(ts: seq<Tool>)
    ensures seq(|ToolTrees(ts)|, i requires 0 <= i < |ToolTrees(ts)| => ReadTool(ToolTrees(ts)[i])) == ts
  {
    forall i | 0 <= i < |ts| ensures ReadTool(ToolTrees(ts)[i]) == ts[i] { ToolReadsBack(ts[i]); }
  }

  lemma MessagesReadBack(ms: seq<Message>)
    ensures seq(|MessageTrees(ms)|, i requires 0 <= i < |MessageTrees(ms)| => ReadMessage(MessageTrees(ms)[i])) == ms
  {
    forall i | 0 <= i < |ms| ensures ReadMessage(MessageTrees(ms)[i]) == ms[i] { MessageReadsBack(ms[i]); }
  }

  lemma {:induction false} ItemsValidPointwise(items: seq<Json>)
    requires forall i | 0 <= i < |items| :: NumbersValid(items[i])
    ensures ItemsValid(items)
  {
    if items != [] { ItemsValidPointwise(items[1..]); }
  }

  lemma {:induction false} MembersValidPointwise(members: seq<Member>)
    requires forall i | 0 <= i < |members| :: NumbersValid(members[i].value)
    ensures MembersValid(members)
  {
    if members != [] { MembersValidPointwise(members[1..]); }
  }

  lemma MessageValid(m: Message)
    ensures NumbersValid(MessageTree(m))
  {
    var calls := ToolCallTrees(m.toolCalls);
    forall i | 0 <= i < |calls| ensures NumbersValid(calls[i]) {
      var c := m.toolCalls[i];
      MembersValidPointwise([Member("name", String(c.name)), Member("arguments", String(c.arguments))]);
      MembersValidPointwise(MembersOf(calls[i]));
    }
    ItemsValidPointwise(calls);
    MembersValidPointwise(MembersOf(MessageTree(m)));
  }

  lemma EncodableIsValid(r: CanonicRequest)
    requires Encodable(r)
    ensures NumbersValid(Object(Fields(r)))
  {
    if r.messages.Some? {
      var ms := r.messages.value;
      forall i | 0 <= i < |ms| ensures NumbersValid(MessageTrees(ms)[i]) { MessageValid(ms[i]); }
      ItemsValidPointwise(MessageTrees(ms));
    }
    forall i | 0 <= i < |r.tools| ensures NumbersValid(ToolTrees(r.tools)[i]) {
      MembersValidPointwise(MembersOf(ToolTrees(r.tools)[i]));
    }
    ItemsValidPointwise(ToolTrees(r.tools));
    MembersValidPointwise(Fields(r));
  }

  /** The bytes that are hashed determine the canonical request. */
  lemma EncodeIsInjective(a: CanonicRequest, b: CanonicRequest)
    requires Encodable(a) && Encodable(b) && Encode(a) == Encode(b)
    ensures a == b
  {
    EncodableIsValid(a);
    EncodableIsValid(b);
    PrintIsInjective(Object(Fields(a)), Object(Fields(b)), true);
    FieldsReadBack(a);
    FieldsReadBack(b);
  }

  // Hashing.

  /** Collision freedom on the texts that are ever hashed: the one hypothesis about hex-encoded SHA-256. */
  ghost predicate CollisionFree(digest: string -> string, hashed: iset<string>) {
    forall x, y | x in hashed && y in hashed && digest(x) == digest(y) :: x == y
  }

  /** Hash; nil requests are an error. */
  function Hash(digest: string -> string, r: Option<CanonicRequest>): Result<string, string> {
    if r.None? then Err("canonic request cannot be nil") else Ok(digest(Encode(r.value)))
  }

  /** Two canonical requests share a hash exactly when they are equal. */
  lemma HashIdentifies(digest: string -> string, hashed: iset<string>, a: CanonicRequest, b: CanonicRequest)
    requires CollisionFree(digest, hashed) && Encode(a) in hashed && Encode(b) in hashed
    requires Encodable(a) && Encodable(b)
    ensures Hash(digest, Some(a)) == Hash(digest, Some(b)) <==> a == b
  {
    if Hash(digest, Some(a)) == Hash(digest, Some(b)) { EncodeIsInjective(a, b); }
  }

  /** `r` is a request with this hash among those that are ever hashed. */
  ghost predicate StandsFor(digest: string -> string, hashed: iset<string>, hash: string, r: CanonicRequest) {
    Encodable(r) && Encode(r) in hashed && digest(Encode(r)) == hash
  }

  /** The namespace that a hash stands for. */
  ghost function NamespaceOf(digest: string -> string, hashed: iset<string>, hash: string): string {
    if exists r :: StandsFor(digest, hashed, hash, r)
    then var r :| StandsFor(digest, hashed, hash, r); r.namespace
    else ""
  }

  /** A hash determines the namespace of its request: this discharges the store's hypothesis. */
  lemma HashDeterminesNamespace(digest: string -> string, hashed: iset<string>, r: CanonicRequest)
    requires CollisionFree(digest, hashed) && Encodable(r) && Encode(r) in hashed
    ensures NamespaceOf(digest, hashed, digest(Encode(r))) == r.namespace
  {
    var hash := digest(Encode(r));
    assert StandsFor(digest, hashed, hash, r);
    forall q | StandsFor(digest, hashed, hash, q) ensures q == r { EncodeIsInjective(q, r); }
  }
}
