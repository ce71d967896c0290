/** The JSON text that is hashed (pkg/hasher/hasher.go), stated by the names of its members. */
module Encoding {
  import opened Wrappers
  import opened Json
  import opened JsonProofs
  import opened CanonicalJson
  import opened Canonic

  function Field(v: Json, key: string): Option<Json> {
    if v.Object? then First(v.members, key) else None
  }

  predicate Tells(v: Json, key: string, s: string) {
    Field(v, key) == Some(String(s))
  }

  /** An omitempty string. */
  predicate TellsIfAny(v: Json, key: string, s: string) {
    Field(v, key) == if s == "" then None else Some(String(s))
  }

  /** An omitempty list, with `tells` for its elements. */
  ghost predicate TellsList<T(!new)>(v: Option<Json>, xs: seq<T>, tells: (Json, T) -> bool) {
    if xs == [] then v == None
    else v.Some? && v.value.Array? && TellsEach(v.value.items, xs, tells)
  }

  ghost predicate TellsEach<T(!new)>(items: seq<Json>, xs: seq<T>, tells: (Json, T) -> bool) {
    |items| == |xs| && forall i | 0 <= i < |xs| :: tells(items[i], xs[i])
  }

  predicate TellsCall(v: Json, c: ToolCall) {
    var f := Field(v, "function");
    && TellsIfAny(v, "id", c.id) && Tells(v, "type", c.kind)
    && f.Some? && Tells(f.value, "name", c.name) && Tells(f.value, "arguments", c.arguments)
  }

  ghost predicate TellsMessage(v: Json, m: Message) {
    && Tells(v, "role", m.role) && Tells(v, "content", m.content)
    && TellsIfAny(v, "name", m.name) && TellsIfAny(v, "tool_call_id", m.toolCallId)
    && TellsList(Field(v, "tool_calls"), m.toolCalls, TellsCall)
  }

  predicate TellsTool(v: Json, t: Tool) {
    Tells(v, "type", t.kind) && Field(v, "function") == Some(t.fn)
  }

  /** An omitempty map. */
  predicate TellsMap(v: Option<Json>, members: seq<Member>) {
    v == if members == [] then None else Some(Object(members))
  }

  ghost predicate TellsMessages(v: Option<Json>, messages: Option<seq<Message>>) {
    if messages.None? then v == Some(Null)
    else v.Some? && v.value.Array? && TellsEach(v.value.items, messages.value, TellsMessage)
  }

  /** The names of the encoded members, in the order of the struct's declaration. */
  function FieldNames(r: CanonicRequest): seq<string> {
    (if r.namespace == "" then [] else ["namespace"])
    + (["provider", "endpoint", "method", "model", "messages"]
    + ((if r.parameters == [] then [] else ["parameters"])
    + ((if r.tools == [] then [] else ["tools"]) + (if r.extraFields == [] then [] else ["extra_fields"]))))
  }

  function Names(members: seq<Member>): seq<string> {
    seq(|members|, i requires 0 <= i < |members| => members[i].key)
  }

  /** The value `v` tells the request `r`: every field under its own name, and no other. */
  ghost predicate TellsRequest(v: Json, r: CanonicRequest) {
    && v.Object? && Names(v.members) == FieldNames(r)
    && TellsIfAny(v, "namespace", r.namespace) && Tells(v, "provider", r.provider)
    && Tells(v, "endpoint", r.endpoint) && Tells(v, "method", r.httpMethod) && Tells(v, "model", r.model)
    && TellsMessages(Field(v, "messages"), r.messages)
    && TellsMap(Field(v, "parameters"), r.parameters)
    && TellsList(Field(v, "tools"), r.tools, TellsTool)
    && TellsMap(Field(v, "extra_fields"), r.extraFields)
  }

  lemma CallTells(c: ToolCall)
    ensures TellsCall(ToolCallTree(c), c)
  {
    var f := [Member("name", String(c.name)), Member("arguments", String(c.arguments))];
    var id, rest := TextIf("id", c.id), [Member("type", String(c.kind)), Member("function", Object(f))];
    forall key
      ensures First(id + rest, key) == if key == "id" && c.id != "" then Some(String(c.id)) else First(rest, key)
    {
      FirstAppend(id, rest, key);
      FirstOfOne(id, "id", key);
    }
    FirstOfTwo(rest, "id");
    FirstOfTwo(rest, "type");
    FirstOfTwo(rest, "function");
    FirstOfTwo(f, "name");
    FirstOfTwo(f, "arguments");
  }

  lemma CallsTell(cs: seq<ToolCall>)
    ensures TellsEach(ToolCallTrees(cs), cs, TellsCall)
  {
    forall i | 0 <= i < |cs| ensures TellsCall(ToolCallTrees(cs)[i], cs[i]) { CallTells(cs[i]); }
  }

  lemma MessageTells(m: Message)
    ensures TellsMessage(MessageTree(m), m)
  {
    MessageFields(m, "role");
    MessageFields(m, "content");
    MessageFields(m, "name");
    MessageFields(m, "tool_call_id");
    MessageFields(m, "tool_calls");
    CallsTell(m.toolCalls);
  }

  lemma ToolTells(t: Tool)
    ensures TellsTool(ToolTree(t), t)
  {
    FirstOfTwo(MembersOf(ToolTree(t)), "type");
    FirstOfTwo(MembersOf(ToolTree(t)), "function");
  }

  lemma NamesAppend(a: seq<Member>, b: seq<Member>)
    ensures Names(a + b) == Names(a) + Names(b)
  {
  }

  lemma FieldsAreNamed(r: CanonicRequest)
    ensures Names(Fields(r)) == FieldNames(r)
  {
    var params, tools, extra := MapIf("parameters", r.parameters),
      ListIf("tools", ToolTrees(r.tools)), MapIf("extra_fields", r.extraFields);
    NamesAppend(tools, extra);
    NamesAppend(params, tools + extra);
    NamesAppend(FixedFields(r), params + (tools + extra));
    NamesAppend(TextIf("namespace", r.namespace), FixedFields(r) + (params + (tools + extra)));
    assert Names(FixedFields(r)) == ["provider", "endpoint", "method", "model", "messages"];
  }

  lemma FieldsTell(r: CanonicRequest)
    ensures TellsRequest(Object(Fields(r)), r)
  {
    FieldsAreNamed(r);
    RequestFields(r, "namespace"); RequestFields(r, "provider"); RequestFields(r, "endpoint");
    RequestFields(r, "method"); RequestFields(r, "model"); RequestFields(r, "messages");
    RequestFields(r, "parameters"); RequestFields(r, "tools"); RequestFields(r, "extra_fields");
    if r.messages.Some? {
      var ms := r.messages.value;
      forall i | 0 <= i < |ms| ensures TellsMessage(MessageTrees(ms)[i], ms[i]) { MessageTells(ms[i]); }
    }
    forall i | 0 <= i < |r.tools| ensures TellsTool(ToolTrees(r.tools)[i], r.tools[i]) { ToolTells(r.tools[i]); }
  }

  lemma MessageToldOnce(v: Json, a: Message, b: Message)
    requires TellsMessage(v, a) && TellsMessage(v, b)
    ensures a == b
  {
    EachToldOnce(if a.toolCalls == [] then [] else Field(v, "tool_calls").value.items,
      a.toolCalls, b.toolCalls, TellsCall);
  }

  lemma EachToldOnce<T(!new)>(items: seq<Json>, xs: seq<T>, ys: seq<T>, tells: (Json, T) -> bool)
    requires TellsEach(items, xs, tells) && TellsEach(items, ys, tells)
    requires forall v, x, y | tells(v, x) && tells(v, y) :: x == y
    ensures xs == ys
  {
  }

  lemma MessagesToldOnce(items: seq<Json>, xs: seq<Message>, ys: seq<Message>)
    requires TellsEach(items, xs, TellsMessage) && TellsEach(items, ys, TellsMessage)
    ensures xs == ys
  {
    forall v, x, y | TellsMessage(v, x) && TellsMessage(v, y) ensures x == y { MessageToldOnce(v, x, y); }
    EachToldOnce(items, xs, ys, TellsMessage);
  }

  /** A value tells at most one request. */
  lemma ToldOnce(v: Json, a: CanonicRequest, b: CanonicRequest)
    requires TellsRequest(v, a) && TellsRequest(v, b)
    ensures a == b
  {
    if a.messages.Some? && b.messages.Some? {
      MessagesToldOnce(Field(v, "messages").value.items, a.messages.value, b.messages.value);
    }
    if a.tools != [] && b.tools != [] {
      EachToldOnce(Field(v, "tools").value.items, a.tools, b.tools, TellsTool);
    }
  }

  /** The hashed text is a JSON text that tells the request, and no other. */
  lemma EncodingTells(r: CanonicRequest)
    requires Encodable(r)
    ensures Parse(Encode(r)).Some?
    ensures forall q :: TellsRequest(Parse(Encode(r)).value, q) <==> q == r
  {
    EncodableIsValid(r);
    PrintParsesBack(Object(Fields(r)), true);
    FieldsTell(r);
    forall q | TellsRequest(Object(Fields(r)), q) ensures q == r { ToldOnce(Object(Fields(r)), q, r); }
  }
}
