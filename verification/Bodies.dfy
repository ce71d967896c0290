/** What json.Unmarshal makes of a body, stated by the values at literal member names
    (pkg/hasher/providers/openai.go, pkg/hasher/providers/anthropic.go).

    A request is what a body says if each field is the value of the last member of its name: a body is
    accepted exactly when it says some request, and then the request is that one. Conversely every request
    has a body, and each text of it is read as that request. */
module Bodies {
  import opened Wrappers
  import opened Json
  import opened JsonProofs
  import opened CanonicalJson
  import opened Canonic
  import opened Schema
  import opened Spellings
  import OpenAI
  import Anthropic

  // Integers.

  function Decimal(n: nat): string {
    if n < 10 then ["0123456789"[n]] else Decimal(n / 10) + ["0123456789"[n % 10]]
  }

  function DecimalText(n: int): string {
    if n < 0 then "-" + Decimal(-n) else Decimal(n)
  }

  lemma DigitIs(n: nat)
    requires n < 10
    ensures IsDigit("0123456789"[n]) && "0123456789"[n] as int == '0' as int + n
  {
    assert n == 0 || n == 1 || n == 2 || n == 3 || n == 4 || n == 5 || n == 6 || n == 7 || n == 8 || n == 9;
  }

  lemma DigitsSnoc(s: string, c: char)
    requires IsDigit(c)
    ensures Digits(s + [c]) == 10 * Digits(s) + (c as int - '0' as int)
  {
    assert (s + [c])[..|s|] == s;
  }

  lemma {:induction false} DecimalReads(n: nat)
    ensures AllDigits(Decimal(n)) && Digits(Decimal(n)) == n && (Decimal(n)[0] == '0' ==> n == 0)
    ensures |Decimal(n)| > 1 ==> Decimal(n)[0] != '0'
  {
    DigitIs(n % 10);
    if n < 10 {
      DigitsSnoc("", "0123456789"[n]);
      assert "" + ["0123456789"[n]] == ["0123456789"[n]];
    } else {
      DecimalReads(n / 10);
      DigitsSnoc(Decimal(n / 10), "0123456789"[n % 10]);
      assert Decimal(n)[0] == Decimal(n / 10)[0];
    }
  }

  lemma {:induction false} LeadingDigit(s: string)
    requires AllDigits(s) && s[0] != '0'
    ensures Digits(s) > 0
  {
    var k := |s| - 1;
    assert s == s[..k] + [s[k]];
    DigitsSnoc(s[..k], s[k]);
    if k > 0 { LeadingDigit(s[..k]); }
  }

  lemma {:induction false} DigitsAreDecimal(s: string)
    requires AllDigits(s) && (|s| > 1 ==> s[0] != '0')
    ensures Decimal(Digits(s)) == s
  {
    var k := |s| - 1;
    var front, c := s[..k], s[k];
    var d := c as int - '0' as int;
    DigitIs(d);
    assert s == front + [c];
    DigitsSnoc(front, c);
    if k > 0 {
      DigitsAreDecimal(front);
      LeadingDigit(front);
      DecimalSnoc(Digits(front), d);
    } else {
      assert front == "";
    }
  }

  lemma DecimalSnoc(n: nat, d: nat)
    requires n > 0 && d < 10
    ensures Decimal(10 * n + d) == Decimal(n) + ["0123456789"[d]]
  {
    assert (10 * n + d) / 10 == n && (10 * n + d) % 10 == d;
  }

  /** The tokens that a Go int takes: decimal integers in the 64-bit range, and minus zero as zero. */
  predicate IsInt64(token: string, printed: string) {
    (token == "-0" && printed == "0") || (printed == token && Fits64(token))
  }

  predicate Fits64(token: string) {
    exists n: int | -0x8000_0000_0000_0000 <= n <= 0x7fff_ffff_ffff_ffff :: token == DecimalText(n)
  }

  lemma NaturalFits(m: nat)
    requires m <= 0x7fff_ffff_ffff_ffff
    ensures Int64(Decimal(m)) == Some(Decimal(m))
  {
    DecimalReads(m);
    SpanAll(Decimal(m), IsDigit);
    assert Decimal(m)[0] != '-';
  }

  lemma NegativeFits(m: nat)
    requires 0 < m <= 0x8000_0000_0000_0000
    ensures Int64("-" + Decimal(m)) == Some("-" + Decimal(m))
  {
    var token := "-" + Decimal(m);
    DecimalReads(m);
    SpanAll(Decimal(m), IsDigit);
    assert token[0] == '-' && token[1..] == Decimal(m) && token[1] == Decimal(m)[0];
  }

  lemma DecimalFits(n: int)
    requires -0x8000_0000_0000_0000 <= n <= 0x7fff_ffff_ffff_ffff
    ensures Int64(DecimalText(n)) == Some(DecimalText(n))
  {
    if n < 0 { NegativeFits(-n); } else { NaturalFits(n); }
  }

  lemma NaturalIsDecimal(digits: string)
    requires AllDigits(digits) && (|digits| > 1 ==> digits[0] != '0') && Digits(digits) <= 0x7fff_ffff_ffff_ffff
    ensures Fits64(digits)
  {
    DigitsAreDecimal(digits);
    var n: int := Digits(digits);
    assert digits == DecimalText(n);
  }

  lemma NegativeIsDecimal(digits: string)
    requires AllDigits(digits) && (|digits| > 1 ==> digits[0] != '0') && Digits(digits) <= 0x8000_0000_0000_0000
    requires digits != "0"
    ensures Fits64("-" + digits)
  {
    DigitsAreDecimal(digits);
    assert Decimal(0) == "0";
    var n: int := 0 - Digits(digits);
    assert "-" + digits == DecimalText(n);
  }

  lemma Int64IsDecimal(token: string)
    requires IsNumber(token) && Int64(token).Some? && token != "-0"
    ensures Fits64(token) && Int64(token) == Some(token)
  {
    if token[0] == '-' {
      assert token == "-" + token[1..];
      NegativeIsDecimal(token[1..]);
    } else {
      NaturalIsDecimal(token);
    }
  }

  lemma Int64Exactly(token: string, printed: string)
    requires IsNumber(token)
    ensures Int64(token) == Some(printed) <==> IsInt64(token, printed)
  {
    if token == "-0" {
      assert token[1..] == "0" && Span("0", IsDigit) == 1;
      assert Digits("0") == 0 by { DigitsSnoc("", '0'); assert "" + "0" == "0"; }
      if Fits64(token) {
        var n: int :| -0x8000_0000_0000_0000 <= n <= 0x7fff_ffff_ffff_ffff && token == DecimalText(n);
        DecimalFits(n);
      }
    } else {
      if Int64(token).Some? { Int64IsDecimal(token); }
      if Fits64(token) {
        var n: int :| -0x8000_0000_0000_0000 <= n <= 0x7fff_ffff_ffff_ffff && token == DecimalText(n);
        DecimalFits(n);
      }
    }
  }

  // What the value of a member says about a field.

  /** The last member of that name, if `v` is an object. */
  function At(v: Json, key: string): Option<Json> {
    if v.Object? then Last(v.members, key) else None
  }

  predicate Nothing(v: Option<Json>) {
    v.None? || v == Some(Null)
  }

  predicate SaysText(v: Option<Json>, s: string) {
    if Nothing(v) then s == "" else v == Some(String(s))
  }

  /** A field of any JSON type holds the decoded value. */
  predicate SaysValue(fl: Floats, v: Option<Json>, x: Option<Json>) {
    if Nothing(v) then x == None else x.Some? && Decoded(fl, v.value) == x
  }

  predicate SaysFloat(fl: Floats, v: Option<Json>, x: Option<Json>) {
    if Nothing(v) then x == None
    else v.value.Number? && x.Some? && x.value.Number? && fl.canon(v.value.token) == Some(x.value.token)
  }

  predicate SaysInt(v: Option<Json>, x: Option<Json>) {
    if Nothing(v) then x == None
    else v.value.Number? && x.Some? && x.value.Number? && IsInt64(v.value.token, x.value.token)
  }

  predicate SaysMap(fl: Floats, v: Option<Json>, x: Json) {
    if Nothing(v) then x == Null else v.value.Object? && Decoded(fl, v.value) == Some(x)
  }

  /** The elements of a list, one by one. */
  ghost predicate SaysList<T(!new)>(v: Option<Json>, xs: seq<T>, says: (Json, T) -> bool) {
    if Nothing(v) then xs == []
    else v.value.Array? && |v.value.items| == |xs| && forall i | 0 <= i < |xs| :: says(v.value.items[i], xs[i])
  }

  /** Structs are read from objects; null is the empty struct. */
  predicate IsStruct(v: Json) {
    v.Object? || v.Null?
  }

  // OpenAI bodies.

  predicate SaysCall(v: Json, c: ToolCall) {
    var f := At(v, "function");
    && IsStruct(v) && SaysText(At(v, "id"), c.id) && SaysText(At(v, "type"), c.kind)
    && (f.Some? ==> IsStruct(f.value))
    && SaysText(if f.Some? then At(f.value, "name") else None, c.name)
    && SaysText(if f.Some? then At(f.value, "arguments") else None, c.arguments)
  }

  ghost predicate SaysMessage(fl: Floats, v: Json, m: OpenAI.RawMessage) {
    && IsStruct(v) && SaysText(At(v, "role"), m.role) && SaysValue(fl, At(v, "content"), m.content)
    && SaysText(At(v, "name"), m.name) && SaysText(At(v, "tool_call_id"), m.toolCallId)
    && SaysList(At(v, "tool_calls"), m.toolCalls, SaysCall)
  }

  predicate SaysTool(fl: Floats, v: Json, t: Tool) {
    IsStruct(v) && SaysText(At(v, "type"), t.kind) && SaysMap(fl, At(v, "function"), t.fn)
  }

  /** The body value `v` says the request `p`. */
  ghost predicate SaysChat(fl: Floats, v: Json, p: OpenAI.ChatRequest) {
    && IsStruct(v) && SaysText(At(v, "model"), p.model)
    && SaysList(At(v, "messages"), p.messages, (e, m) => SaysMessage(fl, e, m))
    && SaysFloat(fl, At(v, "temperature"), p.temperature) && SaysFloat(fl, At(v, "top_p"), p.topP)
    && SaysInt(At(v, "max_tokens"), p.maxTokens) && SaysInt(At(v, "max_completion_tokens"), p.maxCompletionTokens)
    && SaysFloat(fl, At(v, "presence_penalty"), p.presencePenalty)
    && SaysFloat(fl, At(v, "frequency_penalty"), p.frequencyPenalty)
    && SaysValue(fl, At(v, "response_format"), p.responseFormat)
    && SaysList(At(v, "tools"), p.tools, (e, t) => SaysTool(fl, e, t))
    && SaysValue(fl, At(v, "tool_choice"), p.toolChoice) && SaysValue(fl, At(v, "stop"), p.stop)
  }

  // Anthropic bodies.

  predicate SaysTurn(fl: Floats, v: Json, m: Anthropic.RawMessage) {
    IsStruct(v) && SaysText(At(v, "role"), m.role) && SaysValue(fl, At(v, "content"), m.content)
  }

  predicate SaysRawTool(fl: Floats, v: Json, t: Anthropic.RawTool) {
    && IsStruct(v) && SaysText(At(v, "name"), t.name) && SaysText(At(v, "description"), t.description)
    && SaysMap(fl, At(v, "input_schema"), t.inputSchema)
  }

  ghost predicate SaysMessages(fl: Floats, v: Json, p: Anthropic.MessagesRequest) {
    && IsStruct(v) && SaysText(At(v, "model"), p.model)
    && SaysList(At(v, "messages"), p.messages, (e, m) => SaysTurn(fl, e, m))
    && SaysValue(fl, At(v, "system"), p.system)
    && SaysInt(At(v, "max_tokens"), p.maxTokens)
    && SaysFloat(fl, At(v, "temperature"), p.temperature) && SaysFloat(fl, At(v, "top_p"), p.topP)
    && SaysInt(At(v, "top_k"), p.topK)
    && SaysList(At(v, "stop_sequences"), p.stopSequences, (e, s) => SaysText(Some(e), s))
    && SaysList(At(v, "tools"), p.tools, (e, t) => SaysRawTool(fl, e, t))
    && SaysValue(fl, At(v, "tool_choice"), p.toolChoice)
  }

  // Fields are read as they say.

  lemma TextIsSaid(ms: seq<Member>, key: string, s: string)
    ensures TextField(ms, key) == Some(s) <==> SaysText(Last(ms, key), s)
  {
  }

  lemma ValueIsSaid(fl: Floats, ms: seq<Member>, key: string, x: Option<Json>)
    ensures AnyField(fl, ms, key) == Some(x) <==> SaysValue(fl, Last(ms, key), x)
  {
  }

  lemma FloatIsSaid(fl: Floats, ms: seq<Member>, key: string, x: Option<Json>)
    ensures FloatField(fl, ms, key) == Some(x) <==> SaysFloat(fl, Last(ms, key), x)
  {
  }

  lemma IntIsSaid(ms: seq<Member>, key: string, x: Option<Json>)
    requires MembersValid(ms)
    ensures IntField(ms, key) == Some(x) <==> SaysInt(Last(ms, key), x)
  {
    LastValid(ms, key);
    if Last(ms, key).Some? && Last(ms, key).value.Number? && x.Some? && x.value.Number? {
      Int64Exactly(Last(ms, key).value.token, x.value.token);
    }
  }

  lemma MapIsSaid(fl: Floats, ms: seq<Member>, key: string, x: Json)
    ensures MapField(fl, ms, key) == Some(x) <==> SaysMap(fl, Last(ms, key), x)
  {
  }

  lemma {:induction false} CollectIsSaid<T(!new)>(items: seq<Json>, f: Json -> Option<T>, xs: seq<T>)
    ensures Collect(items, f) == Some(xs) <==> |items| == |xs| && forall i | 0 <= i < |xs| :: f(items[i]) == Some(xs[i])
  {
    if items != [] && xs != [] {
      CollectIsSaid(items[1..], f, xs[1..]);
      assert xs == [xs[0]] + xs[1..];
      if |items| == |xs| && forall i | 0 <= i < |xs| :: f(items[i]) == Some(xs[i]) {
        assert forall i | 0 <= i < |xs[1..]| :: items[1..][i] == items[i + 1] && xs[1..][i] == xs[i + 1];
      }
      if Collect(items, f) == Some(xs) {
        forall i | 0 <= i < |xs| ensures f(items[i]) == Some(xs[i]) {
          if i > 0 { assert items[1..][i - 1] == items[i] && xs[1..][i - 1] == xs[i]; }
        }
      }
    }
  }

  lemma ListIsSaid<T(!new)>(ms: seq<Member>, key: string, f: Json -> Option<T>, xs: seq<T>, says: (Json, T) -> bool)
    requires MembersValid(ms)
    requires forall e, x | NumbersValid(e) :: f(e) == Some(x) <==> says(e, x)
    ensures ParseList(ms, key, f) == Some(xs) <==> SaysList(Last(ms, key), xs, says)
  {
    LastValid(ms, key);
    if ListField(ms, key).Some? {
      var items := ListField(ms, key).value;
      CollectIsSaid(items, f, xs);
      if !Nothing(Last(ms, key)) { ItemsPointwise(items); }
    }
  }

  lemma StructIsSaid(v: Json)
    ensures StructMembers(v).Some? <==> IsStruct(v)
    ensures IsStruct(v) ==> forall key :: Last(StructMembers(v).value, key) == At(v, key)
    ensures IsStruct(v) && NumbersValid(v) ==> MembersValid(StructMembers(v).value)
  {
  }

  lemma FunctionIsSaid(ms: seq<Member>, name: string, arguments: string)
    ensures OpenAI.ParseFunction(ms) == Some((name, arguments)) <==>
              var f := Last(ms, "function");
              && (f.Some? ==> IsStruct(f.value))
              && SaysText(if f.Some? then At(f.value, "name") else None, name)
              && SaysText(if f.Some? then At(f.value, "arguments") else None, arguments)
  {
    var f := Last(ms, "function");
    if f.Some? { StructIsSaid(f.value); }
    if StructField(ms, "function").Some? {
      TextIsSaid(StructField(ms, "function").value, "name", name);
      TextIsSaid(StructField(ms, "function").value, "arguments", arguments);
    }
  }

  lemma CallIsSaid(v: Json, c: ToolCall)
    ensures OpenAI.ParseToolCall(v) == Some(c) <==> SaysCall(v, c)
  {
    StructIsSaid(v);
    if IsStruct(v) {
      var ms := StructMembers(v).value;
      TextIsSaid(ms, "id", c.id);
      TextIsSaid(ms, "type", c.kind);
      FunctionIsSaid(ms, c.name, c.arguments);
    }
  }

  lemma MessageIsSaid(fl: Floats, v: Json, m: OpenAI.RawMessage)
    requires NumbersValid(v)
    ensures OpenAI.ParseMessage(fl, v) == Some(m) <==> SaysMessage(fl, v, m)
  {
    StructIsSaid(v);
    if IsStruct(v) {
      var ms := StructMembers(v).value;
      TextIsSaid(ms, "role", m.role);
      ValueIsSaid(fl, ms, "content", m.content);
      TextIsSaid(ms, "name", m.name);
      TextIsSaid(ms, "tool_call_id", m.toolCallId);
      forall e, c | NumbersValid(e) ensures OpenAI.ParseToolCall(e) == Some(c) <==> SaysCall(e, c) { CallIsSaid(e, c); }
      ListIsSaid(ms, "tool_calls", OpenAI.ParseToolCall, m.toolCalls, SaysCall);
    }
  }

  lemma ToolIsSaid(fl: Floats, v: Json, t: Tool)
    ensures OpenAI.ParseTool(fl, v) == Some(t) <==> SaysTool(fl, v, t)
  {
    StructIsSaid(v);
    if IsStruct(v) {
      TextIsSaid(StructMembers(v).value, "type", t.kind);
      MapIsSaid(fl, StructMembers(v).value, "function", t.fn);
    }
  }

  lemma ChatIsSaid(fl: Floats, v: Json, p: OpenAI.ChatRequest)
    requires NumbersValid(v) && IsStruct(v)
    ensures OpenAI.ParseRequest(fl, StructMembers(v).value) == Some(p) <==> SaysChat(fl, v, p)
  {
    var ms := StructMembers(v).value;
    StructIsSaid(v);
    TextIsSaid(ms, "model", p.model);
    forall e, m | NumbersValid(e) ensures OpenAI.ParseMessage(fl, e) == Some(m) <==> SaysMessage(fl, e, m) {
      MessageIsSaid(fl, e, m);
    }
    ListIsSaid(ms, "messages", v => OpenAI.ParseMessage(fl, v), p.messages, (e, m) => SaysMessage(fl, e, m));
    FloatIsSaid(fl, ms, "temperature", p.temperature);
    FloatIsSaid(fl, ms, "top_p", p.topP);
    IntIsSaid(ms, "max_tokens", p.maxTokens);
    IntIsSaid(ms, "max_completion_tokens", p.maxCompletionTokens);
    FloatIsSaid(fl, ms, "presence_penalty", p.presencePenalty);
    FloatIsSaid(fl, ms, "frequency_penalty", p.frequencyPenalty);
    ValueIsSaid(fl, ms, "response_format", p.responseFormat);
    forall e, t | NumbersValid(e) ensures OpenAI.ParseTool(fl, e) == Some(t) <==> SaysTool(fl, e, t) {
      ToolIsSaid(fl, e, t);
    }
    ListIsSaid(ms, "tools", v => OpenAI.ParseTool(fl, v), p.tools, (e, t) => SaysTool(fl, e, t));
    ValueIsSaid(fl, ms, "tool_choice", p.toolChoice);
    ValueIsSaid(fl, ms, "stop", p.stop);
  }

  /** An OpenAI body is accepted as a request exactly when it is a JSON text that says this request. */
  lemma ChatBodyIsSaid(fl: Floats, body: string, p: OpenAI.ChatRequest)
    ensures OpenAI.ParseBody(fl, body) == Some(p) <==> Parse(body).Some? && SaysChat(fl, Parse(body).value, p)
  {
    if Parse(body).Some? {
      ParsedNumbersValid(body);
      StructIsSaid(Parse(body).value);
      if IsStruct(Parse(body).value) { ChatIsSaid(fl, Parse(body).value, p); }
    }
  }

  lemma TurnIsSaid(fl: Floats, v: Json, m: Anthropic.RawMessage)
    ensures Anthropic.ParseMessage(fl, v) == Some(m) <==> SaysTurn(fl, v, m)
  {
    StructIsSaid(v);
    if IsStruct(v) {
      TextIsSaid(StructMembers(v).value, "role", m.role);
      ValueIsSaid(fl, StructMembers(v).value, "content", m.content);
    }
  }

  lemma RawToolIsSaid(fl: Floats, v: Json, t: Anthropic.RawTool)
    ensures Anthropic.ParseTool(fl, v) == Some(t) <==> SaysRawTool(fl, v, t)
  {
    StructIsSaid(v);
    if IsStruct(v) {
      TextIsSaid(StructMembers(v).value, "name", t.name);
      TextIsSaid(StructMembers(v).value, "description", t.description);
      MapIsSaid(fl, StructMembers(v).value, "input_schema", t.inputSchema);
    }
  }

  lemma MessagesAreSaid(fl: Floats, v: Json, p: Anthropic.MessagesRequest)
    requires NumbersValid(v) && IsStruct(v)
    ensures Anthropic.ParseRequest(fl, StructMembers(v).value) == Some(p) <==> SaysMessages(fl, v, p)
  {
    var ms := StructMembers(v).value;
    StructIsSaid(v);
    TextIsSaid(ms, "model", p.model);
    forall e, m | NumbersValid(e) ensures Anthropic.ParseMessage(fl, e) == Some(m) <==> SaysTurn(fl, e, m) {
      TurnIsSaid(fl, e, m);
    }
    ListIsSaid(ms, "messages", v => Anthropic.ParseMessage(fl, v), p.messages, (e, m) => SaysTurn(fl, e, m));
    ValueIsSaid(fl, ms, "system", p.system);
    IntIsSaid(ms, "max_tokens", p.maxTokens);
    FloatIsSaid(fl, ms, "temperature", p.temperature);
    FloatIsSaid(fl, ms, "top_p", p.topP);
    IntIsSaid(ms, "top_k", p.topK);
    ListIsSaid(ms, "stop_sequences", Anthropic.ParseText, p.stopSequences, (e, s) => SaysText(Some(e), s));
    forall e, t | NumbersValid(e) ensures Anthropic.ParseTool(fl, e) == Some(t) <==> SaysRawTool(fl, e, t) {
      RawToolIsSaid(fl, e, t);
    }
    ListIsSaid(ms, "tools", v => Anthropic.ParseTool(fl, v), p.tools, (e, t) => SaysRawTool(fl, e, t));
    ValueIsSaid(fl, ms, "tool_choice", p.toolChoice);
  }

  /** The same for Anthropic bodies. */
  lemma MessagesBodyIsSaid(fl: Floats, body: string, p: Anthropic.MessagesRequest)
    ensures Anthropic.ParseBody(fl, body) == Some(p) <==> Parse(body).Some? && SaysMessages(fl, Parse(body).value, p)
  {
    if Parse(body).Some? {
      ParsedNumbersValid(body);
      StructIsSaid(Parse(body).value);
      if IsStruct(Parse(body).value) { MessagesAreSaid(fl, Parse(body).value, p); }
    }
  }

  // Bodies for requests.

  function OrNull(x: Option<Json>): Json {
    if x.Some? then x.value else Null
  }

  function CallBody(c: ToolCall): Json {
    Object([Member("id", String(c.id)), Member("type", String(c.kind)),
            Member("function", Object([Member("name", String(c.name)), Member("arguments", String(c.arguments))]))])
  }

  function Each<T>(xs: seq<T>, f: T -> Json): Json {
    Array(seq(|xs|, i requires 0 <= i < |xs| => f(xs[i])))
  }

  function MessageBody(m: OpenAI.RawMessage): Json {
    Object([Member("role", String(m.role)), Member("content", OrNull(m.content)), Member("name", String(m.name)),
            Member("tool_call_id", String(m.toolCallId)), Member("tool_calls", Each(m.toolCalls, CallBody))])
  }

  function ToolBody(t: Tool): Json {
    Object([Member("type", String(t.kind)), Member("function", t.fn)])
  }

  function ChatBody(p: OpenAI.ChatRequest): Json {
    Object([Member("model", String(p.model)),
            Member("messages", Each(p.messages, MessageBody)),
            Member("temperature", OrNull(p.temperature)),
            Member("top_p", OrNull(p.topP)),
            Member("max_tokens", OrNull(p.maxTokens)),
            Member("max_completion_tokens", OrNull(p.maxCompletionTokens)),
            Member("presence_penalty", OrNull(p.presencePenalty)),
            Member("frequency_penalty", OrNull(p.frequencyPenalty)),
            Member("response_format", OrNull(p.responseFormat)),
            Member("tools", Each(p.tools, ToolBody)),
            Member("tool_choice", OrNull(p.toolChoice)),
            Member("stop", OrNull(p.stop))])
  }

  function TurnBody(m: Anthropic.RawMessage): Json {
    Object([Member("role", String(m.role)), Member("content", OrNull(m.content))])
  }

  function RawToolBody(t: Anthropic.RawTool): Json {
    Object([Member("name", String(t.name)), Member("description", String(t.description)),
            Member("input_schema", t.inputSchema)])
  }

  function TextBody(s: string): Json {
    String(s)
  }

  function MessagesBody(p: Anthropic.MessagesRequest): Json {
    Object([Member("model", String(p.model)),
            Member("messages", Each(p.messages, TurnBody)),
            Member("system", OrNull(p.system)),
            Member("max_tokens", OrNull(p.maxTokens)),
            Member("temperature", OrNull(p.temperature)),
            Member("top_p", OrNull(p.topP)),
            Member("top_k", OrNull(p.topK)),
            Member("stop_sequences", Each(p.stopSequences, TextBody)),
            Member("tools", Each(p.tools, RawToolBody)),
            Member("tool_choice", OrNull(p.toolChoice))])
  }

  // Requests that can be read at all.

  predicate IsFloat(fl: Floats, x: Option<Json>) {
    x.Some? ==> x.value.Number? && IsNumber(x.value.token) && fl.canon(x.value.token) == Some(x.value.token)
  }

  predicate IsInt(x: Option<Json>) {
    x.Some? ==> x.value.Number? && Fits64(x.value.token)
  }

  predicate IsMap(fl: Floats, x: Json) {
    x.Null? || (x.Object? && Canonical(fl, x))
  }

  predicate IsChat(fl: Floats, p: OpenAI.ChatRequest) {
    && (forall i | 0 <= i < |p.messages| :: IsDecoded(fl, p.messages[i].content))
    && (forall i | 0 <= i < |p.tools| :: IsMap(fl, p.tools[i].fn))
    && IsFloat(fl, p.temperature) && IsFloat(fl, p.topP) && IsInt(p.maxTokens) && IsInt(p.maxCompletionTokens)
    && IsFloat(fl, p.presencePenalty) && IsFloat(fl, p.frequencyPenalty)
    && IsDecoded(fl, p.responseFormat) && IsDecoded(fl, p.toolChoice) && IsDecoded(fl, p.stop)
  }

  predicate AreMessages(fl: Floats, p: Anthropic.MessagesRequest) {
    && (forall i | 0 <= i < |p.messages| :: IsDecoded(fl, p.messages[i].content))
    && (forall i | 0 <= i < |p.tools| :: IsMap(fl, p.tools[i].inputSchema))
    && IsDecoded(fl, p.system) && IsInt(p.maxTokens) && IsFloat(fl, p.temperature) && IsFloat(fl, p.topP)
    && IsInt(p.topK) && IsDecoded(fl, p.toolChoice)
  }

  lemma DecodedIsSaid(fl: Floats, x: Option<Json>)
    requires IsDecoded(fl, x)
    ensures SaysValue(fl, Some(OrNull(x)), x) && NumbersValid(OrNull(x))
  {
    if x.Some? { CanonicalIsDecoded(fl, x.value); }
  }

  lemma FloatBodySays(fl: Floats, x: Option<Json>)
    requires IsFloat(fl, x)
    ensures SaysFloat(fl, Some(OrNull(x)), x) && NumbersValid(OrNull(x))
  {
  }

  lemma DecimalIsNumber(n: int)
    ensures IsNumber(DecimalText(n))
  {
    var m := if n < 0 then -n else n;
    DecimalReads(m);
    var numeral := Numeral(n < 0, Decimal(m), None, None);
    NumeralIsNumber(numeral);
    assert Decimal(m) + "" == Decimal(m) && "" + Decimal(m) == Decimal(m);
  }

  lemma IntBodySays(x: Option<Json>)
    requires IsInt(x)
    ensures SaysInt(Some(OrNull(x)), x) && NumbersValid(OrNull(x))
  {
    if x.Some? {
      var n: int :| -0x8000_0000_0000_0000 <= n <= 0x7fff_ffff_ffff_ffff && x.value.token == DecimalText(n);
      DecimalIsNumber(n);
    }
  }

  lemma MapBodySays(fl: Floats, x: Json)
    requires IsMap(fl, x)
    ensures SaysMap(fl, Some(x), x) && NumbersValid(x)
  {
    if x.Object? { CanonicalIsDecoded(fl, x); }
  }

  lemma EachSays<T(!new)>(xs: seq<T>, f: T -> Json, says: (Json, T) -> bool)
    requires forall i | 0 <= i < |xs| :: says(f(xs[i]), xs[i]) && NumbersValid(f(xs[i]))
    ensures SaysList(Some(Each(xs, f)), xs, says) && NumbersValid(Each(xs, f))
  {
    ItemsValidPointwise(Each(xs, f).items);
  }

  lemma MemberAnswers(ms: seq<Member>, i: nat, key: string)
    requires Wins(ms, i) && ms[i].key == key
    ensures At(Object(ms), key) == Some(ms[i].value)
  {
    WinnerIsLast(ms, i);
  }

  lemma CallBodySays(c: ToolCall)
    ensures SaysCall(CallBody(c), c) && NumbersValid(CallBody(c))
  {
    var ms := CallBody(c).members;
    var f := ms[2].value.members;
    WinnerIsLast(ms, 0);
    WinnerIsLast(ms, 1);
    WinnerIsLast(ms, 2);
    WinnerIsLast(f, 0);
    WinnerIsLast(f, 1);
    MembersValidPointwise(f);
    MembersValidPointwise(ms);
  }

  lemma CallBodiesSay(calls: seq<ToolCall>)
    ensures SaysList(Some(Each(calls, CallBody)), calls, SaysCall) && NumbersValid(Each(calls, CallBody))
  {
    forall i | 0 <= i < |calls| ensures SaysCall(CallBody(calls[i]), calls[i]) && NumbersValid(CallBody(calls[i])) {
      CallBodySays(calls[i]);
    }
    EachSays(calls, CallBody, SaysCall);
  }

  lemma MessageAnswers(m: OpenAI.RawMessage)
    ensures var v := MessageBody(m);
            && At(v, "role") == Some(String(m.role)) && At(v, "content") == Some(OrNull(m.content))
            && At(v, "name") == Some(String(m.name)) && At(v, "tool_call_id") == Some(String(m.toolCallId))
            && At(v, "tool_calls") == Some(Each(m.toolCalls, CallBody))
  {
    var ms := MessageBody(m).members;
    MemberAnswers(ms, 0, "role");
    MemberAnswers(ms, 1, "content");
    MemberAnswers(ms, 2, "name");
    MemberAnswers(ms, 3, "tool_call_id");
    MemberAnswers(ms, 4, "tool_calls");
  }

  lemma MessageBodySays(fl: Floats, m: OpenAI.RawMessage)
    requires IsDecoded(fl, m.content)
    ensures SaysMessage(fl, MessageBody(m), m) && NumbersValid(MessageBody(m))
  {
    MessageAnswers(m);
    DecodedIsSaid(fl, m.content);
    CallBodiesSay(m.toolCalls);
    MembersValidPointwise(MessageBody(m).members);
  }

  lemma ToolBodySays(fl: Floats, t: Tool)
    requires IsMap(fl, t.fn)
    ensures SaysTool(fl, ToolBody(t), t) && NumbersValid(ToolBody(t))
  {
    var ms := ToolBody(t).members;
    WinnerIsLast(ms, 0);
    WinnerIsLast(ms, 1);
    MapBodySays(fl, t.fn);
    MembersValidPointwise(ms);
  }

  lemma ChatKeysDiffer(p: OpenAI.ChatRequest, i: nat)
    requires i < 12
    ensures Wins(ChatBody(p).members, i)
  {
    assert "model"[0] != "top_p"[0] && "model"[0] != "tools"[0] && "top_p"[2] != "tools"[2];
    assert "temperature"[1] != "tool_choice"[1];
  }

  lemma ChatMembers(fl: Floats, p: OpenAI.ChatRequest)
    requires IsChat(fl, p)
    ensures SaysList(Some(Each(p.messages, MessageBody)), p.messages, (e, m) => SaysMessage(fl, e, m))
    ensures SaysList(Some(Each(p.tools, ToolBody)), p.tools, (e, t) => SaysTool(fl, e, t))
    ensures NumbersValid(Each(p.messages, MessageBody)) && NumbersValid(Each(p.tools, ToolBody))
  {
    forall i | 0 <= i < |p.messages|
      ensures SaysMessage(fl, MessageBody(p.messages[i]), p.messages[i]) && NumbersValid(MessageBody(p.messages[i]))
    {
      MessageBodySays(fl, p.messages[i]);
    }
    forall i | 0 <= i < |p.tools|
      ensures SaysTool(fl, ToolBody(p.tools[i]), p.tools[i]) && NumbersValid(ToolBody(p.tools[i]))
    {
      ToolBodySays(fl, p.tools[i]);
    }
    EachSays(p.messages, MessageBody, (e, m) => SaysMessage(fl, e, m));
    EachSays(p.tools, ToolBody, (e, t) => SaysTool(fl, e, t));
  }

  lemma ChatFields(fl: Floats, p: OpenAI.ChatRequest)
    requires IsChat(fl, p)
    ensures SaysFloat(fl, Some(OrNull(p.temperature)), p.temperature) && SaysFloat(fl, Some(OrNull(p.topP)), p.topP)
    ensures SaysInt(Some(OrNull(p.maxTokens)), p.maxTokens)
    ensures SaysInt(Some(OrNull(p.maxCompletionTokens)), p.maxCompletionTokens)
    ensures SaysFloat(fl, Some(OrNull(p.presencePenalty)), p.presencePenalty)
    ensures SaysFloat(fl, Some(OrNull(p.frequencyPenalty)), p.frequencyPenalty)
    ensures SaysValue(fl, Some(OrNull(p.responseFormat)), p.responseFormat)
    ensures SaysValue(fl, Some(OrNull(p.toolChoice)), p.toolChoice) && SaysValue(fl, Some(OrNull(p.stop)), p.stop)
    ensures NumbersValid(OrNull(p.temperature)) && NumbersValid(OrNull(p.topP)) && NumbersValid(OrNull(p.maxTokens))
    ensures NumbersValid(OrNull(p.maxCompletionTokens)) && NumbersValid(OrNull(p.presencePenalty))
    ensures NumbersValid(OrNull(p.frequencyPenalty)) && NumbersValid(OrNull(p.responseFormat))
    ensures NumbersValid(OrNull(p.toolChoice)) && NumbersValid(OrNull(p.stop))
  {
    FloatBodySays(fl, p.temperature);
    FloatBodySays(fl, p.topP);
    IntBodySays(p.maxTokens);
    IntBodySays(p.maxCompletionTokens);
    FloatBodySays(fl, p.presencePenalty);
    FloatBodySays(fl, p.frequencyPenalty);
    DecodedIsSaid(fl, p.responseFormat);
    DecodedIsSaid(fl, p.toolChoice);
    DecodedIsSaid(fl, p.stop);
  }

  lemma ChatAnswersFirst(p: OpenAI.ChatRequest)
    ensures var v := ChatBody(p);
            && At(v, "model") == Some(String(p.model)) && At(v, "messages") == Some(Each(p.messages, MessageBody))
            && At(v, "temperature") == Some(OrNull(p.temperature)) && At(v, "top_p") == Some(OrNull(p.topP))
            && At(v, "max_tokens") == Some(OrNull(p.maxTokens))
            && At(v, "max_completion_tokens") == Some(OrNull(p.maxCompletionTokens))
  {
    var ms := ChatBody(p).members;
    forall i: nat | i < 6 ensures Wins(ms, i) { ChatKeysDiffer(p, i); }
    MemberAnswers(ms, 0, "model");
    MemberAnswers(ms, 1, "messages");
    MemberAnswers(ms, 2, "temperature");
    MemberAnswers(ms, 3, "top_p");
    MemberAnswers(ms, 4, "max_tokens");
    MemberAnswers(ms, 5, "max_completion_tokens");
  }

  lemma ChatAnswersLast(p: OpenAI.ChatRequest)
    ensures var v := ChatBody(p);
            && At(v, "presence_penalty") == Some(OrNull(p.presencePenalty))
            && At(v, "frequency_penalty") == Some(OrNull(p.frequencyPenalty))
            && At(v, "response_format") == Some(OrNull(p.responseFormat))
            && At(v, "tools") == Some(Each(p.tools, ToolBody))
            && At(v, "tool_choice") == Some(OrNull(p.toolChoice)) && At(v, "stop") == Some(OrNull(p.stop))
  {
    var ms := ChatBody(p).members;
    forall i: nat | 6 <= i < 12 ensures Wins(ms, i) { ChatKeysDiffer(p, i); }
    MemberAnswers(ms, 6, "presence_penalty");
    MemberAnswers(ms, 7, "frequency_penalty");
    MemberAnswers(ms, 8, "response_format");
    MemberAnswers(ms, 9, "tools");
    MemberAnswers(ms, 10, "tool_choice");
    MemberAnswers(ms, 11, "stop");
  }

  lemma ChatBodyValid(fl: Floats, p: OpenAI.ChatRequest)
    requires IsChat(fl, p)
    ensures NumbersValid(ChatBody(p))
  {
    ChatFields(fl, p);
    ChatMembers(fl, p);
    MembersValidPointwise(ChatBody(p).members);
  }

  lemma ChatBodySays(fl: Floats, p: OpenAI.ChatRequest)
    requires IsChat(fl, p)
    ensures SaysChat(fl, ChatBody(p), p)
  {
    ChatFields(fl, p);
    ChatMembers(fl, p);
    ChatAnswersFirst(p);
    ChatAnswersLast(p);
  }

  /** Every OpenAI request is read back from every text of its body, with every field under its name. */
  lemma ChatReadsBack(fl: Floats, p: OpenAI.ChatRequest, hows: seq<seq<Spelling>>, gaps: seq<string>)
    requires IsChat(fl, p) && WrittenAs(Tokens(ChatBody(p)), hows, gaps)
    ensures OpenAI.ParseBody(fl, Write(Tokens(ChatBody(p)), hows, gaps)) == Some(p)
  {
    var v := ChatBody(p);
    ChatBodyValid(fl, p);
    ChatBodySays(fl, p);
    EverySpellingParses(v, hows, gaps);
    ChatBodyIsSaid(fl, Write(Tokens(v), hows, gaps), p);
  }

  lemma SaidTools(fl: Floats, v: Option<Json>, tools: seq<Tool>)
    requires fl.Sound() && SaysList(v, tools, (e, t) => SaysTool(fl, e, t)) && ValidAt(v)
    ensures forall i | 0 <= i < |tools| :: IsMap(fl, tools[i].fn)
  {
    forall i | 0 <= i < |tools| ensures IsMap(fl, tools[i].fn) {
      var items := v.value.items;
      ItemsPointwise(items);
      assert SaysTool(fl, items[i], tools[i]);
      AtIsValid(items[i], "function");
      SaidMap(fl, At(items[i], "function"), tools[i].fn);
    }
  }

  lemma SaidMessages(fl: Floats, v: Option<Json>, messages: seq<OpenAI.RawMessage>)
    requires fl.Sound() && SaysList(v, messages, (e, m) => SaysMessage(fl, e, m)) && ValidAt(v)
    ensures forall i | 0 <= i < |messages| :: IsDecoded(fl, messages[i].content)
  {
    forall i | 0 <= i < |messages| ensures IsDecoded(fl, messages[i].content) {
      var items := v.value.items;
      ItemsPointwise(items);
      assert SaysMessage(fl, items[i], messages[i]);
      AtIsValid(items[i], "content");
      SaidValue(fl, At(items[i], "content"), messages[i].content);
    }
  }

  lemma SaidFloats(fl: Floats, v: Json, p: OpenAI.ChatRequest)
    requires fl.Sound() && NumbersValid(v) && SaysChat(fl, v, p)
    ensures IsFloat(fl, p.temperature) && IsFloat(fl, p.topP)
    ensures IsFloat(fl, p.presencePenalty) && IsFloat(fl, p.frequencyPenalty)
  {
    AtIsValid(v, "temperature");
    SaidFloat(fl, At(v, "temperature"), p.temperature);
    AtIsValid(v, "top_p");
    SaidFloat(fl, At(v, "top_p"), p.topP);
    AtIsValid(v, "presence_penalty");
    SaidFloat(fl, At(v, "presence_penalty"), p.presencePenalty);
    AtIsValid(v, "frequency_penalty");
    SaidFloat(fl, At(v, "frequency_penalty"), p.frequencyPenalty);
  }

  lemma SaidValues(fl: Floats, v: Json, p: OpenAI.ChatRequest)
    requires fl.Sound() && NumbersValid(v) && SaysChat(fl, v, p)
    ensures IsDecoded(fl, p.responseFormat) && IsDecoded(fl, p.toolChoice) && IsDecoded(fl, p.stop)
    ensures IsInt(p.maxTokens) && IsInt(p.maxCompletionTokens)
  {
    AtIsValid(v, "response_format");
    SaidValue(fl, At(v, "response_format"), p.responseFormat);
    AtIsValid(v, "tool_choice");
    SaidValue(fl, At(v, "tool_choice"), p.toolChoice);
    AtIsValid(v, "stop");
    SaidValue(fl, At(v, "stop"), p.stop);
    SaidInt(At(v, "max_tokens"), p.maxTokens);
    SaidInt(At(v, "max_completion_tokens"), p.maxCompletionTokens);
  }

  /** And every accepted OpenAI body is one of a request of this kind. */
  lemma AcceptedIsChat(fl: Floats, body: string, p: OpenAI.ChatRequest)
    requires fl.Sound() && OpenAI.ParseBody(fl, body) == Some(p)
    ensures IsChat(fl, p)
  {
    ChatBodyIsSaid(fl, body, p);
    ParsedNumbersValid(body);
    var v := Parse(body).value;
    AtIsValid(v, "messages");
    SaidMessages(fl, At(v, "messages"), p.messages);
    AtIsValid(v, "tools");
    SaidTools(fl, At(v, "tools"), p.tools);
    SaidFloats(fl, v, p);
    SaidValues(fl, v, p);
  }

  predicate ValidAt(v: Option<Json>) {
    v.Some? ==> NumbersValid(v.value)
  }

  lemma AtIsValid(v: Json, key: string)
    requires NumbersValid(v)
    ensures ValidAt(At(v, key))
  {
    if v.Object? { LastValid(v.members, key); }
  }

  lemma SaidValue(fl: Floats, v: Option<Json>, x: Option<Json>)
    requires fl.Sound() && SaysValue(fl, v, x) && ValidAt(v)
    ensures IsDecoded(fl, x)
  {
    if !Nothing(v) { DecodedIsCanonical(fl, v.value); }
  }

  lemma SaidMap(fl: Floats, v: Option<Json>, x: Json)
    requires fl.Sound() && SaysMap(fl, v, x) && ValidAt(v)
    ensures IsMap(fl, x)
  {
    if !Nothing(v) { DecodedIsCanonical(fl, v.value); }
  }

  lemma SaidFloat(fl: Floats, v: Option<Json>, x: Option<Json>)
    requires fl.Sound() && SaysFloat(fl, v, x) && ValidAt(v)
    ensures IsFloat(fl, x)
  {
    if !Nothing(v) { assert IsNumber(v.value.token) && fl.canon(v.value.token).Some?; }
  }

  lemma SaidInt(v: Option<Json>, x: Option<Json>)
    requires SaysInt(v, x)
    ensures IsInt(x)
  {
    assert DecimalText(0) == "0";
    assert Fits64("0");
  }

  lemma TurnBodySays(fl: Floats, m: Anthropic.RawMessage)
    requires IsDecoded(fl, m.content)
    ensures SaysTurn(fl, TurnBody(m), m) && NumbersValid(TurnBody(m))
  {
    var ms := TurnBody(m).members;
    WinnerIsLast(ms, 0);
    WinnerIsLast(ms, 1);
    DecodedIsSaid(fl, m.content);
    MembersValidPointwise(ms);
  }

  lemma RawToolBodySays(fl: Floats, t: Anthropic.RawTool)
    requires IsMap(fl, t.inputSchema)
    ensures SaysRawTool(fl, RawToolBody(t), t) && NumbersValid(RawToolBody(t))
  {
    var ms := RawToolBody(t).members;
    WinnerIsLast(ms, 0);
    WinnerIsLast(ms, 1);
    WinnerIsLast(ms, 2);
    MapBodySays(fl, t.inputSchema);
    MembersValidPointwise(ms);
  }

  lemma MessagesMembers(fl: Floats, p: Anthropic.MessagesRequest)
    requires AreMessages(fl, p)
    ensures SaysList(Some(Each(p.messages, TurnBody)), p.messages, (e, m) => SaysTurn(fl, e, m))
    ensures SaysList(Some(Each(p.tools, RawToolBody)), p.tools, (e, t) => SaysRawTool(fl, e, t))
    ensures SaysList(Some(Each(p.stopSequences, TextBody)),
            p.stopSequences, (e, s) => SaysText(Some(e), s))
    ensures NumbersValid(Each(p.messages, TurnBody)) && NumbersValid(Each(p.tools, RawToolBody))
    ensures NumbersValid(Each(p.stopSequences, TextBody))
  {
    forall i | 0 <= i < |p.messages|
      ensures SaysTurn(fl, TurnBody(p.messages[i]), p.messages[i]) && NumbersValid(TurnBody(p.messages[i]))
    {
      TurnBodySays(fl, p.messages[i]);
    }
    forall i | 0 <= i < |p.tools|
      ensures SaysRawTool(fl, RawToolBody(p.tools[i]), p.tools[i]) && NumbersValid(RawToolBody(p.tools[i]))
    {
      RawToolBodySays(fl, p.tools[i]);
    }
    EachSays(p.messages, TurnBody, (e, m) => SaysTurn(fl, e, m));
    EachSays(p.tools, RawToolBody, (e, t) => SaysRawTool(fl, e, t));
    EachSays(p.stopSequences, TextBody, (e, s) => SaysText(Some(e), s));
  }

  lemma MessagesFields(fl: Floats, p: Anthropic.MessagesRequest)
    requires AreMessages(fl, p)
    ensures SaysValue(fl, Some(OrNull(p.system)), p.system)
    ensures SaysInt(Some(OrNull(p.maxTokens)), p.maxTokens) && SaysInt(Some(OrNull(p.topK)), p.topK)
    ensures SaysFloat(fl, Some(OrNull(p.temperature)), p.temperature) && SaysFloat(fl, Some(OrNull(p.topP)), p.topP)
    ensures SaysValue(fl, Some(OrNull(p.toolChoice)), p.toolChoice)
    ensures NumbersValid(OrNull(p.system)) && NumbersValid(OrNull(p.maxTokens)) && NumbersValid(OrNull(p.topK))
    ensures NumbersValid(OrNull(p.temperature)) && NumbersValid(OrNull(p.topP)) && NumbersValid(OrNull(p.toolChoice))
  {
    DecodedIsSaid(fl, p.system);
    IntBodySays(p.maxTokens);
    FloatBodySays(fl, p.temperature);
    FloatBodySays(fl, p.topP);
    IntBodySays(p.topK);
    DecodedIsSaid(fl, p.toolChoice);
  }

  lemma MessagesKeysDiffer(p: Anthropic.MessagesRequest, i: nat)
    requires i < 10
    ensures Wins(MessagesBody(p).members, i)
  {
    assert "model"[0] != "top_p"[0] && "model"[0] != "top_k"[0] && "model"[0] != "tools"[0];
    assert "top_p"[4] != "top_k"[4] && "top_p"[2] != "tools"[2] && "top_k"[2] != "tools"[2];
    assert "temperature"[1] != "tool_choice"[1];
  }

  lemma MessagesAnswers(p: Anthropic.MessagesRequest)
    ensures var v := MessagesBody(p);
            && At(v, "model") == Some(String(p.model)) && At(v, "messages") == Some(Each(p.messages, TurnBody))
            && At(v, "system") == Some(OrNull(p.system)) && At(v, "max_tokens") == Some(OrNull(p.maxTokens))
            && At(v, "temperature") == Some(OrNull(p.temperature)) && At(v, "top_p") == Some(OrNull(p.topP))
            && At(v, "top_k") == Some(OrNull(p.topK))
            && At(v, "stop_sequences") == Some(Each(p.stopSequences, TextBody))
            && At(v, "tools") == Some(Each(p.tools, RawToolBody))
            && At(v, "tool_choice") == Some(OrNull(p.toolChoice))
  {
    var ms := MessagesBody(p).members;
    forall i: nat | i < 10 ensures Wins(ms, i) { MessagesKeysDiffer(p, i); }
    MemberAnswers(ms, 0, "model");
    MemberAnswers(ms, 1, "messages");
    MemberAnswers(ms, 2, "system");
    MemberAnswers(ms, 3, "max_tokens");
    MemberAnswers(ms, 4, "temperature");
    MemberAnswers(ms, 5, "top_p");
    MemberAnswers(ms, 6, "top_k");
    MemberAnswers(ms, 7, "stop_sequences");
    MemberAnswers(ms, 8, "tools");
    MemberAnswers(ms, 9, "tool_choice");
  }

  lemma MessagesBodySays(fl: Floats, p: Anthropic.MessagesRequest)
    requires AreMessages(fl, p)
    ensures SaysMessages(fl, MessagesBody(p), p)
  {
    MessagesMembers(fl, p);
    MessagesAnswers(p);
    MessagesFields(fl, p);
  }

  lemma MessagesBodyValid(fl: Floats, p: Anthropic.MessagesRequest)
    requires AreMessages(fl, p)
    ensures NumbersValid(MessagesBody(p))
  {
    var ms := MessagesBody(p).members;
    MessagesMembers(fl, p);
    MessagesFields(fl, p);
    forall i | 0 <= i < 10 ensures NumbersValid(ms[i].value) {}
    MembersValidPointwise(ms);
  }

  /** Every Anthropic request is read back from every text of its body. */
  lemma MessagesReadBack(fl: Floats, p: Anthropic.MessagesRequest, hows: seq<seq<Spelling>>, gaps: seq<string>)
    requires AreMessages(fl, p) && WrittenAs(Tokens(MessagesBody(p)), hows, gaps)
    ensures Anthropic.ParseBody(fl, Write(Tokens(MessagesBody(p)), hows, gaps)) == Some(p)
  {
    var v := MessagesBody(p);
    MessagesBodyValid(fl, p);
    MessagesBodySays(fl, p);
    EverySpellingParses(v, hows, gaps);
    MessagesBodyIsSaid(fl, Write(Tokens(v), hows, gaps), p);
  }

  lemma SaidTurns(fl: Floats, v: Option<Json>, messages: seq<Anthropic.RawMessage>)
    requires fl.Sound() && SaysList(v, messages, (e, m) => SaysTurn(fl, e, m)) && ValidAt(v)
    ensures forall i | 0 <= i < |messages| :: IsDecoded(fl, messages[i].content)
  {
    forall i | 0 <= i < |messages| ensures IsDecoded(fl, messages[i].content) {
      var items := v.value.items;
      ItemsPointwise(items);
      assert SaysTurn(fl, items[i], messages[i]);
      AtIsValid(items[i], "content");
      SaidValue(fl, At(items[i], "content"), messages[i].content);
    }
  }

  lemma SaidRawTools(fl: Floats, v: Option<Json>, tools: seq<Anthropic.RawTool>)
    requires fl.Sound() && SaysList(v, tools, (e, t) => SaysRawTool(fl, e, t)) && ValidAt(v)
    ensures forall i | 0 <= i < |tools| :: IsMap(fl, tools[i].inputSchema)
  {
    forall i | 0 <= i < |tools| ensures IsMap(fl, tools[i].inputSchema) {
      var items := v.value.items;
      ItemsPointwise(items);
      assert SaysRawTool(fl, items[i], tools[i]);
      AtIsValid(items[i], "input_schema");
      SaidMap(fl, At(items[i], "input_schema"), tools[i].inputSchema);
    }
  }

  lemma SaidMessagesFields(fl: Floats, v: Json, p: Anthropic.MessagesRequest)
    requires fl.Sound() && NumbersValid(v) && SaysMessages(fl, v, p)
    ensures IsDecoded(fl, p.system) && IsInt(p.maxTokens) && IsFloat(fl, p.temperature) && IsFloat(fl, p.topP)
    ensures IsInt(p.topK) && IsDecoded(fl, p.toolChoice)
  {
    AtIsValid(v, "system");
    SaidValue(fl, At(v, "system"), p.system);
    SaidInt(At(v, "max_tokens"), p.maxTokens);
    AtIsValid(v, "temperature");
    SaidFloat(fl, At(v, "temperature"), p.temperature);
    AtIsValid(v, "top_p");
    SaidFloat(fl, At(v, "top_p"), p.topP);
    SaidInt(At(v, "top_k"), p.topK);
    AtIsValid(v, "tool_choice");
    SaidValue(fl, At(v, "tool_choice"), p.toolChoice);
  }

  /** And every accepted Anthropic body is one of a request of this kind. */
  lemma AcceptedAreMessages(fl: Floats, body: string, p: Anthropic.MessagesRequest)
    requires fl.Sound() && Anthropic.ParseBody(fl, body) == Some(p)
    ensures AreMessages(fl, p)
  {
    MessagesBodyIsSaid(fl, body, p);
    ParsedNumbersValid(body);
    var v := Parse(body).value;
    AtIsValid(v, "messages");
    SaidTurns(fl, At(v, "messages"), p.messages);
    AtIsValid(v, "tools");
    SaidRawTools(fl, At(v, "tools"), p.tools);
    SaidMessagesFields(fl, v, p);
  }
}
