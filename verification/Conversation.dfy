/** Which Anthropic requests share a recording (pkg/hasher/providers/anthropic.go).

    A conversation is read from what the body says: turns of a role, of lines of text and other blocks, and of
    tool calls with their input values. A system prompt is a first turn. */
module Conversation {
  import opened Wrappers
  import opened Paths
  import opened Text
  import opened Json
  import opened JsonProofs
  import opened CanonicalJson
  import opened Canonic
  import opened Tools
  import opened Schema
  import opened Anthropic
  import OpenAI

  /** A line of text, or a block (or list of blocks) that is not text. */
  datatype Piece = Line(text: string) | Block(value: Json)

  datatype Call = Call(id: string, name: string, input: Json)

  datatype Turn = Turn(role: string, pieces: seq<Piece>, calls: seq<Call>)

  function LinePieces(lines: seq<string>): seq<Piece> {
    seq(|lines|, i requires 0 <= i < |lines| => Line(lines[i]))
  }

  function TextPieces(s: string): seq<Piece> {
    LinePieces(TextLines(NormalizeText(s)))
  }

  function BlockPieces(part: Json): seq<Piece> {
    if !part.Object? then []
    else
      var kind := TextAt(part.members, "type");
      if kind == "text" then
        match First(part.members, "text")
        case Some(String(txt)) => TextPieces(txt)
        case _ => []
      else if kind == "tool_use" then []
      else [Block(part)]
  }

  function Pieces(parts: seq<Json>): seq<Piece> {
    if parts == [] then [] else Pieces(parts[..|parts| - 1]) + BlockPieces(parts[|parts| - 1])
  }

  function BlockCalls(part: Json): seq<Call> {
    if part.Object? && TextAt(part.members, "type") == "tool_use"
    then [Call(TextAt(part.members, "id"), TextAt(part.members, "name"), ValueAt(part.members, "input"))]
    else []
  }

  function Calls(parts: seq<Json>): seq<Call> {
    if parts == [] then [] else Calls(parts[..|parts| - 1]) + BlockCalls(parts[|parts| - 1])
  }

  /** No piece at all reads like one empty line. */
  function OrEmptyLine(pieces: seq<Piece>): seq<Piece> {
    if pieces == [] then [Line("")] else pieces
  }

  function TurnOf(m: RawMessage): Turn {
    var role := Lower(TrimSpace(m.role));
    match m.content
    case Some(String(s)) => Turn(role, TextPieces(s), [])
    case Some(Array(parts)) => Turn(role, OrEmptyLine(Pieces(parts)), Calls(parts))
    case _ => Turn(role, [Line("")], [])
  }

  /** The system prompt as a turn, if it has any text. */
  function SystemTurns(system: Option<Json>): seq<Turn> {
    match system
    case Some(String(s)) => if NormalizeText(s) == "" then [] else [Turn("system", TextPieces(s), [])]
    case Some(Array(parts)) => [Turn("system", [Block(Array(parts))], [])]
    case _ => []
  }

  function TurnsOf(ms: seq<RawMessage>): seq<Turn> {
    seq(|ms|, i requires 0 <= i < |ms| => TurnOf(ms[i]))
  }

  function TurnsIn(p: MessagesRequest): seq<Turn> {
    SystemTurns(p.system) + TurnsOf(p.messages)
  }

  /** How a block is spelled in a message: tool results and system prompts without HTML escaping. */
  function BlockSpelling(v: Json): string {
    Print(v, v.Object? && TextAt(v.members, "type") != "tool_result")
  }

  predicate PieceAlike(a: Piece, b: Piece) {
    match (a, b)
    case (Line(s), Line(t)) => s == t
    case (Block(v), Block(w)) => v == w
    case (Line(s), Block(w)) => s == BlockSpelling(w)
    case (Block(v), Line(t)) => BlockSpelling(v) == t
  }

  predicate PiecesAlike(a: seq<Piece>, b: seq<Piece>) {
    |a| == |b| && forall i | 0 <= i < |a| :: PieceAlike(a[i], b[i])
  }

  /** Turns that are taken for each other: the same role up to case and outer whitespace, the same lines
      whichever text blocks hold them, equal other blocks, and the same calls with equal inputs. A line that
      spells a block is taken for it. */
  predicate TurnAlike(a: Turn, b: Turn) {
    a.role == b.role && PiecesAlike(a.pieces, b.pieces) && a.calls == b.calls
  }

  predicate TurnsAlike(a: seq<Turn>, b: seq<Turn>) {
    |a| == |b| && forall i | 0 <= i < |a| :: TurnAlike(a[i], b[i])
  }

  // Tools as the body gives them.

  function RawNamed(ts: seq<RawTool>, name: string): seq<RawTool> {
    if ts == [] then []
    else RawNamed(ts[..|ts| - 1], name) + if ts[|ts| - 1].name == name then [ts[|ts| - 1]] else []
  }

  /** The same tools of every name, in the same order. */
  ghost predicate ToolsAlike(a: seq<RawTool>, b: seq<RawTool>) {
    forall name :: RawNamed(a, name) == RawNamed(b, name)
  }

  lemma {:induction false} NamedIsRawNamed(ts: seq<RawTool>, name: string)
    ensures Named(CanonicTools(ts), name) == CanonicTools(RawNamed(ts, name))
  {
    if ts != [] {
      var n := |ts| - 1;
      NamedIsRawNamed(ts[..n], name);
      CanonicToolName(ts[n]);
      assert CanonicTools(ts)[..n] == CanonicTools(ts[..n]);
      assert CanonicTools(RawNamed(ts[..n], name)) + [] == CanonicTools(RawNamed(ts[..n], name));
    }
  }

  lemma CanonicToolsInjective(a: seq<RawTool>, b: seq<RawTool>)
    ensures CanonicTools(a) == CanonicTools(b) <==> a == b
  {
    var x, y := CanonicTools(a), CanonicTools(b);
    if x == y {
      assert |a| == |x| == |y| == |b|;
      forall i | 0 <= i < |a| ensures a[i] == b[i] { assert x[i] == y[i]; CanonicToolInjective(a[i], b[i]); }
    }
  }

  lemma CanonicToolInjective(a: RawTool, b: RawTool)
    requires CanonicTool(a) == CanonicTool(b)
    ensures a == b
  {
    var x, y := CanonicTool(a).fn.members, CanonicTool(b).fn.members;
    assert x[0] == y[0] && x[1] == y[1] && x[2] == y[2];
  }

  lemma ToolsAlikeIff(a: seq<RawTool>, b: seq<RawTool>)
    ensures NamedAlike(CanonicTools(a), CanonicTools(b)) <==> ToolsAlike(a, b)
  {
    forall name ensures Named(CanonicTools(a), name) == Named(CanonicTools(b), name) <==>
        RawNamed(a, name) == RawNamed(b, name) {
      NamedIsRawNamed(a, name);
      NamedIsRawNamed(b, name);
      CanonicToolsInjective(RawNamed(a, name), RawNamed(b, name));
    }
  }

  // Canonical messages spell out turns.

  function PieceText(p: Piece): string {
    match p
    case Line(s) => s
    case Block(v) => BlockSpelling(v)
  }

  function PieceTexts(ps: seq<Piece>): seq<string> {
    seq(|ps|, i requires 0 <= i < |ps| => PieceText(ps[i]))
  }

  function CallTool(c: Call): ToolCall {
    ToolCall(c.id, "function", c.name, Print(c.input, false))
  }

  function CallTools(cs: seq<Call>): seq<ToolCall> {
    seq(|cs|, i requires 0 <= i < |cs| => CallTool(cs[i]))
  }

  /** Blocks and inputs are values that number tokens are valid in. */
  predicate Printable(t: Turn) {
    && (forall i | 0 <= i < |t.pieces| :: t.pieces[i].Block? ==> NumbersValid(t.pieces[i].value))
    && (forall i | 0 <= i < |t.calls| :: NumbersValid(t.calls[i].input))
  }

  lemma PieceTextAppend(a: seq<Piece>, b: seq<Piece>)
    ensures PieceTexts(a + b) == PieceTexts(a) + PieceTexts(b)
  {
  }

  lemma CallToolsAppend(a: seq<Call>, b: seq<Call>)
    ensures CallTools(a + b) == CallTools(a) + CallTools(b)
  {
  }

  lemma TextPieceTexts(s: string)
    ensures PieceTexts(TextPieces(s)) == TextLines(NormalizeText(s))
  {
  }

  lemma DecodedMember(fl: Floats, ms: seq<Member>, key: string)
    requires Canonical(fl, Object(ms))
    ensures Canonical(fl, ValueAt(ms, key))
  {
    if First(ms, key).Some? { var i := FirstIndex(ms, key); }
  }

  lemma {:induction false} FirstIndex(ms: seq<Member>, key: string) returns (i: nat)
    requires First(ms, key).Some?
    ensures i < |ms| && First(ms, key) == Some(ms[i].value)
  {
    if ms[0].key == key { i := 0; } else { i := FirstIndex(ms[1..], key); i := i + 1; }
  }

  /** `more` has the lines of `pieces` and the calls `calls` on top of `flat`. */
  ghost predicate Adds(flat: Flat, more: Flat, pieces: seq<Piece>, calls: seq<Call>) {
    && LinesOfAll(more.texts) == LinesOfAll(flat.texts) + PieceTexts(pieces)
    && (more.texts == [] <==> flat.texts == [] && pieces == [])
    && more.calls == flat.calls + CallTools(calls)
  }

  lemma AddsNothing(flat: Flat)
    ensures Adds(flat, flat, [], [])
  {
    assert PieceTexts([]) == [] && CallTools([]) == [];
    assert LinesOfAll(flat.texts) + [] == LinesOfAll(flat.texts) && flat.calls + [] == flat.calls;
  }

  lemma AddsText(flat: Flat, text: string, pieces: seq<Piece>)
    requires PieceTexts(pieces) == TextLines(text)
    ensures Adds(flat, flat.(texts := flat.texts + [text]), pieces, [])
  {
    LinesSnoc(flat.texts, text);
    assert |PieceTexts(pieces)| == |pieces|;
    assert CallTools([]) == [] && flat.calls + [] == flat.calls;
  }

  lemma AddsCall(flat: Flat, c: Call)
    ensures Adds(flat, flat.(calls := flat.calls + [CallTool(c)]), [], [c])
  {
    assert PieceTexts([]) == [] && CallTools([c]) == [CallTool(c)];
    assert LinesOfAll(flat.texts) + [] == LinesOfAll(flat.texts);
  }

  lemma AddsBlock(fl: Floats, flat: Flat, part: Json)
    requires Canonical(fl, part)
    ensures Adds(flat, flat.(texts := flat.texts + [BlockSpelling(part)]), [Block(part)], [])
  {
    CanonicalIsDecoded(fl, part);
    PrintHasNoLF(part, part.Object? && TextAt(part.members, "type") != "tool_result");
    SingleTextLine(BlockSpelling(part));
    assert PieceTexts([Block(part)]) == [BlockSpelling(part)];
    AddsText(flat, BlockSpelling(part), [Block(part)]);
  }

  /** What one block adds to the texts and calls of a message. */
  lemma BlockAdds(fl: Floats, flat: Flat, part: Json)
    requires Canonical(fl, part)
    ensures Adds(flat, AddBlock(fl, flat, part), BlockPieces(part), BlockCalls(part))
  {
    AddsNothing(flat);
    if part.Object? {
      var kind, text := TextAt(part.members, "type"), First(part.members, "text");
      if kind == "text" {
        if text.Some? && text.value.String? {
          TextPieceTexts(text.value.s);
          AddsText(flat, NormalizeText(text.value.s), TextPieces(text.value.s));
        }
      } else if kind == "tool_use" {
        DecodedMember(fl, part.members, "input");
        DecodePrinted(fl, ValueAt(part.members, "input"), true);
        AddsCall(flat, BlockCalls(part)[0]);
      } else {
        DecodePrinted(fl, part, true);
        AddsBlock(fl, flat, part);
      }
    }
  }

  lemma LinesSnoc(texts: seq<string>, more: string)
    ensures LinesOfAll(texts + [more]) == LinesOfAll(texts) + TextLines(more)
  {
    assert (texts + [more])[..|texts|] == texts;
  }

  lemma {:induction false} FlatIsPieces(fl: Floats, parts: seq<Json>)
    requires forall i | 0 <= i < |parts| :: Canonical(fl, parts[i])
    ensures Adds(Flat([], []), Flatten(fl, parts), Pieces(parts), Calls(parts))
  {
    if parts == [] { AddsNothing(Flat([], [])); }
    else {
      var n := |parts| - 1;
      FlatIsPieces(fl, parts[..n]);
      BlockAdds(fl, Flatten(fl, parts[..n]), parts[n]);
      AddsTwice(Flat([], []), Flatten(fl, parts[..n]), Flatten(fl, parts), Pieces(parts[..n]), Calls(parts[..n]),
                BlockPieces(parts[n]), BlockCalls(parts[n]));
    }
  }

  lemma AddsTwice(a: Flat, b: Flat, c: Flat, ps: seq<Piece>, cs: seq<Call>, qs: seq<Piece>, ds: seq<Call>)
    requires Adds(a, b, ps, cs) && Adds(b, c, qs, ds)
    ensures Adds(a, c, ps + qs, cs + ds)
  {
    PieceTextAppend(ps, qs);
    CallToolsAppend(cs, ds);
    Associates(LinesOfAll(a.texts), PieceTexts(ps), PieceTexts(qs));
    Associates(a.calls, CallTools(cs), CallTools(ds));
  }

  lemma Associates<T>(a: seq<T>, b: seq<T>, c: seq<T>)
    ensures (a + b) + c == a + (b + c)
  {
  }

  /** A canonical message is its turn: the same role, lines that spell its pieces, and its calls. */
  ghost predicate Renders(m: Message, t: Turn) {
    && m.role == t.role && m.name == "" && m.toolCallId == ""
    && TextLines(m.content) == PieceTexts(t.pieces) && m.toolCalls == CallTools(t.calls)
  }

  lemma BlocksRender(fl: Floats, parts: seq<Json>)
    requires forall i | 0 <= i < |parts| :: Canonical(fl, parts[i])
    ensures TextLines(JoinLines(Flatten(fl, parts).texts)) == PieceTexts(OrEmptyLine(Pieces(parts)))
    ensures Flatten(fl, parts).calls == CallTools(Calls(parts))
  {
    var flat := Flatten(fl, parts);
    FlatIsPieces(fl, parts);
    LinesOfJoined(flat.texts);
    assert LinesOfAll([]) == [] && PieceTexts([Line("")]) == [""];
  }

  lemma MessageRenders(fl: Floats, m: RawMessage)
    requires IsDecoded(fl, m.content)
    ensures Renders(CanonicMessage(fl, m), TurnOf(m))
  {
    assert PieceTexts([Line("")]) == [""];
    match m.content {
      case Some(String(s)) => TextPieceTexts(s);
      case Some(Array(parts)) =>
        BlocksRender(fl, parts);
      case _ =>
    }
  }

  lemma SystemRenders(fl: Floats, system: Option<Json>)
    requires IsDecoded(fl, system)
    ensures var ms, ts := SystemMessages(fl, system), SystemTurns(system);
            |ms| == |ts| <= 1 && (|ts| == 1 ==> Renders(ms[0], ts[0]))
  {
    match system {
      case Some(String(s)) => TextPieceTexts(s);
      case Some(Array(parts)) =>
        var v := Array(parts);
        CanonicalIsDecoded(fl, v);
        DecodePrinted(fl, v, true);
        PrintHasNoLF(v, false);
        PrintsDiffer(v, false, v, false);
        SingleTextLine(BlockSpelling(v));
        assert PieceTexts([Block(v)]) == [BlockSpelling(v)];
      case _ =>
    }
  }

  // Turns are printable.

  lemma BlockIsPrintable(fl: Floats, part: Json)
    requires Canonical(fl, part)
    ensures forall i | 0 <= i < |BlockPieces(part)| :: BlockPieces(part)[i].Block? ==>
            NumbersValid(BlockPieces(part)[i].value)
    ensures forall i | 0 <= i < |BlockCalls(part)| :: NumbersValid(BlockCalls(part)[i].input)
  {
    CanonicalIsDecoded(fl, part);
    if part.Object? {
      DecodedMember(fl, part.members, "input");
      CanonicalIsDecoded(fl, ValueAt(part.members, "input"));
    }
  }

  lemma {:induction false} PartsArePrintable(fl: Floats, parts: seq<Json>, role: string)
    requires forall i | 0 <= i < |parts| :: Canonical(fl, parts[i])
    ensures Printable(Turn(role, Pieces(parts), Calls(parts)))
  {
    if parts != [] {
      PartsArePrintable(fl, parts[..|parts| - 1], role);
      BlockIsPrintable(fl, parts[|parts| - 1]);
    }
  }

  lemma TurnIsPrintable(fl: Floats, m: RawMessage)
    requires IsDecoded(fl, m.content)
    ensures Printable(TurnOf(m))
  {
    match m.content {
      case Some(Array(parts)) => PartsArePrintable(fl, parts, "");
      case _ =>
    }
  }

  lemma SystemIsPrintable(fl: Floats, system: Option<Json>)
    requires IsDecoded(fl, system)
    ensures SystemTurns(system) != [] ==> Printable(SystemTurns(system)[0])
  {
    if system.Some? { CanonicalIsDecoded(fl, system.value); }
  }

  // Equal renderings are alike turns.

  lemma PieceAlikeIff(a: Piece, b: Piece)
    requires a.Block? ==> NumbersValid(a.value)
    requires b.Block? ==> NumbersValid(b.value)
    ensures PieceText(a) == PieceText(b) <==> PieceAlike(a, b)
  {
    if a.Block? && b.Block? {
      var h1 := a.value.Object? && TextAt(a.value.members, "type") != "tool_result";
      var h2 := b.value.Object? && TextAt(b.value.members, "type") != "tool_result";
      PrintsDiffer(a.value, h1, b.value, h2);
    }
  }

  lemma PiecesAlikeIff(a: seq<Piece>, b: seq<Piece>)
    requires forall i | 0 <= i < |a| :: a[i].Block? ==> NumbersValid(a[i].value)
    requires forall i | 0 <= i < |b| :: b[i].Block? ==> NumbersValid(b[i].value)
    ensures PieceTexts(a) == PieceTexts(b) <==> PiecesAlike(a, b)
  {
    var x, y := PieceTexts(a), PieceTexts(b);
    assert |x| == |a| && |y| == |b|;
    if |a| == |b| {
      forall i | 0 <= i < |a| ensures x[i] == y[i] <==> PieceAlike(a[i], b[i]) { PieceAlikeIff(a[i], b[i]); }
      assert x == y <==> forall i | 0 <= i < |x| :: x[i] == y[i];
    }
  }

  lemma CallsAlikeIff(a: seq<Call>, b: seq<Call>)
    requires forall i | 0 <= i < |a| :: NumbersValid(a[i].input)
    requires forall i | 0 <= i < |b| :: NumbersValid(b[i].input)
    ensures CallTools(a) == CallTools(b) <==> a == b
  {
    var x, y := CallTools(a), CallTools(b);
    assert |x| == |a| && |y| == |b|;
    if x == y {
      forall i | 0 <= i < |a| ensures a[i] == b[i] {
        assert x[i] == y[i];
        PrintsDiffer(a[i].input, false, b[i].input, false);
      }
    }
  }

  lemma RenderedAlikeIff(m: Message, a: Turn, n: Message, b: Turn)
    requires Renders(m, a) && Renders(n, b) && Printable(a) && Printable(b)
    ensures m == n <==> TurnAlike(a, b)
  {
    PiecesAlikeIff(a.pieces, b.pieces);
    CallsAlikeIff(a.calls, b.calls);
    if TextLines(m.content) == TextLines(n.content) { TextLinesInjective(m.content, n.content); }
  }

  /** Contents and system prompt of an unmarshalled body are decoded values. */
  predicate Unmarshalled(fl: Floats, p: MessagesRequest) {
    IsDecoded(fl, p.system) && forall i | 0 <= i < |p.messages| :: IsDecoded(fl, p.messages[i].content)
  }

  lemma ParsedIsUnmarshalled(fl: Floats, body: string)
    requires fl.Sound() && ParseBody(fl, body).Some?
    ensures Unmarshalled(fl, ParseBody(fl, body).value)
  {
    ParsedNumbersValid(body);
    var ms, p := StructMembers(Parse(body).value).value, ParseBody(fl, body).value;
    var f := v => ParseMessage(fl, v);
    AnyFieldIsDecoded(fl, ms, "system");
    forall i | 0 <= i < |p.messages| ensures IsDecoded(fl, p.messages[i].content) {
      var v := ListElement(ms, "messages", f, i);
      AnyFieldIsDecoded(fl, if v.Object? then v.members else [], "content");
    }
  }

  function AllMessages(fl: Floats, p: MessagesRequest): seq<Message> {
    SystemMessages(fl, p.system) + CanonicMessages(fl, p.messages)
  }

  lemma MessagesRender(fl: Floats, p: MessagesRequest)
    requires Unmarshalled(fl, p)
    ensures var ms, ts := AllMessages(fl, p), TurnsIn(p);
            |ms| == |ts| && forall i | 0 <= i < |ms| :: Renders(ms[i], ts[i]) && Printable(ts[i])
  {
    SystemRenders(fl, p.system);
    SystemIsPrintable(fl, p.system);
    BodyMessagesRender(fl, p.messages);
  }

  lemma BodyMessagesRender(fl: Floats, raw: seq<RawMessage>)
    requires forall i | 0 <= i < |raw| :: IsDecoded(fl, raw[i].content)
    ensures var ms, ts := CanonicMessages(fl, raw), TurnsOf(raw);
            |ms| == |ts| && forall i | 0 <= i < |ms| :: Renders(ms[i], ts[i]) && Printable(ts[i])
  {
    forall i | 0 <= i < |raw| ensures Renders(CanonicMessage(fl, raw[i]), TurnOf(raw[i])) && Printable(TurnOf(raw[i])) {
      MessageRenders(fl, raw[i]);
      TurnIsPrintable(fl, raw[i]);
    }
  }

  lemma MessagesAlikeIff(fl: Floats, p: MessagesRequest, q: MessagesRequest)
    requires Unmarshalled(fl, p) && Unmarshalled(fl, q)
    ensures AllMessages(fl, p) == AllMessages(fl, q) <==> TurnsAlike(TurnsIn(p), TurnsIn(q))
  {
    var ms, ns, a, b := AllMessages(fl, p), AllMessages(fl, q), TurnsIn(p), TurnsIn(q);
    MessagesRender(fl, p);
    MessagesRender(fl, q);
    if |ms| == |ns| {
      forall i | 0 <= i < |ms| ensures ms[i] == ns[i] <==> TurnAlike(a[i], b[i]) {
        RenderedAlikeIff(ms[i], a[i], ns[i], b[i]);
      }
      assert ms == ns <==> forall i | 0 <= i < |ms| :: ms[i] == ns[i];
    }
  }

  /** Equivalent bodies: conversations that are taken for each other, and everything else equal except the
      order of tools with different names. */
  ghost predicate Equivalent(p: MessagesRequest, q: MessagesRequest) {
    && p.model == q.model && TurnsAlike(TurnsIn(p), TurnsIn(q))
    && p.maxTokens == q.maxTokens && p.temperature == q.temperature && p.topP == q.topP && p.topK == q.topK
    && p.stopSequences == q.stopSequences && p.toolChoice == q.toolChoice
    && ToolsAlike(p.tools, q.tools)
  }

  /** Two accepted bodies get the same canonical request exactly when they are equivalent. */
  lemma CanonicAlikeIffEquivalent(fl: Floats, req: Option<OpenAI.HttpRequest>, p: MessagesRequest, q: MessagesRequest)
    requires Unmarshalled(fl, p) && Unmarshalled(fl, q)
    ensures CanonicOf(fl, req, p) == CanonicOf(fl, req, q) <==> Equivalent(p, q)
  {
    ParamsDetermineFields(p, q);
    SortedAlikeIffNamedAlike(CanonicTools(p.tools), CanonicTools(q.tools));
    ToolsAlikeIff(p.tools, q.tools);
    MessagesAlikeIff(fl, p, q);
  }

  // Collapses that the design does not ask for.

  lemma {:induction false} TurnAlikeReflexive(ts: seq<Turn>)
    ensures TurnsAlike(ts, ts)
  {
    assert forall i, k | 0 <= i < |ts| && 0 <= k < |ts[i].pieces| :: PieceAlike(ts[i].pieces[k], ts[i].pieces[k]);
  }

  /** A system prompt with text is taken for a first message, and then exactly when that message has the role
      "system", no tool calls, and the pieces of the prompt. */
  lemma SystemPassesForMessageIff(fl: Floats, req: Option<OpenAI.HttpRequest>, p: MessagesRequest, m: RawMessage)
    requires Unmarshalled(fl, p) && IsDecoded(fl, m.content) && SystemTurns(p.system) != []
    ensures CanonicOf(fl, req, p) == CanonicOf(fl, req, p.(system := None, messages := [m] + p.messages)) <==>
            TurnAlike(SystemTurns(p.system)[0], TurnOf(m))
  {
    var q := p.(system := None, messages := [m] + p.messages);
    CanonicAlikeIffEquivalent(fl, req, p, q);
    assert TurnsIn(p) == [SystemTurns(p.system)[0]] + TurnsOf(p.messages);
    assert TurnsIn(q) == [TurnOf(m)] + TurnsOf(p.messages) by {
      TurnsCons(m, p.messages);
      assert [] + TurnsOf([m] + p.messages) == TurnsOf([m] + p.messages);
    }
    ConsAlike(SystemTurns(p.system)[0], TurnOf(m), TurnsOf(p.messages));
  }

  lemma TurnsCons(m: RawMessage, ms: seq<RawMessage>)
    ensures TurnsOf([m] + ms) == [TurnOf(m)] + TurnsOf(ms)
  {
  }

  lemma ConsAlike(a: Turn, b: Turn, rest: seq<Turn>)
    ensures TurnsAlike([a] + rest, [b] + rest) <==> TurnAlike(a, b)
  {
    TurnAlikeReflexive(rest);
    var x, y := [a] + rest, [b] + rest;
    assert x[0] == a && y[0] == b;
    assert forall i | 0 < i < |x| :: x[i] == rest[i - 1] && y[i] == rest[i - 1];
  }

  /** So is every string prompt for a system message with its text. */
  lemma SystemMayPassForMessage(fl: Floats, req: Option<OpenAI.HttpRequest>, p: MessagesRequest, s: string)
    requires Unmarshalled(fl, p) && p.system == Some(String(s)) && NormalizeText(s) != ""
    ensures CanonicOf(fl, req, p) ==
            CanonicOf(fl, req, p.(system := None, messages := [RawMessage("system", Some(String(s)))] + p.messages))
  {
    RoleIsKept();
    SystemPassesForMessageIff(fl, req, p, RawMessage("system", Some(String(s))));
    TurnAlikeReflexive(SystemTurns(p.system));
  }

  lemma RoleIsKept()
    ensures Lower(TrimSpace("system")) == "system"
  {
    TrimTrimmed("system");
    assert Lower("system") == "system";
  }

  /** Content blocks are taken for a string exactly when they hold no tool call and their pieces are the lines
      of the string: several text blocks for their lines under each other, another block for a line that spells it. */
  lemma BlocksPassForStringIff(fl: Floats, role: string, parts: seq<Json>, s: string)
    requires Canonical(fl, Array(parts))
    ensures CanonicMessage(fl, RawMessage(role, Some(Array(parts)))) ==
            CanonicMessage(fl, RawMessage(role, Some(String(s)))) <==>
            Calls(parts) == [] && PiecesAlike(OrEmptyLine(Pieces(parts)), TextPieces(s))
  {
    var m, n := RawMessage(role, Some(Array(parts))), RawMessage(role, Some(String(s)));
    MessageRenders(fl, m);
    MessageRenders(fl, n);
    TurnIsPrintable(fl, m);
    TurnIsPrintable(fl, n);
    RenderedAlikeIff(CanonicMessage(fl, m), TurnOf(m), CanonicMessage(fl, n), TurnOf(n));
  }

  // Hashes.

  /** Hashes of accepted bodies agree exactly when the bodies are equivalent. */
  lemma HashesAgreeIffEquivalent(fl: Floats, digest: string -> string,
      hashed: iset<string>, req: Option<OpenAI.HttpRequest>,
                                 body1: string, body2: string)
    requires fl.Sound() && ParseBody(fl, body1).Some? && ParseBody(fl, body2).Some?
    requires var p, q := ParseBody(fl, body1).value, ParseBody(fl, body2).value;
             CollisionFree(digest, hashed) && Encode(CanonicOf(fl, req, p)) in hashed
               && Encode(CanonicOf(fl, req, q)) in hashed
    ensures var p, q := ParseBody(fl, body1).value, ParseBody(fl, body2).value;
            Hash(digest, Some(CanonicOf(fl, req, p))) == Hash(digest, Some(CanonicOf(fl, req, q))) <==> Equivalent(p, q)
  {
    var p, q := ParseBody(fl, body1).value, ParseBody(fl, body2).value;
    ParsedIsUnmarshalled(fl, body1);
    ParsedIsUnmarshalled(fl, body2);
    CanonicIsEncodable(fl, req, body1);
    CanonicIsEncodable(fl, req, body2);
    HashIdentifies(digest, hashed, CanonicOf(fl, req, p), CanonicOf(fl, req, q));
    CanonicAlikeIffEquivalent(fl, req, p, q);
  }

  /** Two bodies that differ only in giving the text of one message as a string and as a single text block have
      the same hash. */
  lemma StringAndTextBlockShareHash(fl: Floats, digest: string -> string, req: Option<OpenAI.HttpRequest>,
                                    body1: string, body2: string, i: nat, s: string, block: seq<Member>)
    requires ParseBody(fl, body1).Some? && i < |ParseBody(fl, body1).value.messages|
    requires First(block, "type") == Some(String("text")) && First(block, "text") == Some(String(s))
    requires var p := ParseBody(fl, body1).value;
             && p.messages[i].content == Some(String(s))
             && ParseBody(fl, body2) ==
                Some(p.(messages := p.messages[i := RawMessage(p.messages[i].role, Some(Array([Object(block)])))]))
    ensures Hash(digest, Some(CanonicOf(fl, req, ParseBody(fl, body1).value))) ==
            Hash(digest, Some(CanonicOf(fl, req, ParseBody(fl, body2).value)))
  {
    var p := ParseBody(fl, body1).value;
    StringIsOneTextBlock(fl, p.messages[i].role, s, block);
    var m := RawMessage(p.messages[i].role, Some(Array([Object(block)])));
    assert p.messages[i] == RawMessage(p.messages[i].role, Some(String(s)));
    ReplaceMessage(fl, p.messages, i, m);
  }

  lemma ReplaceMessage(fl: Floats, ms: seq<RawMessage>, i: nat, m: RawMessage)
    requires i < |ms| && CanonicMessage(fl, ms[i]) == CanonicMessage(fl, m)
    ensures CanonicMessages(fl, ms[i := m]) == CanonicMessages(fl, ms)
  {
  }
}
