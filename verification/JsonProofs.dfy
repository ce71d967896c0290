/** The parser undoes the printer, and accepts exactly the token renderings of values. */
module JsonProofs {
  import opened Wrappers
  import opened Json

  // Tokens and values.

  lemma NotClosing(v: Json, rest: seq<Token>)
    ensures var ts := TokensThen(v, rest); ts != [] && ts[0] != RBracket && ts[0] != RBrace
  {
  }

  /** Parsing the tokens of a value gives the value back and leaves what follows. */
  lemma {:induction false} ParseTokens(v: Json, rest: seq<Token>)
    ensures ParseValue(TokensThen(v, rest)) == Some(Parsed(v, rest))
    decreases v, 0
  {
    var ts := TokensThen(v, rest);
    match v {
      case Array(items) =>
        assert ts[1..] == ItemsThen(items, [RBracket] + rest);
        if items == [] { assert ts[2..] == rest; }
        else {
          NotClosing(items[0], MoreItemsThen(items[1..], [RBracket] + rest));
          ParseItemTokens(items, rest);
        }
      case Object(members) =>
        assert ts[1..] == MembersThen(members, [RBrace] + rest);
        if members == [] { assert ts[2..] == rest; }
        else { ParseMemberTokens(members, rest); }
      case _ => assert ts[1..] == rest;
    }
  }

  lemma {:induction false} ParseItemTokens(items: seq<Json>, rest: seq<Token>)
    requires items != []
    ensures ParseItems(ItemsThen(items, [RBracket] + rest)) == Some(Parsed(items, rest))
    decreases items, 1
  {
    var after := MoreItemsThen(items[1..], [RBracket] + rest);
    ParseTokens(items[0], after);
    if |items| == 1 {
      assert after[1..] == rest && items == [items[0]];
    } else {
      ParseItemTokens(items[1..], rest);
      assert after[1..] == ItemsThen(items[1..], [RBracket] + rest);
      assert items == [items[0]] + items[1..];
    }
  }

  lemma {:induction false} ParseMemberTokens(members: seq<Member>, rest: seq<Token>)
    requires members != []
    ensures ParseMembers(MembersThen(members, [RBrace] + rest)) == Some(Parsed(members, rest))
    decreases members, 1
  {
    var m, ts := members[0], MembersThen(members, [RBrace] + rest);
    var after := MoreMembersThen(members[1..], [RBrace] + rest);
    assert ts == MemberThen(m, after);
    assert ts[2..] == TokensThen(m.value, after);
    ParseTokens(m.value, after);
    if |members| == 1 {
      assert after[1..] == rest && members == [m];
    } else {
      ParseMemberTokens(members[1..], rest);
      assert after[1..] == MembersThen(members[1..], [RBrace] + rest);
      assert members == [m] + members[1..];
    }
  }

  /** Whatever is parsed was the rendering of the result. */
  lemma {:induction false} ParsedIsTokens(ts: seq<Token>)
    requires ParseValue(ts).Some?
    ensures ts == TokensThen(ParseValue(ts).value.value, ParseValue(ts).value.rest)
    decreases |ts|, 0
  {
    assert ts == [ts[0]] + ts[1..];
    if ts[0] == LBracket {
      if |ts| > 1 && ts[1] == RBracket { assert ts[1..] == [RBracket] + ts[2..]; }
      else { ParsedIsItems(ts[1..]); }
    } else if ts[0] == LBrace {
      if |ts| > 1 && ts[1] == RBrace { assert ts[1..] == [RBrace] + ts[2..]; }
      else { ParsedIsMembers(ts[1..]); }
    }
  }

  lemma {:induction false} ParsedIsItems(ts: seq<Token>)
    requires ParseItems(ts).Some?
    ensures ts == ItemsThen(ParseItems(ts).value.value, [RBracket] + ParseItems(ts).value.rest)
    decreases |ts|, 1
  {
    ParsedIsTokens(ts);
    var v, rest := ParseValue(ts).value.value, ParseValue(ts).value.rest;
    assert rest == [rest[0]] + rest[1..];
    if rest[0] == RBracket { assert [v][1..] == []; }
    else {
      ParsedIsItems(rest[1..]);
      var p := ParseItems(rest[1..]).value;
      assert ([v] + p.value)[1..] == p.value;
    }
  }

  lemma {:induction false} ParsedIsMembers(ts: seq<Token>)
    requires ParseMembers(ts).Some?
    ensures ts == MembersThen(ParseMembers(ts).value.value, [RBrace] + ParseMembers(ts).value.rest)
    decreases |ts|, 1
  {
    ParsedIsTokens(ts[2..]);
    var v, rest := ParseValue(ts[2..]).value.value, ParseValue(ts[2..]).value.rest;
    var m := Member(ts[0].s, v);
    assert ts == [TString(m.key)] + ([Colon] + ts[2..]);
    assert rest == [rest[0]] + rest[1..];
    if rest[0] == RBrace { assert [m][1..] == []; }
    else {
      ParsedIsMembers(rest[1..]);
      var p := ParseMembers(rest[1..]).value;
      assert ([m] + p.value)[1..] == p.value;
    }
  }

  // Characters and tokens.

  ghost predicate Blank(s: string) {
    forall i | 0 <= i < |s| :: IsBlank(s[i])
  }

  lemma {:induction false} LexSkips(gap: string, s: string)
    requires Blank(gap)
    ensures Lex(gap + s) == Lex(s)
  {
    if gap == "" { assert gap + s == s; }
    else { LexSkips(gap[1..], s); assert (gap + s)[1..] == gap[1..] + s; }
  }

  lemma EscapedReadsBack(c: char, html: bool, rest: string)
    ensures var e := Escaped(c, html);
            && e != "" && e[0] != '"'
            && BodyChar(e + rest) == Some(Scanned(c, |e|))
  {
    var e := Escaped(c, html);
    if |e| == 6 {
      assert (e + rest)[0] == '\\' && (e + rest)[1] == 'u';
      assert (e + rest)[2] == e[2] && (e + rest)[3] == e[3] && (e + rest)[4] == e[4] && (e + rest)[5] == e[5];
    } else if |e| == 2 {
      assert (e + rest)[0] == '\\' && (e + rest)[1] == e[1];
    } else {
      assert (e + rest)[0] == c;
    }
  }

  /** `text` starts with a string body for `s` of length `n`, and `rest` follows. */
  ghost predicate BodyReadsAs(text: string, s: string, n: nat, rest: string) {
    n <= |text| && LexBody(text) == Some(Body(s, n)) && text[n..] == rest
  }

  lemma DropDrop(a: string, b: string, n: nat)
    requires n <= |b|
    ensures (a + b)[|a| + n..] == b[n..]
  {
  }

  lemma BodyStep(e: string, c: char, more: string, s: string, n: nat, rest: string)
    requires e != "" && e[0] != '"' && BodyChar(e + more) == Some(Scanned(c, |e|))
    requires BodyReadsAs(more, s, n, rest)
    ensures BodyReadsAs(e + more, [c] + s, |e| + n, rest)
  {
    assert (e + more)[0] == e[0] && (e + more)[|e|..] == more;
    DropDrop(e, more, n);
  }

  lemma EscapedStep(c: char, html: bool, more: string, s: string, n: nat, rest: string)
    requires BodyReadsAs(more, s, n, rest)
    ensures BodyReadsAs(Escaped(c, html) + more, [c] + s, |Escaped(c, html)| + n, rest)
  {
    EscapedReadsBack(c, html, more);
    BodyStep(Escaped(c, html), c, more, s, n, rest);
  }

  lemma {:induction false} BodyReadsBack(s: string, html: bool, rest: string) returns (n: nat)
    ensures BodyReadsAs(EscapedThen(s, html, "\"" + rest), s, n, rest)
  {
    if s == "" { n := 1; assert ("\"" + rest)[1..] == rest; }
    else {
      n := BodyReadsBack(s[1..], html, rest);
      EscapedStep(s[0], html, EscapedThen(s[1..], html, "\"" + rest), s[1..], n, rest);
      n := |Escaped(s[0], html)| + n;
      assert s == [s[0]] + s[1..];
    }
  }

  predicate EndsNumber(rest: string) {
    rest == "" || !IsNumberChar(rest[0])
  }

  lemma {:induction false} SpanAppend(s: string, rest: string, p: char -> bool)
    requires Span(s, p) == |s| && (rest == "" || !p(rest[0]))
    ensures Span(s + rest, p) == |s|
  {
    if s == "" { assert s + rest == rest; }
    else { SpanAppend(s[1..], rest, p); assert (s + rest)[1..] == s[1..] + rest; }
  }

  predicate ValidToken(t: Token) {
    t.TNumber? ==> IsNumber(t.token)
  }

  /** `t` is what is read at the front of `text`, and `rest` what is left. */
  ghost predicate ReadsAs(text: string, t: Token, rest: string) {
    && text != "" && !IsBlank(text[0])
    && NextToken(text).Some? && NextToken(text).value.token == t && text[NextToken(text).value.length..] == rest
  }

  lemma NoWord(text: string)
    requires text != "" && IsNumberChar(text[0])
    ensures !StartsWith(text, "null") && !StartsWith(text, "true") && !StartsWith(text, "false")
    ensures Punctuation(text[0]).None? && text[0] != '"' && !IsBlank(text[0])
  {
  }

  lemma NumberReadsBack(token: string, rest: string)
    requires IsNumber(token) && EndsNumber(rest)
    ensures ReadsAs(token + rest, TNumber(token), rest)
  {
    var text := token + rest;
    SpanAppend(token, rest, IsNumberChar);
    assert text[..|token|] == token && text[|token|..] == rest;
    assert text[0] == token[0] && IsNumberChar(token[0]);
    NoWord(text);
  }

  lemma StringReadsBack(s: string, html: bool, rest: string)
    ensures ReadsAs("\"" + EscapedThen(s, html, "\"" + rest), TString(s), rest)
  {
    var n := BodyReadsBack(s, html, rest);
    QuotedReads(EscapedThen(s, html, "\"" + rest), s, n, rest);
  }

  lemma QuotedReads(body: string, s: string, n: nat, rest: string)
    requires BodyReadsAs(body, s, n, rest)
    ensures ReadsAs("\"" + body, TString(s), rest)
  {
    assert ("\"" + body)[0] == '"' && ("\"" + body)[1..] == body;
    DropDrop("\"", body, n);
  }

  lemma WordReadsBack(word: string, t: Token, rest: string)
    requires (word == "null" && t == TNull) || (word == "true" && t == TTrue) || (word == "false" && t == TFalse)
    ensures ReadsAs(word + rest, t, rest)
  {
    var text := word + rest;
    assert text[0] == word[0];
    assert text[..|word|] == word && text[|word|..] == rest;
  }

  /** A spelled token is read back, as long as no number is continued by what follows. */
  lemma TokenReadsBack(t: Token, html: bool, rest: string)
    requires ValidToken(t) && (t.TNumber? ==> EndsNumber(rest))
    ensures ReadsAs(SpellThen(t, html, rest), t, rest)
  {
    match t {
      case TString(s) => StringReadsBack(s, html, rest);
      case TNumber(token) => NumberReadsBack(token, rest);
      case TNull => WordReadsBack("null", t, rest);
      case TTrue => WordReadsBack("true", t, rest);
      case TFalse => WordReadsBack("false", t, rest);
      case _ => assert SpellThen(t, html, rest)[1..] == rest;
    }
  }

  /** Valid tokens of which no two numbers touch. */
  predicate Spellable(ts: seq<Token>) {
    ts == [] ||
    (ValidToken(ts[0]) && (|ts| > 1 ==> !(ts[0].TNumber? && ts[1].TNumber?)) && Spellable(ts[1..]))
  }

  lemma SpelledEndsNumber(ts: seq<Token>, gaps: seq<string>, html: bool)
    requires |gaps| == |ts| + 1 && (forall i | 0 <= i < |gaps| :: Blank(gaps[i]))
    requires Spellable(ts) && (ts != [] ==> !ts[0].TNumber?)
    ensures EndsNumber(Spell(ts, gaps, html))
  {
    var s := Spell(ts, gaps, html);
    if gaps[0] != "" { assert s[0] == gaps[0][0]; }
    else if ts != [] {
      var rest := Spell(ts[1..], gaps[1..], html);
      assert s == SpellThen(ts[0], html, rest);
      assert !IsNumberChar(s[0]);
    }
  }

  /** Reading a spelled token list gives the list back, whatever blanks stand between the tokens. */
  lemma {:induction false} LexSpelled(ts: seq<Token>, gaps: seq<string>, html: bool)
    requires |gaps| == |ts| + 1 && (forall i | 0 <= i < |gaps| :: Blank(gaps[i]))
    requires Spellable(ts)
    ensures Lex(Spell(ts, gaps, html)) == Some(ts)
  {
    if ts == [] {
      LexSkips(gaps[0], "");
      assert gaps[0] + "" == gaps[0];
    } else {
      var t, rest := ts[0], Spell(ts[1..], gaps[1..], html);
      LexSpelled(ts[1..], gaps[1..], html);
      if t.TNumber? { SpelledEndsNumber(ts[1..], gaps[1..], html); }
      TokenReadsBack(t, html, rest);
      LexSkips(gaps[0], SpellThen(t, html, rest));
      assert ts == [t] + ts[1..];
    }
  }

  // Numbers never touch in the rendering of a value.

  predicate NumbersValid(v: Json)
    decreases v, 0
  {
    match v
    case Number(token) => IsNumber(token)
    case Array(items) => ItemsValid(items)
    case Object(members) => MembersValid(members)
    case _ => true
  }

  predicate ItemsValid(items: seq<Json>)
    decreases items, 0
  {
    items == [] || (NumbersValid(items[0]) && ItemsValid(items[1..]))
  }

  predicate MembersValid(members: seq<Member>)
    decreases members, 0
  {
    members == [] || (NumbersValid(members[0].value) && MembersValid(members[1..]))
  }

  /** What may follow a value. */
  predicate Closing(rest: seq<Token>) {
    Spellable(rest) && (rest == [] || !rest[0].TNumber?)
  }

  lemma SpellableCons(t: Token, rest: seq<Token>)
    requires Spellable(rest) && ValidToken(t) && (t.TNumber? && rest != [] ==> !rest[0].TNumber?)
    ensures Spellable([t] + rest)
  {
    assert ([t] + rest)[1..] == rest;
  }

  lemma {:induction false} TokensSpellable(v: Json, rest: seq<Token>)
    requires NumbersValid(v) && Closing(rest)
    ensures Spellable(TokensThen(v, rest))
    decreases v, 1
  {
    match v {
      case Array(items) =>
        SpellableCons(RBracket, rest);
        if items != [] {
          MoreItemsSpellable(items[1..], [RBracket] + rest);
          TokensSpellable(items[0], MoreItemsThen(items[1..], [RBracket] + rest));
        }
        SpellableCons(LBracket, ItemsThen(items, [RBracket] + rest));
      case Object(members) =>
        SpellableCons(RBrace, rest);
        if members != [] {
          MoreMembersSpellable(members[1..], [RBrace] + rest);
          MemberSpellable(members[0], MoreMembersThen(members[1..], [RBrace] + rest));
        }
        SpellableCons(LBrace, MembersThen(members, [RBrace] + rest));
      case Null => SpellableCons(TNull, rest);
      case Bool(b) => SpellableCons(if b then TTrue else TFalse, rest);
      case Number(token) => SpellableCons(TNumber(token), rest);
      case String(s) => SpellableCons(TString(s), rest);
    }
  }

  lemma {:induction false} MoreItemsSpellable(items: seq<Json>, rest: seq<Token>)
    requires ItemsValid(items) && Closing(rest)
    ensures Closing(MoreItemsThen(items, rest))
    decreases items, 0
  {
    if items != [] {
      MoreItemsSpellable(items[1..], rest);
      TokensSpellable(items[0], MoreItemsThen(items[1..], rest));
      SpellableCons(Comma, TokensThen(items[0], MoreItemsThen(items[1..], rest)));
    }
  }

  lemma {:induction false} MemberSpellable(m: Member, rest: seq<Token>)
    requires NumbersValid(m.value) && Closing(rest)
    ensures Spellable(MemberThen(m, rest))
    decreases m, 2
  {
    TokensSpellable(m.value, rest);
    SpellableCons(Colon, TokensThen(m.value, rest));
    SpellableCons(TString(m.key), [Colon] + TokensThen(m.value, rest));
  }

  lemma {:induction false} MoreMembersSpellable(members: seq<Member>, rest: seq<Token>)
    requires MembersValid(members) && Closing(rest)
    ensures Closing(MoreMembersThen(members, rest))
    decreases members, 0
  {
    if members != [] {
      MoreMembersSpellable(members[1..], rest);
      MemberSpellable(members[0], MoreMembersThen(members[1..], rest));
      SpellableCons(Comma, MemberThen(members[0], MoreMembersThen(members[1..], rest)));
    }
  }

  /** Any layout of a value parses back to it: blanks between tokens and the escaping of '<', '>' and '&'
      make no difference. */
  lemma LayoutParsesBack(v: Json, gaps: seq<string>, html: bool)
    requires NumbersValid(v)
    requires |gaps| == |Tokens(v)| + 1 && forall i | 0 <= i < |gaps| :: Blank(gaps[i])
    ensures Parse(Spell(Tokens(v), gaps, html)) == Some(v)
  {
    TokensSpellable(v, []);
    LexSpelled(Tokens(v), gaps, html);
    ParseTokens(v, []);
  }

  /** The parser undoes the compact printer. */
  lemma PrintParsesBack(v: Json, html: bool)
    requires NumbersValid(v)
    ensures Parse(Print(v, html)) == Some(v)
  {
    LayoutParsesBack(v, NoGaps(|Tokens(v)|), html);
  }

  /** So the printed text determines the value. */
  lemma PrintIsInjective(v: Json, w: Json, html: bool)
    requires NumbersValid(v) && NumbersValid(w) && Print(v, html) == Print(w, html)
    ensures v == w
  {
    PrintParsesBack(v, html);
    PrintParsesBack(w, html);
  }

  /** Parsing succeeds exactly on the texts whose tokens render some value, and yields that value. */
  lemma ParseExactly(s: string, v: Json)
    ensures Parse(s) == Some(v) <==> Lex(s) == Some(Tokens(v))
  {
    if Parse(s) == Some(v) { ParsedIsTokens(Lex(s).value); }
    if Lex(s) == Some(Tokens(v)) { ParseTokens(v, []); }
  }

  // A printed value is one line of text.

  lemma EscapedHasNoLF(c: char, html: bool)
    ensures '\n' !in Escaped(c, html)
  {
  }

  lemma {:induction false} EscapedThenHasNoLF(s: string, html: bool, rest: string)
    requires '\n' !in rest
    ensures '\n' !in EscapedThen(s, html, rest)
  {
    if s != "" {
      EscapedHasNoLF(s[0], html);
      EscapedThenHasNoLF(s[1..], html, rest);
    }
  }

  lemma SpelledTokenHasNoLF(t: Token, html: bool, rest: string)
    requires ValidToken(t) && '\n' !in rest
    ensures '\n' !in SpellThen(t, html, rest)
  {
    match t {
      case TString(s) => EscapedThenHasNoLF(s, html, "\"" + rest);
      case TNumber(token) => assert forall i | 0 <= i < |token| :: IsNumberChar(token[i]);
      case _ =>
    }
  }

  lemma {:induction false} SpelledHasNoLF(ts: seq<Token>, gaps: seq<string>, html: bool)
    requires |gaps| == |ts| + 1 && Spellable(ts) && forall i | 0 <= i < |gaps| :: gaps[i] == ""
    ensures '\n' !in Spell(ts, gaps, html)
  {
    if ts != [] {
      SpelledHasNoLF(ts[1..], gaps[1..], html);
      SpelledTokenHasNoLF(ts[0], html, Spell(ts[1..], gaps[1..], html));
    }
  }

  lemma PrintHasNoLF(v: Json, html: bool)
    requires NumbersValid(v)
    ensures '\n' !in Print(v, html)
  {
    TokensSpellable(v, []);
    SpelledHasNoLF(Tokens(v), NoGaps(|Tokens(v)|), html);
  }

  /** Printed values are never empty, and equal whichever way they are escaped only if the values are. */
  lemma PrintsDiffer(v: Json, html1: bool, w: Json, html2: bool)
    requires NumbersValid(v) && NumbersValid(w)
    ensures Print(v, html1) != ""
    ensures Print(v, html1) == Print(w, html2) ==> v == w
  {
    PrintParsesBack(v, html1);
    PrintParsesBack(w, html2);
  }
}
