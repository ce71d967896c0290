/** JSON texts (RFC 8259) as encoding/json reads and writes them: values, tokens, a printer and a parser.

    Strings are sequences of Unicode scalar values. A number is kept as its token; decoding it to float64
    and formatting that again is the parameter `Floats`. */
module Json {
  import opened Wrappers

  datatype Json =
    | Null
    | Bool(b: bool)
    | Number(token: string)
    | String(s: string)
    | Array(items: seq<Json>)
    | Object(members: seq<Member>)

  datatype Member = Member(key: string, value: Json)

  datatype Token =
    | LBrace | RBrace | LBracket | RBracket | Comma | Colon
    | TNull | TTrue | TFalse
    | TNumber(token: string)
    | TString(s: string)

  // Section 6: numbers.

  predicate IsDigit(c: char) {
    '0' <= c <= '9'
  }

  predicate IsNumberChar(c: char) {
    IsDigit(c) || c == '-' || c == '+' || c == '.' || c == 'e' || c == 'E'
  }

  /** How many characters at the front of `s` satisfy `p`. */
  function Span(s: string, p: char -> bool): (n: nat)
    ensures n <= |s| && (forall i | 0 <= i < n :: p(s[i])) && (n < |s| ==> !p(s[n]))
  {
    if s != "" && p(s[0]) then Span(s[1..], p) + 1 else 0
  }

  predicate IsExponent(s: string) {
    s == "" ||
    ((s[0] == 'e' || s[0] == 'E')
     && var t := if |s| > 1 && (s[1] == '+' || s[1] == '-') then s[2..] else s[1..];
        t != "" && Span(t, IsDigit) == |t|)
  }

  predicate IsFraction(s: string) {
    if s != "" && s[0] == '.' then
      var n := Span(s[1..], IsDigit);
      n > 0 && IsExponent(s[1 + n..])
    else IsExponent(s)
  }

  /** number = [ minus ] int [ frac ] [ exp ] */
  predicate IsNumber(s: string) {
    var t := if s != "" && s[0] == '-' then s[1..] else s;
    var n := Span(t, IsDigit);
    n > 0 && (n > 1 ==> t[0] != '0') && IsFraction(t[n..]) && Span(s, IsNumberChar) == |s|
  }

  // Section 7: strings.

  predicate IsHex(c: char) {
    IsDigit(c) || 'a' <= c <= 'f' || 'A' <= c <= 'F'
  }

  function HexValue(c: char): nat
    requires IsHex(c)
  {
    if IsDigit(c) then c as int - '0' as int
    else if 'a' <= c <= 'f' then c as int - 'a' as int + 10
    else c as int - 'A' as int + 10
  }

  /** The code unit of "\uXXXX" at the front of `s`. */
  function CodeUnit(s: string): (r: Option<nat>)
    ensures r.Some? ==> r.value < 0x10000 && |s| >= 6
  {
    if |s| >= 6 && s[0] == '\\' && s[1] == 'u' && IsHex(s[2]) && IsHex(s[3]) && IsHex(s[4]) && IsHex(s[5])
    then Some(HexValue(s[2]) * 4096 + HexValue(s[3]) * 256 + HexValue(s[4]) * 16 + HexValue(s[5]))
    else None
  }

  datatype Scanned = Scanned(c: char, length: nat)

  /** A "\uXXXX" escape, or a surrogate pair of two; a lone surrogate reads as U+FFFD. */
  function UnicodeEscape(s: string): (r: Option<Scanned>)
    ensures r.Some? ==> 0 < r.value.length <= |s|
  {
    var hi := CodeUnit(s);
    if hi.None? then None
    else if !(0xD800 <= hi.value < 0xE000) then Some(Scanned(hi.value as char, 6))
    else
      var lo := CodeUnit(s[6..]);
      if hi.value < 0xDC00 && lo.Some? && 0xDC00 <= lo.value < 0xE000
      then Some(Scanned((0x10000 + (hi.value - 0xD800) * 0x400 + (lo.value - 0xDC00)) as char, 12))
      else Some(Scanned('\U{FFFD}', 6))
  }

  /** One character of a string body, plain or escaped. */
  function BodyChar(s: string): (r: Option<Scanned>)
    ensures r.Some? ==> 0 < r.value.length <= |s|
  {
    if s == "" || s[0] < ' ' || s[0] == '"' then None
    else if s[0] != '\\' then Some(Scanned(s[0], 1))
    else if |s| < 2 then None
    else
      match s[1]
      case '"' => Some(Scanned('"', 2))
      case '\\' => Some(Scanned('\\', 2))
      case '/' => Some(Scanned('/', 2))
      case 'b' => Some(Scanned('\U{8}', 2))
      case 'f' => Some(Scanned('\U{c}', 2))
      case 'n' => Some(Scanned('\n', 2))
      case 'r' => Some(Scanned('\r', 2))
      case 't' => Some(Scanned('\t', 2))
      case _ => UnicodeEscape(s)
  }

  datatype Body = Body(text: string, length: nat)

  /** A string body up to and including its closing quote. */
  function LexBody(s: string): (r: Option<Body>)
    ensures r.Some? ==> 0 < r.value.length <= |s|
  {
    if s != "" && s[0] == '"' then Some(Body("", 1))
    else
      var c := BodyChar(s);
      if c.None? then None
      else
        var rest := LexBody(s[c.value.length..]);
        if rest.None? then None
        else Some(Body([c.value.c] + rest.value.text, c.value.length + rest.value.length))
  }

  predicate IsBlank(c: char) {
    c == ' ' || c == '\t' || c == '\n' || c == '\r'
  }

  function Punctuation(c: char): Option<Token> {
    match c
    case '{' => Some(LBrace)
    case '}' => Some(RBrace)
    case '[' => Some(LBracket)
    case ']' => Some(RBracket)
    case ',' => Some(Comma)
    case ':' => Some(Colon)
    case _ => None
  }

  datatype Lexeme = Lexeme(token: Token, length: nat)

  predicate StartsWith(s: string, p: string) {
    |p| <= |s| && s[..|p|] == p
  }

  /** The token at the front of a text that does not start with a blank. */
  function NextToken(s: string): (r: Option<Lexeme>)
    ensures r.Some? ==> 0 < r.value.length <= |s|
  {
    if s == "" then None
    else if Punctuation(s[0]).Some? then Some(Lexeme(Punctuation(s[0]).value, 1))
    else if s[0] == '"' then
      (match LexBody(s[1..])
       case Some(b) => Some(Lexeme(TString(b.text), b.length + 1))
       case None => None)
    else if StartsWith(s, "null") then Some(Lexeme(TNull, 4))
    else if StartsWith(s, "true") then Some(Lexeme(TTrue, 4))
    else if StartsWith(s, "false") then Some(Lexeme(TFalse, 5))
    else
      var n := Span(s, IsNumberChar);
      if n > 0 && IsNumber(s[..n]) then Some(Lexeme(TNumber(s[..n]), n)) else None
  }

  function Cons(t: Token, ts: Option<seq<Token>>): Option<seq<Token>> {
    if ts.Some? then Some([t] + ts.value) else None
  }

  function Lex(s: string): Option<seq<Token>> {
    if s == "" then Some([])
    else if IsBlank(s[0]) then Lex(s[1..])
    else
      var t := NextToken(s);
      if t.None? then None else Cons(t.value.token, Lex(s[t.value.length..]))
  }

  // Spelling tokens, as encoding/json does.

  function HexDigit(n: nat): char
    requires n < 16
  {
    if n < 10 then ('0' as int + n) as char else ('a' as int + n - 10) as char
  }

  /** encoding/json's escapes. With `html` also '<', '>' and '&' are escaped. */
  function Escaped(c: char, html: bool): string {
    match c
    case '"' => "\\\""
    case '\\' => "\\\\"
    case '\U{8}' => "\\b"
    case '\U{c}' => "\\f"
    case '\n' => "\\n"
    case '\r' => "\\r"
    case '\t' => "\\t"
    case _ =>
      if c < ' ' || (html && (c == '<' || c == '>' || c == '&'))
      then "\\u00" + [HexDigit(c as int / 16), HexDigit(c as int % 16)]
      else if c == '\U{2028}' then "\\u2028"
      else if c == '\U{2029}' then "\\u2029"
      else [c]
  }

  // Renderings are written with what follows as an argument, so that they are built front to back.

  function EscapedThen(s: string, html: bool, rest: string): string {
    if s == "" then rest else Escaped(s[0], html) + EscapedThen(s[1..], html, rest)
  }

  /** The spelling of one token followed by `rest`. */
  function SpellThen(t: Token, html: bool, rest: string): string {
    match t
    case LBrace => "{" + rest
    case RBrace => "}" + rest
    case LBracket => "[" + rest
    case RBracket => "]" + rest
    case Comma => "," + rest
    case Colon => ":" + rest
    case TNull => "null" + rest
    case TTrue => "true" + rest
    case TFalse => "false" + rest
    case TNumber(token) => token + rest
    case TString(s) => "\"" + EscapedThen(s, html, "\"" + rest)
  }

  /** The text of a token list with the given blanks before each token and after the last. */
  function Spell(ts: seq<Token>, gaps: seq<string>, html: bool): string
    requires |gaps| == |ts| + 1
  {
    if ts == [] then gaps[0] else gaps[0] + SpellThen(ts[0], html, Spell(ts[1..], gaps[1..], html))
  }

  /** The tokens of a value followed by `rest`. */
  function TokensThen(v: Json, rest: seq<Token>): seq<Token>
    decreases v, 0
  {
    match v
    case Null => [TNull] + rest
    case Bool(b) => [if b then TTrue else TFalse] + rest
    case Number(token) => [TNumber(token)] + rest
    case String(s) => [TString(s)] + rest
    case Array(items) => [LBracket] + ItemsThen(items, [RBracket] + rest)
    case Object(members) => [LBrace] + MembersThen(members, [RBrace] + rest)
  }

  function ItemsThen(items: seq<Json>, rest: seq<Token>): seq<Token>
    decreases items, 1
  {
    if items == [] then rest else TokensThen(items[0], MoreItemsThen(items[1..], rest))
  }

  function MoreItemsThen(items: seq<Json>, rest: seq<Token>): seq<Token>
    decreases items, 0
  {
    if items == [] then rest else [Comma] + TokensThen(items[0], MoreItemsThen(items[1..], rest))
  }

  function MemberThen(m: Member, rest: seq<Token>): seq<Token>
    decreases m, 1
  {
    [TString(m.key)] + ([Colon] + TokensThen(m.value, rest))
  }

  function MembersThen(members: seq<Member>, rest: seq<Token>): seq<Token>
    decreases members, 1
  {
    if members == [] then rest else MemberThen(members[0], MoreMembersThen(members[1..], rest))
  }

  function MoreMembersThen(members: seq<Member>, rest: seq<Token>): seq<Token>
    decreases members, 0
  {
    if members == [] then rest else [Comma] + MemberThen(members[0], MoreMembersThen(members[1..], rest))
  }

  function Tokens(v: Json): seq<Token> {
    TokensThen(v, [])
  }

  function NoGaps(n: nat): seq<string> {
    seq(n + 1, _ => "")
  }

  /** Compact output: json.Marshal with `html`, json.Encoder without HTML escaping otherwise. */
  function Print(v: Json, html: bool): string {
    Spell(Tokens(v), NoGaps(|Tokens(v)|), html)
  }

  // Parsing tokens.

  datatype Parsed<T> = Parsed(value: T, rest: seq<Token>)

  function ParseValue(ts: seq<Token>): (r: Option<Parsed<Json>>)
    ensures r.Some? ==> |r.value.rest| < |ts|
    decreases |ts|, 0
  {
    if ts == [] then None
    else
      match ts[0]
      case TNull => Some(Parsed(Null, ts[1..]))
      case TTrue => Some(Parsed(Bool(true), ts[1..]))
      case TFalse => Some(Parsed(Bool(false), ts[1..]))
      case TNumber(token) => Some(Parsed(Number(token), ts[1..]))
      case TString(s) => Some(Parsed(String(s), ts[1..]))
      case LBracket =>
        if |ts| > 1 && ts[1] == RBracket then Some(Parsed(Array([]), ts[2..]))
        else
          (match ParseItems(ts[1..])
           case Some(p) => Some(Parsed(Array(p.value), p.rest))
           case None => None)
      case LBrace =>
        if |ts| > 1 && ts[1] == RBrace then Some(Parsed(Object([]), ts[2..]))
        else
          (match ParseMembers(ts[1..])
           case Some(p) => Some(Parsed(Object(p.value), p.rest))
           case None => None)
      case _ => None
  }

  /** One or more array items and the closing bracket. */
  function ParseItems(ts: seq<Token>): (r: Option<Parsed<seq<Json>>>)
    ensures r.Some? ==> |r.value.rest| < |ts| && r.value.value != []
    decreases |ts|, 1
  {
    var first := ParseValue(ts);
    if first.None? || first.value.rest == [] then None
    else
      var v, rest := first.value.value, first.value.rest;
      if rest[0] == RBracket then Some(Parsed([v], rest[1..]))
      else if rest[0] != Comma then None
      else
        match ParseItems(rest[1..])
        case Some(p) => Some(Parsed([v] + p.value, p.rest))
        case None => None
  }

  /** One or more object members and the closing brace. */
  function ParseMembers(ts: seq<Token>): (r: Option<Parsed<seq<Member>>>)
    ensures r.Some? ==> |r.value.rest| < |ts| && r.value.value != []
    decreases |ts|, 1
  {
    if |ts| < 2 || !ts[0].TString? || ts[1] != Colon then None
    else
      var first := ParseValue(ts[2..]);
      if first.None? || first.value.rest == [] then None
      else
        var m, rest := Member(ts[0].s, first.value.value), first.value.rest;
        if rest[0] == RBrace then Some(Parsed([m], rest[1..]))
        else if rest[0] != Comma then None
        else
          match ParseMembers(rest[1..])
          case Some(p) => Some(Parsed([m] + p.value, p.rest))
          case None => None
  }

  /** The value of a JSON text, members in text order, or None for an invalid text. */
  function Parse(s: string): Option<Json> {
    match Lex(s)
    case Some(ts) =>
      var p := ParseValue(ts);
      if p.Some? && p.value.rest == [] then Some(p.value.value) else None
    case None => None
  }
}
