/** Every spelling that RFC 8259 allows, stated without the lexer: numbers (section 6), strings (section 7),
    blanks between tokens (section 2) and the structure of values (sections 3 to 5). Each is read as the
    value it stands for, and what is read as a number or a string is spelled in this way. */
module Spellings {
  import opened Wrappers
  import opened Json
  import opened JsonProofs
  import opened CanonicalJson

  // Characters of a string.

  /** One character of a string body: as itself, by a one-letter escape, by its code unit in four hex
      digits, or by a surrogate pair. A surrogate on its own is read as U+FFFD. */
  datatype Spelling =
    | Plain
    | Short(letter: char)
    | Unit(hex: string)
    | Pair(high: string, low: string)
    | Lone(hex: string)

  predicate IsDigitOf(c: char, d: nat) {
    d < 16 && (c == "0123456789abcdef"[d] || c == "0123456789ABCDEF"[d])
  }

  /** Four hex digits of either case for the number `n`. */
  predicate SpellsUnit(hex: string, n: nat) {
    && |hex| == 4 && n < 0x10000
    && IsDigitOf(hex[0], n / 4096) && IsDigitOf(hex[1], n / 256 % 16)
    && IsDigitOf(hex[2], n / 16 % 16) && IsDigitOf(hex[3], n % 16)
  }

  predicate IsShort(letter: char, c: char) {
    || (letter == '"' && c == '"') || (letter == '\\' && c == '\\') || (letter == '/' && c == '/')
    || (letter == 'b' && c == '\U{8}') || (letter == 'f' && c == '\U{c}') || (letter == 'n' && c == '\U{a}')
    || (letter == 'r' && c == '\U{d}') || (letter == 't' && c == '\U{9}')
  }

  ghost predicate Spells(how: Spelling, c: char) {
    match how
    case Plain => c >= '\U{20}' && c != '"' && c != '\\'
    case Short(letter) => IsShort(letter, c)
    case Unit(hex) => SpellsUnit(hex, c as int)
    case Pair(high, low) =>
      var k := c as int - 0x10000;
      k >= 0 && SpellsUnit(high, 0xD800 + k / 0x400) && SpellsUnit(low, 0xDC00 + k % 0x400)
    case Lone(hex) => c == '\U{FFFD}' && exists n: nat :: 0xD800 <= n < 0xE000 && SpellsUnit(hex, n)
  }

  function Written(how: Spelling, c: char): string {
    match how
    case Plain => [c]
    case Short(letter) => ['\\', letter]
    case Unit(hex) => "\\u" + hex
    case Pair(high, low) => ("\\u" + high) + ("\\u" + low)
    case Lone(hex) => "\\u" + hex
  }

  lemma DigitReads(c: char, d: nat)
    requires IsDigitOf(c, d)
    ensures IsHex(c) && HexValue(c) == d
  {
    assert d == 0 || d == 1 || d == 2 || d == 3 || d == 4 || d == 5 || d == 6 || d == 7
           || d == 8 || d == 9 || d == 10 || d == 11 || d == 12 || d == 13 || d == 14 || d == 15;
  }

  lemma DigitIsSpelled(c: char)
    requires IsHex(c)
    ensures IsDigitOf(c, HexValue(c))
  {
    var d := HexValue(c);
    assert d == 0 || d == 1 || d == 2 || d == 3 || d == 4 || d == 5 || d == 6 || d == 7
           || d == 8 || d == 9 || d == 10 || d == 11 || d == 12 || d == 13 || d == 14 || d == 15;
  }

  lemma DigitsOfUnit(n: nat)
    requires n < 0x10000
    ensures n == n / 4096 * 4096 + n / 256 % 16 * 256 + n / 16 % 16 * 16 + n % 16
    ensures n / 4096 < 16
  {
  }

  lemma UnitOfDigits(a: nat, b: nat, c: nat, d: nat)
    requires a < 16 && b < 16 && c < 16 && d < 16
    ensures var n := a * 4096 + b * 256 + c * 16 + d;
            n < 0x10000 && n / 4096 == a && n / 256 % 16 == b && n / 16 % 16 == c && n % 16 == d
  {
    var high, top := a * 256 + b * 16 + c, a * 16 + b;
    LastDigit(high, d);
    LastDigit(top, c);
    LastDigit(a, b);
    var n := high * 16 + d;
    assert n / 256 == n / 16 / 16 && n / 4096 == n / 256 / 16;
  }

  lemma LastDigit(m: nat, d: nat)
    requires d < 16
    ensures (m * 16 + d) / 16 == m && (m * 16 + d) % 16 == d
  {
  }

  lemma UnitReads(hex: string, n: nat, rest: string)
    requires SpellsUnit(hex, n)
    ensures CodeUnit("\\u" + hex + rest) == Some(n)
  {
    var s := "\\u" + hex + rest;
    assert s[0] == '\\' && s[1] == 'u' && s[2] == hex[0] && s[3] == hex[1] && s[4] == hex[2] && s[5] == hex[3];
    DigitReads(hex[0], n / 4096);
    DigitReads(hex[1], n / 256 % 16);
    DigitReads(hex[2], n / 16 % 16);
    DigitReads(hex[3], n % 16);
    DigitsOfUnit(n);
  }

  lemma UnitDigits(s: string) returns (a: nat, b: nat, c: nat, d: nat)
    requires CodeUnit(s).Some?
    ensures IsDigitOf(s[2], a) && IsDigitOf(s[3], b) && IsDigitOf(s[4], c) && IsDigitOf(s[5], d)
    ensures CodeUnit(s).value == a * 4096 + b * 256 + c * 16 + d && s[0] == '\\' && s[1] == 'u'
  {
    DigitIsSpelled(s[2]);
    DigitIsSpelled(s[3]);
    DigitIsSpelled(s[4]);
    DigitIsSpelled(s[5]);
    a, b, c, d := HexValue(s[2]), HexValue(s[3]), HexValue(s[4]), HexValue(s[5]);
  }

  lemma UnitFromDigits(hex: string, n: nat, a: nat, b: nat, c: nat, d: nat)
    requires |hex| == 4 && n == a * 4096 + b * 256 + c * 16 + d
    requires IsDigitOf(hex[0], a) && IsDigitOf(hex[1], b) && IsDigitOf(hex[2], c) && IsDigitOf(hex[3], d)
    ensures SpellsUnit(hex, n)
  {
    UnitOfDigits(a, b, c, d);
  }

  lemma UnitText(s: string)
    requires |s| >= 6 && s[0] == '\\' && s[1] == 'u'
    ensures s[..6] == "\\u" + s[2..6]
  {
    assert s[..6] == s[..2] + s[2..6] && s[..2] == "\\u";
  }

  lemma UnitIsSpelled(s: string, n: nat)
    requires CodeUnit(s) == Some(n)
    ensures s[..6] == "\\u" + s[2..6] && SpellsUnit(s[2..6], n)
  {
    var a, b, c, d := UnitDigits(s);
    UnitText(s);
    UnitFromDigits(s[2..6], n, a, b, c, d);
  }

  lemma PairOfChar(k: nat)
    requires k < 0x100000
    ensures 0xD800 <= 0xD800 + k / 0x400 < 0xDC00 && 0xDC00 <= 0xDC00 + k % 0x400 < 0xE000
    ensures 0x10000 + (0xD800 + k / 0x400 - 0xD800) * 0x400 + (0xDC00 + k % 0x400 - 0xDC00) == 0x10000 + k
  {
  }

  lemma PairEscape(s: string, hi: nat, lo: nat, c: char)
    requires CodeUnit(s) == Some(hi) && CodeUnit(s[6..]) == Some(lo)
    requires 0xD800 <= hi < 0xDC00 && 0xDC00 <= lo < 0xE000
    requires c as int == 0x10000 + (hi - 0xD800) * 0x400 + (lo - 0xDC00)
    ensures UnicodeEscape(s) == Some(Scanned(c, 12))
  {
  }

  lemma PairReads(high: string, hi: nat, low: string, lo: nat, c: char, rest: string)
    requires SpellsUnit(high, hi) && SpellsUnit(low, lo)
    requires 0xD800 <= hi < 0xDC00 && 0xDC00 <= lo < 0xE000
    requires c as int == 0x10000 + (hi - 0xD800) * 0x400 + (lo - 0xDC00)
    ensures UnicodeEscape(("\\u" + high) + ("\\u" + low) + rest) == Some(Scanned(c, 12))
  {
    var more := ("\\u" + low) + rest;
    Joins("\\u" + high, "\\u" + low, rest);
    UnitReads(high, hi, more);
    UnitReads(low, lo, rest);
    AfterUnit(high, more);
    PairEscape(("\\u" + high) + more, hi, lo, c);
  }

  lemma AfterUnit(hex: string, more: string)
    requires |hex| == 4
    ensures ("\\u" + hex + more)[6..] == more
  {
  }

  lemma EscapeOfBody(s: string)
    requires |s| >= 2 && s[0] == '\\' && s[1] == 'u'
    ensures BodyChar(s) == UnicodeEscape(s)
  {
  }

  lemma ShortReads(letter: char, c: char, rest: string)
    requires IsShort(letter, c)
    ensures BodyChar(['\\', letter] + rest) == Some(Scanned(c, 2))
  {
    var s := ['\\', letter] + rest;
    assert s[0] == '\\' && s[1] == letter;
  }

  lemma UnitCharReads(hex: string, c: char, rest: string)
    requires SpellsUnit(hex, c as int)
    ensures BodyChar("\\u" + hex + rest) == Some(Scanned(c, 6))
  {
    var s := "\\u" + hex + rest;
    assert s[0] == '\\' && s[1] == 'u';
    UnitReads(hex, c as int, rest);
    EscapeOfBody(s);
  }

  lemma PairStart(high: string, low: string, rest: string)
    requires |high| == 4 && |low| == 4
    ensures var w := ("\\u" + high) + ("\\u" + low);
            |w| == 12 && (w + rest)[0] == '\\' && (w + rest)[1] == 'u'
  {
  }

  lemma PairParts(high: string, low: string, c: char) returns (hi: nat, lo: nat)
    requires Spells(Pair(high, low), c)
    ensures SpellsUnit(high, hi) && SpellsUnit(low, lo)
    ensures 0xD800 <= hi < 0xDC00 && 0xDC00 <= lo < 0xE000
    ensures c as int == 0x10000 + (hi - 0xD800) * 0x400 + (lo - 0xDC00)
  {
    var k := c as int - 0x10000;
    PairOfChar(k);
    hi, lo := 0xD800 + k / 0x400, 0xDC00 + k % 0x400;
  }

  lemma PairCharReads(high: string, low: string, c: char, rest: string)
    requires Spells(Pair(high, low), c)
    ensures BodyChar(("\\u" + high) + ("\\u" + low) + rest) == Some(Scanned(c, 12))
  {
    var hi, lo := PairParts(high, low, c);
    PairReads(high, hi, low, lo, c, rest);
    PairStart(high, low, rest);
    EscapeOfBody(("\\u" + high) + ("\\u" + low) + rest);
  }

  /** Every spelling of a character is read as that character. */
  lemma SpelledCharReads(how: Spelling, c: char, rest: string)
    requires Spells(how, c) && !how.Lone?
    ensures var w := Written(how, c);
            w != "" && w[0] != '"' && BodyChar(w + rest) == Some(Scanned(c, |w|))
  {
    match how {
      case Plain => assert ([c] + rest)[0] == c;
      case Short(letter) => ShortReads(letter, c, rest);
      case Unit(hex) => UnitCharReads(hex, c, rest);
      case Pair(high, low) => PairCharReads(high, low, c, rest);
    }
  }

  /** What is read as a character was one of its spellings. */
  lemma ReadCharIsSpelled(s: string, c: Scanned) returns (how: Spelling)
    requires BodyChar(s) == Some(c)
    ensures Spells(how, c.c) && s[..c.length] == Written(how, c.c)
  {
    if s[0] != '\\' { how := Plain; }
    else if s[1] != 'u' { how := Short(s[1]); assert s[..2] == ['\\', s[1]]; }
    else { how := ReadEscapeIsSpelled(s, c); }
  }

  lemma ReadEscapeIsSpelled(s: string, c: Scanned) returns (how: Spelling)
    requires UnicodeEscape(s) == Some(c)
    ensures Spells(how, c.c) && s[..c.length] == Written(how, c.c)
  {
    var hi, lo := CodeUnit(s).value, CodeUnit(s[6..]);
    UnitIsSpelled(s, hi);
    if !(0xD800 <= hi < 0xE000) { how := Unit(s[2..6]); }
    else if hi < 0xDC00 && lo.Some? && 0xDC00 <= lo.value < 0xE000 { how := ReadPairIsSpelled(s, hi, lo.value, c); }
    else { how := Lone(s[2..6]); }
  }

  lemma ReadPairIsSpelled(s: string, hi: nat, lo: nat, c: Scanned) returns (how: Spelling)
    requires CodeUnit(s) == Some(hi) && CodeUnit(s[6..]) == Some(lo) && UnicodeEscape(s) == Some(c)
    requires 0xD800 <= hi < 0xDC00 && 0xDC00 <= lo < 0xE000
    ensures Spells(how, c.c) && c.length == 12 && s[..12] == Written(how, c.c)
  {
    UnitIsSpelled(s, hi);
    UnitIsSpelled(s[6..], lo);
    CharOfPair(hi, lo);
    how := Pair(s[2..6], s[6..][2..6]);
    PairEscape(s, hi, lo, (0x10000 + (hi - 0xD800) * 0x400 + (lo - 0xDC00)) as char);
    TwoUnits(s);
  }

  lemma TwoUnits(s: string)
    requires |s| >= 12
    ensures s[..12] == s[..6] + s[6..][..6]
  {
  }

  lemma CharOfPair(hi: nat, lo: nat)
    requires 0xD800 <= hi < 0xDC00 && 0xDC00 <= lo < 0xE000
    ensures var k := (hi - 0xD800) * 0x400 + (lo - 0xDC00);
            k < 0x100000 && hi == 0xD800 + k / 0x400 && lo == 0xDC00 + k % 0x400
  {
  }

  // String bodies.

  function WrittenThen(s: string, hows: seq<Spelling>, rest: string): string
    requires |s| == |hows|
  {
    if s == "" then rest else Written(hows[0], s[0]) + WrittenThen(s[1..], hows[1..], rest)
  }

  /** One spelling for each character. */
  ghost predicate AllSpell(hows: seq<Spelling>, s: string)
    ensures AllSpell(hows, s) ==> |hows| == |s|
  {
    if s == "" then hows == [] else hows != [] && Spells(hows[0], s[0]) && AllSpell(hows[1..], s[1..])
  }

  predicate NoLone(hows: seq<Spelling>) {
    forall i | 0 <= i < |hows| :: !hows[i].Lone?
  }

  lemma SpellTail(hows: seq<Spelling>, s: string)
    requires AllSpell(hows, s) && s != ""
    ensures AllSpell(hows[1..], s[1..]) && Spells(hows[0], s[0]) && s == [s[0]] + s[1..]
    ensures NoLone(hows) ==> NoLone(hows[1..]) && !hows[0].Lone?
  {
  }

  lemma WrittenCharReads(how: Spelling, c: char, more: string, s: string, n: nat, rest: string)
    requires Spells(how, c) && !how.Lone? && BodyReadsAs(more, s, n, rest)
    ensures BodyReadsAs(Written(how, c) + more, [c] + s, |Written(how, c)| + n, rest)
  {
    var w := Written(how, c);
    assert w != "" && w[0] != '"' && BodyChar(w + more) == Some(Scanned(c, |w|)) by { SpelledCharReads(how, c, more); }
    BodyStep(w, c, more, s, n, rest);
  }

  lemma QuoteReads(rest: string)
    ensures BodyReadsAs("\"" + rest, "", 1, rest)
  {
    assert ("\"" + rest)[1..] == rest;
  }

  /** A relation that holds of the closing quote and is kept by every spelled character holds of the whole. */
  lemma {:induction false} WrittenInduction(holds: (string, string) -> bool,
      s: string, hows: seq<Spelling>, rest: string)
    requires AllSpell(hows, s) && NoLone(hows) && holds(rest, "")
    requires forall how, c, more, t | Spells(how, c) && !how.Lone? && holds(more, t) ::
               holds(Written(how, c) + more, [c] + t)
    ensures holds(WrittenThen(s, hows, rest), s)
  {
    if s != "" {
      SpellTail(hows, s);
      WrittenInduction(holds, s[1..], hows[1..], rest);
    }
  }

  lemma WrittenBodyReads(s: string, hows: seq<Spelling>, rest: string) returns (n: nat)
    requires AllSpell(hows, s) && NoLone(hows)
    ensures BodyReadsAs(WrittenThen(s, hows, "\"" + rest), s, n, rest)
  {
    var holds := (text, t) => exists n: nat :: BodyReadsAs(text, t, n, rest);
    QuoteReads(rest);
    forall how, c, more, t | Spells(how, c) && !how.Lone? && holds(more, t)
      ensures holds(Written(how, c) + more, [c] + t)
    {
      var m: nat :| BodyReadsAs(more, t, m, rest);
      WrittenCharReads(how, c, more, t, m, rest);
    }
    WrittenInduction(holds, s, hows, "\"" + rest);
    n :| BodyReadsAs(WrittenThen(s, hows, "\"" + rest), s, n, rest);
  }

  lemma WrittenCons(how: Spelling, c: char, s: string, hows: seq<Spelling>, rest: string)
    requires |s| == |hows|
    ensures WrittenThen([c] + s, [how] + hows, rest) == Written(how, c) + WrittenThen(s, hows, rest)
    ensures Spells(how, c) && AllSpell(hows, s) ==> AllSpell([how] + hows, [c] + s)
  {
    assert ([c] + s)[1..] == s && ([how] + hows)[1..] == hows;
  }

  lemma DropTwice(text: string, m: nat, n: nat)
    requires m <= |text| && n <= |text| - m
    ensures text[m..][n..] == text[m + n..] && text == text[..m] + text[m..]
  {
  }

  /** `text` is a spelling of `s`, a quote, and what follows the `n` characters of both. */
  ghost predicate SpelledBody(text: string, s: string, n: nat, hows: seq<Spelling>) {
    AllSpell(hows, s) && n <= |text| && text == WrittenThen(s, hows, "\"" + text[n..])
  }

  lemma SpelledBodyStep(text: string, c: char, m: nat, how: Spelling, s: string, n: nat, hows: seq<Spelling>)
    requires m <= |text| && Spells(how, c) && text[..m] == Written(how, c)
    requires SpelledBody(text[m..], s, n, hows)
    ensures SpelledBody(text, [c] + s, m + n, [how] + hows)
  {
    DropTwice(text, m, n);
    WrittenCons(how, c, s, hows, "\"" + text[m..][n..]);
  }

  lemma ClosingQuote(text: string)
    requires text != "" && text[0] == '"'
    ensures LexBody(text) == Some(Body("", 1)) && SpelledBody(text, "", 1, [])
  {
    assert text == "\"" + text[1..];
  }

  lemma LexBodyStep(text: string, body: Body) returns (c: Scanned, b: Body)
    requires LexBody(text) == Some(body) && text != "" && text[0] != '"'
    ensures BodyChar(text) == Some(c) && 0 < c.length <= |text| && LexBody(text[c.length..]) == Some(b)
    ensures body.text == [c.c] + b.text && body.length == c.length + b.length
  {
    c := BodyChar(text).value;
    b := LexBody(text[c.length..]).value;
  }

  lemma LexBodyEnds(text: string, body: Body)
    requires LexBody(text) == Some(body)
    ensures text != "" && (text[0] == '"' ==> SpelledBody(text, body.text, body.length, []))
  {
    if text[0] == '"' { ClosingQuote(text); }
  }

  /** What is read as a string body was a spelling of it, closed by a quote. */
  lemma {:induction false} ReadBodyIsSpelled(text: string, body: Body) returns (hows: seq<Spelling>)
    requires LexBody(text) == Some(body)
    ensures SpelledBody(text, body.text, body.length, hows)
    decreases |text|
  {
    LexBodyEnds(text, body);
    hows := [];
    if text[0] != '"' {
      var c, b := LexBodyStep(text, body);
      var how := ReadCharIsSpelled(text, c);
      var more := ReadBodyIsSpelled(text[c.length..], b);
      SpelledBodyStep(text, c.c, c.length, how, b.text, b.length, more);
      hows := [how] + more;
    }
  }

  // Tokens and texts.

  /** A token with the given spelling of its characters, if it is a string. */
  function WriteThen(t: Token, hows: seq<Spelling>, rest: string): string
    requires t.TString? ==> |hows| == |t.s|
  {
    if t.TString? then "\"" + WrittenThen(t.s, hows, "\"" + rest) else SpellThen(t, false, rest)
  }

  ghost predicate WellWritten(t: Token, hows: seq<Spelling>) {
    t.TString? ==> AllSpell(hows, t.s) && NoLone(hows)
  }

  /** A text of the tokens `ts`: strings spelled as `hows` says, blanks as `gaps` says. */
  ghost predicate WrittenAs(ts: seq<Token>, hows: seq<seq<Spelling>>, gaps: seq<string>) {
    && |hows| == |ts| && |gaps| == |ts| + 1
    && (forall i | 0 <= i < |ts| :: WellWritten(ts[i], hows[i]))
    && forall i | 0 <= i < |gaps| :: Blank(gaps[i])
  }

  ghost function Write(ts: seq<Token>, hows: seq<seq<Spelling>>, gaps: seq<string>): string
    requires WrittenAs(ts, hows, gaps)
  {
    if ts == [] then gaps[0] else gaps[0] + WriteThen(ts[0], hows[0], Write(ts[1..], hows[1..], gaps[1..]))
  }

  lemma WrittenTokenReads(t: Token, hows: seq<Spelling>, rest: string)
    requires WellWritten(t, hows) && ValidToken(t) && (t.TNumber? ==> EndsNumber(rest))
    ensures ReadsAs(WriteThen(t, hows, rest), t, rest)
  {
    if t.TString? {
      var n := WrittenBodyReads(t.s, hows, rest);
      QuotedReads(WrittenThen(t.s, hows, "\"" + rest), t.s, n, rest);
    } else {
      TokenReadsBack(t, false, rest);
    }
  }

  lemma StartsNoNumber(t: Token, hows: seq<Spelling>, rest: string)
    requires WellWritten(t, hows) && !t.TNumber?
    ensures WriteThen(t, hows, rest) != "" && !IsNumberChar(WriteThen(t, hows, rest)[0])
  {
  }

  lemma WrittenEndsNumber(ts: seq<Token>, hows: seq<seq<Spelling>>, gaps: seq<string>)
    requires WrittenAs(ts, hows, gaps) && (ts != [] ==> !ts[0].TNumber?)
    ensures EndsNumber(Write(ts, hows, gaps))
  {
    if gaps[0] != "" { assert Write(ts, hows, gaps)[0] == gaps[0][0]; }
    else if ts != [] {
      var rest := Write(ts[1..], hows[1..], gaps[1..]);
      StartsNoNumber(ts[0], hows[0], rest);
      assert "" + WriteThen(ts[0], hows[0], rest) == WriteThen(ts[0], hows[0], rest);
    }
  }

  lemma {:induction false} WrittenLexes(ts: seq<Token>, hows: seq<seq<Spelling>>, gaps: seq<string>)
    requires WrittenAs(ts, hows, gaps) && Spellable(ts)
    ensures Lex(Write(ts, hows, gaps)) == Some(ts)
  {
    if ts == [] {
      LexSkips(gaps[0], "");
      assert gaps[0] + "" == gaps[0];
    } else {
      var rest := Write(ts[1..], hows[1..], gaps[1..]);
      WrittenLexes(ts[1..], hows[1..], gaps[1..]);
      if ts[0].TNumber? { WrittenEndsNumber(ts[1..], hows[1..], gaps[1..]); }
      WrittenTokenReads(ts[0], hows[0], rest);
      LexSkips(gaps[0], WriteThen(ts[0], hows[0], rest));
      assert ts == [ts[0]] + ts[1..];
    }
  }

  /** Every text of a value parses to it: each character of each string spelled in any of the ways that
      section 7 allows, and any blanks between the tokens. */
  lemma EverySpellingParses(v: Json, hows: seq<seq<Spelling>>, gaps: seq<string>)
    requires NumbersValid(v) && WrittenAs(Tokens(v), hows, gaps)
    ensures Parse(Write(Tokens(v), hows, gaps)) == Some(v)
  {
    TokensSpellable(v, []);
    WrittenLexes(Tokens(v), hows, gaps);
    ParseTokens(v, []);
  }

  // Numbers.

  datatype Exponent = Exponent(letter: char, sign: string, digits: string)

  datatype Numeral = Numeral(minus: bool, whole: string, fraction: Option<string>, exponent: Option<Exponent>)

  predicate AllDigits(s: string) {
    s != "" && forall i | 0 <= i < |s| :: '0' <= s[i] <= '9'
  }

  /** number = [ minus ] int [ frac ] [ exp ], with no leading zero in int. */
  predicate IsNumeral(n: Numeral) {
    && AllDigits(n.whole) && (|n.whole| > 1 ==> n.whole[0] != '0')
    && (n.fraction.Some? ==> AllDigits(n.fraction.value))
    && (n.exponent.Some? ==>
          var e := n.exponent.value;
          (e.letter == 'e' || e.letter == 'E') && (e.sign == "" || e.sign == "+" || e.sign == "-")
            && AllDigits(e.digits))
  }

  function ExponentText(e: Option<Exponent>): string {
    if e.None? then "" else [e.value.letter] + (e.value.sign + e.value.digits)
  }

  function FractionText(f: Option<string>, e: Option<Exponent>): string {
    if f.None? then ExponentText(e) else "." + (f.value + ExponentText(e))
  }

  function NumeralText(n: Numeral): string {
    (if n.minus then "-" else "") + (n.whole + FractionText(n.fraction, n.exponent))
  }

  lemma {:induction false} SpanAll(s: string, p: char -> bool)
    requires forall i | 0 <= i < |s| :: p(s[i])
    ensures Span(s, p) == |s|
  {
    if s != "" { SpanAll(s[1..], p); }
  }

  lemma DigitsSpan(digits: string, rest: string)
    requires AllDigits(digits) && (rest == "" || !IsDigit(rest[0]))
    ensures Span(digits + rest, IsDigit) == |digits| && (digits + rest)[|digits|..] == rest
  {
    SpanAll(digits, IsDigit);
    SpanAppend(digits, rest, IsDigit);
  }

  lemma ExponentReads(e: Option<Exponent>)
    requires IsNumeral(Numeral(false, "0", None, e))
    ensures IsExponent(ExponentText(e)) && (ExponentText(e) == "" || !IsDigit(ExponentText(e)[0]))
    ensures ExponentText(e) == "" || ExponentText(e)[0] != '.'
  {
    if e.Some? {
      var s, tail := ExponentText(e), e.value.sign + e.value.digits;
      SpanAll(e.value.digits, IsDigit);
      assert s[0] == e.value.letter && s[1..] == tail;
      if e.value.sign == "" { assert tail == e.value.digits && s[1] == e.value.digits[0]; }
      else { assert s[1] == e.value.sign[0] && s[2..] == e.value.digits; }
    }
  }

  lemma FractionReads(f: Option<string>, e: Option<Exponent>)
    requires IsNumeral(Numeral(false, "0", f, e))
    ensures IsFraction(FractionText(f, e)) && (FractionText(f, e) == "" || !IsDigit(FractionText(f, e)[0]))
  {
    ExponentReads(e);
    if f.Some? {
      var s := FractionText(f, e);
      assert s[0] == '.' && s[1..] == f.value + ExponentText(e);
      DigitsSpan(f.value, ExponentText(e));
      assert s[1 + |f.value|..] == s[1..][|f.value|..];
    }
  }

  /** Every numeral is read as a number. */
  lemma NumeralIsNumber(n: Numeral)
    requires IsNumeral(n)
    ensures IsNumber(NumeralText(n))
  {
    var s, tail := NumeralText(n), FractionText(n.fraction, n.exponent);
    FractionReads(n.fraction, n.exponent);
    DigitsSpan(n.whole, tail);
    var t := n.whole + tail;
    assert t[0] == n.whole[0];
    if n.minus { assert s[0] == '-' && s[1..] == t; } else { assert s == t && s[0] == n.whole[0]; }
    NumeralChars(n);
    SpanAll(s, IsNumberChar);
  }

  lemma NumeralChars(n: Numeral)
    requires IsNumeral(n)
    ensures forall i | 0 <= i < |NumeralText(n)| :: IsNumberChar(NumeralText(n)[i])
  {
    assert forall i | 0 <= i < |ExponentText(n.exponent)| :: IsNumberChar(ExponentText(n.exponent)[i]);
    assert forall i | 0 <= i < |FractionText(n.fraction, n.exponent)| ::
      IsNumberChar(FractionText(n.fraction, n.exponent)[i]);
  }

  lemma ExponentIsSpelled(s: string) returns (e: Option<Exponent>)
    requires IsExponent(s)
    ensures IsNumeral(Numeral(false, "0", None, e)) && s == ExponentText(e)
  {
    if s == "" { e := None; }
    else {
      var k := if |s| > 1 && (s[1] == '+' || s[1] == '-') then 2 else 1;
      e := Some(Exponent(s[0], s[1..k], s[k..]));
      if k == 2 { assert s[1..2] == [s[1]]; } else { assert s[1..1] == ""; }
      assert s == [s[0]] + (s[1..k] + s[k..]);
    }
  }

  lemma AfterFirst(s: string, n: nat)
    requires s != "" && n < |s|
    ensures s == [s[0]] + (s[1..][..n] + s[1 + n..])
  {
    assert s[1..][n..] == s[1 + n..];
    assert s[1..] == s[1..][..n] + s[1..][n..];
  }

  lemma FractionIsSpelled(s: string) returns (f: Option<string>, e: Option<Exponent>)
    requires IsFraction(s)
    ensures IsNumeral(Numeral(false, "0", f, e)) && s == FractionText(f, e)
  {
    if s != "" && s[0] == '.' {
      var n := Span(s[1..], IsDigit);
      f := Some(s[1..][..n]);
      e := ExponentIsSpelled(s[1 + n..]);
      AfterFirst(s, n);
    } else {
      f := None;
      e := ExponentIsSpelled(s);
    }
  }

  lemma UnsignedIsSpelled(t: string, k: nat) returns (n: Numeral)
    requires k == Span(t, IsDigit) > 0 && (k > 1 ==> t[0] != '0') && IsFraction(t[k..])
    ensures IsNumeral(n) && !n.minus && t == n.whole + FractionText(n.fraction, n.exponent)
  {
    var f, e := FractionIsSpelled(t[k..]);
    n := Numeral(false, t[..k], f, e);
    assert t == t[..k] + t[k..];
  }

  /** Whatever is read as a number is a numeral. */
  lemma NumberIsNumeral(s: string) returns (n: Numeral)
    requires IsNumber(s)
    ensures IsNumeral(n) && s == NumeralText(n)
  {
    if s != "" && s[0] == '-' {
      var m := UnsignedIsSpelled(s[1..], Span(s[1..], IsDigit));
      n := m.(minus := true);
      assert s == "-" + s[1..];
    } else {
      n := UnsignedIsSpelled(s, Span(s, IsDigit));
      assert s == "" + s;
    }
  }

  // The printer against plain concatenation.

  function Quoted(s: string, html: bool): string {
    if s == "" then "" else Escaped(s[0], html) + Quoted(s[1..], html)
  }

  function Rendered(v: Json, html: bool): string
    decreases v, 0
  {
    match v
    case Null => "null"
    case Bool(b) => if b then "true" else "false"
    case Number(token) => token
    case String(s) => "\"" + Quoted(s, html) + "\""
    case Array(items) => "[" + RenderedItems(items, html) + "]"
    case Object(members) => "{" + RenderedMembers(members, html) + "}"
  }

  function RenderedItems(items: seq<Json>, html: bool): string
    decreases items, 0
  {
    if items == [] then ""
    else if |items| == 1 then Rendered(items[0], html)
    else Rendered(items[0], html) + "," + RenderedItems(items[1..], html)
  }

  function RenderedMember(m: Member, html: bool): string
    decreases m, 1
  {
    ("\"" + Quoted(m.key, html) + "\"") + (":" + Rendered(m.value, html))
  }

  function RenderedMembers(members: seq<Member>, html: bool): string
    decreases members, 0
  {
    if members == [] then ""
    else if |members| == 1 then RenderedMember(members[0], html)
    else RenderedMember(members[0], html) + "," + RenderedMembers(members[1..], html)
  }

  /** Compact text of a token list. */
  function Compact(ts: seq<Token>, html: bool): string {
    if ts == [] then "" else SpellThen(ts[0], html, Compact(ts[1..], html))
  }

  lemma {:induction false} SpellIsCompact(ts: seq<Token>, html: bool)
    ensures Spell(ts, NoGaps(|ts|), html) == Compact(ts, html)
  {
    if ts != [] {
      SpellIsCompact(ts[1..], html);
      assert NoGaps(|ts|)[1..] == NoGaps(|ts| - 1);
    }
  }

  lemma {:induction false} EscapedThenIsQuoted(s: string, html: bool, rest: string)
    ensures EscapedThen(s, html, rest) == Quoted(s, html) + rest
  {
    if s == "" { assert "" + rest == rest; }
    else {
      EscapedThenIsQuoted(s[1..], html, rest);
      Joins(Escaped(s[0], html), Quoted(s[1..], html), rest);
    }
  }

  lemma Joins(a: string, b: string, c: string)
    ensures (a + b) + c == a + (b + c)
  {
  }

  lemma StringCompact(s: string, rest: seq<Token>, html: bool)
    ensures Compact([TString(s)] + rest, html) == "\"" + Quoted(s, html) + "\"" + Compact(rest, html)
  {
    assert ([TString(s)] + rest)[1..] == rest;
    EscapedThenIsQuoted(s, html, "\"" + Compact(rest, html));
    Joins(Quoted(s, html), "\"", Compact(rest, html));
    Joins("\"", Quoted(s, html), "\"" + Compact(rest, html));
    Joins("\"" + Quoted(s, html), "\"", Compact(rest, html));
  }

  lemma OneCompact(t: Token, text: string, rest: seq<Token>, html: bool)
    requires !t.TString? && SpellThen(t, html, Compact(rest, html)) == text + Compact(rest, html)
    ensures Compact([t] + rest, html) == text + Compact(rest, html)
  {
    assert ([t] + rest)[1..] == rest;
  }

  lemma {:induction false} ValueCompact(v: Json, rest: seq<Token>, html: bool)
    ensures Compact(TokensThen(v, rest), html) == Rendered(v, html) + Compact(rest, html)
    decreases v, 0
  {
    var tail := Compact(rest, html);
    match v {
      case Null => OneCompact(TNull, "null", rest, html);
      case Bool(b) => OneCompact(if b then TTrue else TFalse, if b then "true" else "false", rest, html);
      case Number(token) => OneCompact(TNumber(token), token, rest, html);
      case String(s) => StringCompact(s, rest, html);
      case Array(items) =>
        OneCompact(RBracket, "]", rest, html);
        ItemsCompact(items, [RBracket] + rest, html);
        OneCompact(LBracket, "[", ItemsThen(items, [RBracket] + rest), html);
        Joins("[", RenderedItems(items, html), "]" + tail);
        Joins("[" + RenderedItems(items, html), "]", tail);
      case Object(members) =>
        OneCompact(RBrace, "}", rest, html);
        MembersCompact(members, [RBrace] + rest, html);
        OneCompact(LBrace, "{", MembersThen(members, [RBrace] + rest), html);
        Joins("{", RenderedMembers(members, html), "}" + tail);
        Joins("{" + RenderedMembers(members, html), "}", tail);
    }
  }

  lemma {:induction false} ItemsCompact(items: seq<Json>, rest: seq<Token>, html: bool)
    ensures Compact(ItemsThen(items, rest), html) == RenderedItems(items, html) + Compact(rest, html)
    decreases items, 1
  {
    var tail := Compact(rest, html);
    if items == [] { assert "" + tail == tail; }
    else {
      var more := MoreItemsThen(items[1..], rest);
      ValueCompact(items[0], more, html);
      if |items| > 1 {
        assert more == [Comma] + ItemsThen(items[1..], rest);
        ItemsCompact(items[1..], rest, html);
        OneCompact(Comma, ",", ItemsThen(items[1..], rest), html);
        var first, others := Rendered(items[0], html), RenderedItems(items[1..], html);
        Joins(first, ",", others + tail);
        Joins(first + ",", others, tail);
      }
    }
  }

  lemma KeyCompact(key: string, value: seq<Token>, html: bool)
    ensures Compact([TString(key)] + ([Colon] + value), html) ==
            ("\"" + Quoted(key, html) + "\"") + (":" + Compact(value, html))
  {
    OneCompact(Colon, ":", value, html);
    StringCompact(key, [Colon] + value, html);
  }

  lemma JoinsTwice(a: string, b: string, c: string, d: string)
    ensures a + (b + (c + d)) == (a + (b + c)) + d
  {
  }

  lemma {:induction false} MemberCompact(m: Member, rest: seq<Token>, html: bool)
    ensures Compact(MemberThen(m, rest), html) == RenderedMember(m, html) + Compact(rest, html)
    decreases m, 1
  {
    ValueCompact(m.value, rest, html);
    KeyCompact(m.key, TokensThen(m.value, rest), html);
    JoinsTwice("\"" + Quoted(m.key, html) + "\"", ":", Rendered(m.value, html), Compact(rest, html));
  }

  lemma {:induction false} MembersCompact(members: seq<Member>, rest: seq<Token>, html: bool)
    ensures Compact(MembersThen(members, rest), html) == RenderedMembers(members, html) + Compact(rest, html)
    decreases members, 1
  {
    var tail := Compact(rest, html);
    if members == [] { assert "" + tail == tail; }
    else {
      var more := MoreMembersThen(members[1..], rest);
      MemberCompact(members[0], more, html);
      if |members| > 1 {
        assert more == [Comma] + MembersThen(members[1..], rest);
        MembersCompact(members[1..], rest, html);
        OneCompact(Comma, ",", MembersThen(members[1..], rest), html);
        var first, others := RenderedMember(members[0], html), RenderedMembers(members[1..], html);
        Joins(first, ",", others + tail);
        Joins(first + ",", others, tail);
      }
    }
  }

  /** The compact printer concatenates the texts of the parts: "[" and "]", "{" and "}", "," and ":". */
  lemma PrintIsRendered(v: Json, html: bool)
    ensures Print(v, html) == Rendered(v, html)
  {
    SpellIsCompact(Tokens(v), html);
    ValueCompact(v, [], html);
    assert Rendered(v, html) + "" == Rendered(v, html);
  }

  /** encoding/json's escapes, one by one. */
  lemma EscapesAre(c: char, html: bool)
    ensures c == '"' ==> Escaped(c, html) == "\\\""
    ensures c == '\\' ==> Escaped(c, html) == "\\\\"
    ensures c == '\n' ==> Escaped(c, html) == "\\n"
    ensures c == '\r' ==> Escaped(c, html) == "\\r"
    ensures c == '\t' ==> Escaped(c, html) == "\\t"
    ensures c == '\U{8}' ==> Escaped(c, html) == "\\b"
    ensures c == '\U{c}' ==> Escaped(c, html) == "\\f"
    ensures html && c == '<' ==> Escaped(c, html) == "\\u003c"
    ensures html && c == '>' ==> Escaped(c, html) == "\\u003e"
    ensures html && c == '&' ==> Escaped(c, html) == "\\u0026"
    ensures c == '\U{2028}' ==> Escaped(c, html) == "\\u2028"
    ensures c == '\U{2029}' ==> Escaped(c, html) == "\\u2029"
    ensures c >= ' ' && c !in {'"', '\\', '\U{2028}', '\U{2029}'} && !(html && c in {'<', '>', '&'}) ==>
              Escaped(c, html) == [c]
    ensures c < ' ' && c !in {'\n', '\r', '\t', '\U{8}', '\U{c}'} ==>
              |Escaped(c, html)| == 6 && Escaped(c, html)[..2] == "\\u" && SpellsUnit(Escaped(c, html)[2..], c as int)
  {
    if c < ' ' && c !in {'\n', '\r', '\t', '\U{8}', '\U{c}'} {
      var hex := Escaped(c, html)[2..];
      assert hex[0] == '0' && hex[1] == '0' && hex[2] == HexDigit(c as int / 16) && hex[3] == HexDigit(c as int % 16);
      DigitIsSpelled(hex[2]);
      DigitIsSpelled(hex[3]);
    }
  }

  lemma NoNullAfter(c: char)
    requires !IsBlank(c)
    ensures Parse([c] + "null") != Some(Null)
  {
    var text := [c] + "null";
    assert text[..4][1] == 'n' && "null"[1] == 'u';
    if Lex(text).Some? { assert Lex(text).value[0] == NextToken(text).value.token != TNull; }
  }

  /** The blanks that may stand around a value, and no others: section 2. */
  lemma BlanksAre(c: char)
    ensures IsBlank(c) <==> c as int in {0x20, 0x09, 0x0A, 0x0D}
    ensures Parse([c] + "null") == Some(Null) <==> IsBlank(c)
  {
    if IsBlank(c) {
      var gaps := [[c], ""];
      LayoutParsesBack(Null, gaps, false);
      assert gaps[1..] == [""] && Tokens(Null) == [TNull] && [TNull][1..] == [];
      assert Spell([], [""], false) == "";
      assert Spell([TNull], gaps, false) == [c] + "null";
    } else {
      NoNullAfter(c);
    }
  }

  // Canonical texts.

  /** What CanonicalizeJSON returns: the compact rendering, without HTML escaping, of the value with sorted
      objects and formatted numbers that is the same as the value of the text; an invalid text as it is. */
  lemma CanonicalTextIs(fl: Floats, raw: string)
    requires fl.Sound()
    ensures var c, v := CanonicalizeJSON(fl, raw), Parse(CanonicalizeJSON(fl, raw).text);
            if c.valid
            then Parse(raw).Some? && v.Some? && Canonical(fl, v.value) && Same(fl, v.value, Parse(raw).value)
                 && c.text == Rendered(v.value, false)
            else c.text == raw
  {
    if CanonicalizeJSON(fl, raw).valid {
      ParsedNumbersValid(raw);
      var w := Parse(raw).value;
      DecodedIsCanonical(fl, w);
      var d := Decoded(fl, w).value;
      CanonicalIsDecoded(fl, d);
      PrintParsesBack(d, false);
      PrintIsRendered(d, false);
      DecodedAlikeIffSame(fl, d, w);
    }
  }
}
