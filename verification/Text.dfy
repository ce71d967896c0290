/** NormalizeText (pkg/hasher/canonicalize.go). */
module Text {

  /** strings.ReplaceAll for a nonempty `from`: leftmost, non-overlapping occurrences. */
  function ReplaceAll(s: string, from: string, to: string): string
    requires from != ""
  {
    if |s| < |from| then s
    else if s[..|from|] == from then to + ReplaceAll(s[|from|..], from, to)
    else [s[0]] + ReplaceAll(s[1..], from, to)
  }

  /** unicode.IsSpace. */
  predicate IsSpace(c: char) {
    || '\t' <= c <= '\r' || c == ' ' || c == '\U{85}' || c == '\U{a0}' || c == '\U{1680}'
    || '\U{2000}' <= c <= '\U{200a}' || c == '\U{2028}' || c == '\U{2029}' || c == '\U{202f}'
    || c == '\U{205f}' || c == '\U{3000}'
  }

  function TrimLeft(s: string): string {
    if s != "" && IsSpace(s[0]) then TrimLeft(s[1..]) else s
  }

  function TrimRight(s: string): string {
    if s != "" && IsSpace(s[|s| - 1]) then TrimRight(s[..|s| - 1]) else s
  }

  /** strings.TrimSpace. */
  function TrimSpace(s: string): string {
    TrimRight(TrimLeft(s))
  }

  function NormalizeText(s: string): string {
    TrimSpace(ReplaceAll(ReplaceAll(s, "\r\n", "\n"), "\r", "\n"))
  }

  /** How many characters the scan below consumes at once. */
  function Consumed(s: string): (n: nat)
    requires s != ""
    ensures 1 <= n <= |s|
  {
    if |s| > 1 && s[0] == '\r' && s[1] == '\n' then 2 else 1
  }

  function Produced(c: char): char {
    if c == '\r' then '\n' else c
  }

  /** Reference: one scan that ends a line at CRLF, CR or LF. */
  function UnifyLineEnds(s: string): string {
    if s == "" then "" else [Produced(s[0])] + UnifyLineEnds(s[Consumed(s)..])
  }

  lemma {:induction false} TwoPassesAreOneScan(s: string)
    ensures ReplaceAll(ReplaceAll(s, "\r\n", "\n"), "\r", "\n") == UnifyLineEnds(s)
  {
    if s != "" {
      var n := Consumed(s);
      var head := if n == 2 then '\n' else s[0];
      TwoPassesAreOneScan(s[n..]);
      var once := ReplaceAll(s[n..], "\r\n", "\n");
      assert ReplaceAll(s, "\r\n", "\n") == [head] + once by {
        if n == 2 { assert s[..2] == "\r\n"; }
        else if |s| == 1 { assert s == [s[0]]; }
      }
      assert ([head] + once)[1..] == once && ([head] + once)[..1] == [head];
    }
  }

  lemma {:induction false} TrimOnlyCuts(s: string) returns (lo: nat, hi: nat)
    ensures lo <= hi <= |s| && TrimSpace(s) == s[lo..hi]
    ensures forall k | 0 <= k < |s| && !(lo <= k < hi) :: IsSpace(s[k])
    ensures lo < hi ==> !IsSpace(s[lo]) && !IsSpace(s[hi - 1])
  {
    var a := LeftCut(s);
    var left := s[a..];
    var b := RightCut(left);
    lo, hi := a, a + b;
    assert left[..b] == s[lo..hi];
    forall k | 0 <= k < |s| && !(lo <= k < hi) ensures IsSpace(s[k]) {
      if k >= hi { assert left[k - a] == s[k]; }
    }
  }

  lemma {:induction false} LeftCut(s: string) returns (n: nat)
    ensures n <= |s| && TrimLeft(s) == s[n..] && (forall k | 0 <= k < n :: IsSpace(s[k]))
            && (n < |s| ==> !IsSpace(s[n]))
  {
    if s != "" && IsSpace(s[0]) {
      var m := LeftCut(s[1..]);
      n := m + 1;
      assert s[1..][m..] == s[n..];
      forall k | 0 <= k < n ensures IsSpace(s[k]) { if k > 0 { assert s[1..][k - 1] == s[k]; } }
    } else { n := 0; }
  }

  lemma {:induction false} RightCut(s: string) returns (n: nat)
    ensures n <= |s| && TrimRight(s) == s[..n] && (forall k | n <= k < |s| :: IsSpace(s[k]))
            && (n > 0 ==> !IsSpace(s[n - 1]))
  {
    if s != "" && IsSpace(s[|s| - 1]) {
      n := RightCut(s[..|s| - 1]);
      assert s[..|s| - 1][..n] == s[..n];
    } else {
      n := |s|;
      assert s[..n] == s;
    }
  }

  lemma {:induction false} UnifyLeavesNoCR(s: string)
    ensures '\r' !in UnifyLineEnds(s)
  {
    if s != "" {
      UnifyLeavesNoCR(s[Consumed(s)..]);
    }
  }

  lemma {:induction false} UnifyWithoutCR(s: string)
    requires '\r' !in s
    ensures UnifyLineEnds(s) == s
  {
    if s != "" { UnifyWithoutCR(s[1..]); assert s == [s[0]] + s[1..]; }
  }

  lemma {:induction false} TrimTrimmed(s: string)
    requires s != "" ==> !IsSpace(s[0]) && !IsSpace(s[|s| - 1])
    ensures TrimSpace(s) == s
  {
  }

  lemma TrimSpaceIdempotent(s: string)
    ensures TrimSpace(TrimSpace(s)) == TrimSpace(s)
    ensures forall c | c in TrimSpace(s) :: c in s
  {
    var lo, hi := TrimOnlyCuts(s);
    TrimTrimmed(s[lo..hi]);
  }

  /** Normalizing is one scan over the line ends followed by trimming; its result has no CR and no outer
      whitespace, and normalizing it again changes nothing. */
  lemma NormalizeIsAnIdempotentScan(s: string)
    ensures NormalizeText(s) == TrimSpace(UnifyLineEnds(s))
    ensures '\r' !in NormalizeText(s)
    ensures NormalizeText(NormalizeText(s)) == NormalizeText(s)
  {
    TwoPassesAreOneScan(s);
    UnifyLeavesNoCR(s);
    TrimSpaceIdempotent(UnifyLineEnds(s));
    TwoPassesAreOneScan(NormalizeText(s));
    UnifyWithoutCR(NormalizeText(s));
  }

  /** The characters that are trimmed: those that Unicode calls white space. */
  lemma SpacesAre(c: char)
    ensures NormalizeText([c]) == "" <==>
              var n := c as int;
              || 9 <= n <= 13 || n == 32 || n == 0x85 || n == 0xA0 || n == 0x1680 || 0x2000 <= n <= 0x200A
              || n == 0x2028 || n == 0x2029 || n == 0x202F || n == 0x205F || n == 0x3000
  {
    TwoPassesAreOneScan([c]);
    assert [c][1..] == "";
    var unified := [Produced(c)];
    assert UnifyLineEnds([c]) == unified;
    var lo, hi := TrimOnlyCuts(unified);
    assert lo < hi <==> !IsSpace(unified[0]);
  }

  /** A text without CR and outer whitespace is left alone. */
  lemma TidyTextStays(s: string)
    requires '\r' !in s && (s != "" ==> !IsSpace(s[0]) && !IsSpace(s[|s| - 1]))
    ensures NormalizeText(s) == s
  {
    NormalizeIsAnIdempotentScan(s);
    UnifyWithoutCR(s);
    TrimTrimmed(s);
  }

  /** Lines joined by the given line ends, one fewer than there are lines. */
  function Spelled(lines: seq<string>, ends: seq<string>): string
    requires |lines| == |ends| + 1
  {
    if ends == [] then lines[0] else lines[0] + (ends[0] + Spelled(lines[1..], ends[1..]))
  }

  predicate IsLineEnd(e: string) {
    e == "\n" || e == "\r\n" || e == "\r"
  }

  /** No CR line end is followed by an empty line ended by LF, which would read as one CRLF. */
  predicate Unambiguous(lines: seq<string>, ends: seq<string>)
    requires |lines| == |ends| + 1
  {
    forall i | 0 <= i < |ends| - 1 :: !(ends[i] == "\r" && lines[i + 1] == "" && ends[i + 1] == "\n")
  }

  function Repeated(e: string, n: nat): seq<string> {
    seq(n, _ => e)
  }

  /** One step of the scan over a concatenation, where the step stays inside the first part. */
  lemma UnifyStep(s: string, rest: string)
    requires s != "" && Consumed(s + rest) == Consumed(s)
    ensures UnifyLineEnds(s + rest) == [Produced(s[0])] + UnifyLineEnds(s[Consumed(s)..] + rest)
  {
    assert (s + rest)[Consumed(s)..] == s[Consumed(s)..] + rest;
  }

  lemma {:induction false} UnifyPrefix(line: string, rest: string)
    requires '\r' !in line
    ensures UnifyLineEnds(line + rest) == line + UnifyLineEnds(rest)
  {
    if line == "" { assert line + rest == rest; }
    else {
      var unified := UnifyLineEnds(rest);
      UnifyPrefix(line[1..], rest);
      UnifyStep(line, rest);
      assert [line[0]] + (line[1..] + unified) == line + unified;
    }
  }

  predicate ArePlain(lines: seq<string>) {
    forall i | 0 <= i < |lines| :: '\r' !in lines[i] && '\n' !in lines[i]
  }

  predicate AreLineEnds(ends: seq<string>) {
    forall i | 0 <= i < |ends| :: IsLineEnd(ends[i])
  }

  predicate NoLineFeedAhead(rest: string) {
    rest == "" || rest[0] != '\n'
  }

  lemma UnifyLineEnd(e: string, rest: string)
    requires IsLineEnd(e) && (e == "\r" ==> NoLineFeedAhead(rest))
    ensures UnifyLineEnds(e + rest) == "\n" + UnifyLineEnds(rest)
  {
    if e == "\r\n" { assert (e + rest)[2..] == rest; }
    else { assert (e + rest)[1..] == rest; }
  }

  lemma SpelledStart(lines: seq<string>, ends: seq<string>)
    requires |lines| == |ends| + 1 && '\n' !in lines[0]
    requires ends != [] ==> IsLineEnd(ends[0]) && !(lines[0] == "" && ends[0] == "\n")
    ensures NoLineFeedAhead(Spelled(lines, ends))
  {
    if ends == [] {} else if lines[0] != "" { assert Spelled(lines, ends)[0] == lines[0][0]; }
    else { assert Spelled(lines, ends)[0] == ends[0][0]; }
  }

  /** What holds of a spelling holds after its first line. */
  lemma SpellingTail(lines: seq<string>, ends: seq<string>)
    requires |lines| == |ends| + 1 && ends != []
    requires ArePlain(lines) && AreLineEnds(ends) && Unambiguous(lines, ends)
    ensures ArePlain(lines[1..]) && AreLineEnds(ends[1..]) && Unambiguous(lines[1..], ends[1..])
    ensures ends[0] == "\r" ==> NoLineFeedAhead(Spelled(lines[1..], ends[1..]))
  {
    var ls, es := lines[1..], ends[1..];
    assert forall i | 0 <= i < |ls| :: ls[i] == lines[i + 1];
    assert forall i | 0 <= i < |es| :: es[i] == ends[i + 1];
    if ends[0] == "\r" {
      if es != [] { assert es[0] == ends[1] && ls[0] == lines[1]; }
      SpelledStart(ls, es);
    }
  }

  lemma {:induction false} UnifySpelled(lines: seq<string>, ends: seq<string>)
    requires |lines| == |ends| + 1
    requires ArePlain(lines) && AreLineEnds(ends) && Unambiguous(lines, ends)
    ensures UnifyLineEnds(Spelled(lines, ends)) == Spelled(lines, Repeated("\n", |ends|))
  {
    if ends == [] { UnifyWithoutCR(lines[0]); }
    else {
      var rest := Spelled(lines[1..], ends[1..]);
      SpellingTail(lines, ends);
      UnifySpelled(lines[1..], ends[1..]);
      UnifyPrefix(lines[0], ends[0] + rest);
      UnifyLineEnd(ends[0], rest);
      assert Repeated("\n", |ends|)[1..] == Repeated("\n", |ends| - 1);
    }
  }

  /** All spellings of a list of lines normalize alike, whichever line end each break uses. */
  lemma LineEndsDoNotMatter(lines: seq<string>, ends1: seq<string>, ends2: seq<string>)
    requires |lines| == |ends1| + 1 == |ends2| + 1
    requires ArePlain(lines) && AreLineEnds(ends1) && AreLineEnds(ends2)
    requires Unambiguous(lines, ends1) && Unambiguous(lines, ends2)
    ensures NormalizeText(Spelled(lines, ends1)) == NormalizeText(Spelled(lines, ends2))
  {
    UnifySpelled(lines, ends1);
    UnifySpelled(lines, ends2);
    TwoPassesAreOneScan(Spelled(lines, ends1));
    TwoPassesAreOneScan(Spelled(lines, ends2));
  }

  /** In particular the all-LF, all-CRLF and all-CR spellings agree for every list of lines. */
  lemma UniformLineEndsAgree(lines: seq<string>, e1: string, e2: string)
    requires lines != [] && IsLineEnd(e1) && IsLineEnd(e2) && ArePlain(lines)
    ensures NormalizeText(Spelled(lines, Repeated(e1, |lines| - 1))) ==
            NormalizeText(Spelled(lines, Repeated(e2, |lines| - 1)))
  {
    LineEndsDoNotMatter(lines, Repeated(e1, |lines| - 1), Repeated(e2, |lines| - 1));
  }

  ghost predicate AllSpace(s: string) {
    forall i | 0 <= i < |s| :: IsSpace(s[i])
  }

  lemma {:induction false} UnifyAfterSpace(left: string, s: string) returns (w: string)
    requires AllSpace(left)
    ensures AllSpace(w) && UnifyLineEnds(left + s) == w + UnifyLineEnds(s)
  {
    if left == "" { w := ""; assert left + s == s; }
    else if Consumed(left + s) == Consumed(left) {
      var n, unified := Consumed(left), UnifyLineEnds(s);
      var w' := UnifyAfterSpace(left[n..], s);
      w := [Produced(left[0])] + w';
      UnifyStep(left, s);
      assert [Produced(left[0])] + (w' + unified) == w + unified;
    } else {
      // The CR at the end of `left` and the LF at the start of `s` are one line end.
      assert left == "\r" && s[0] == '\n';
      assert (left + s)[2..] == s[1..];
      w := "";
      assert UnifyLineEnds(s) == "\n" + UnifyLineEnds(s[1..]);
    }
  }

  lemma {:induction false} UnifySpace(right: string)
    requires AllSpace(right)
    ensures AllSpace(UnifyLineEnds(right))
  {
    var w := UnifyAfterSpace(right, "");
    assert right + "" == right;
  }

  lemma {:induction false} UnifyBeforeSpace(s: string, right: string) returns (w: string)
    requires AllSpace(right)
    ensures AllSpace(w) && UnifyLineEnds(s + right) == UnifyLineEnds(s) + w
  {
    if s == "" { w := UnifyLineEnds(right); UnifySpace(right); assert s + right == right; }
    else if Consumed(s + right) == Consumed(s) {
      w := UnifyBeforeSpace(s[Consumed(s)..], right);
      UnifyStep(s, right);
      var head, unified := [Produced(s[0])], UnifyLineEnds(s[Consumed(s)..]);
      assert head + (unified + w) == head + unified + w;
    } else {
      assert s == "\r" && right[0] == '\n';
      w := UnifyLineEnds(right[1..]);
      UnifySpace(right[1..]);
      assert (s + right)[2..] == right[1..];
    }
  }

  /** Whitespace around a text never matters, line ends included. */
  lemma OuterSpaceDoesNotMatter(s: string, left: string, right: string)
    requires AllSpace(left) && AllSpace(right)
    ensures NormalizeText(left + s + right) == NormalizeText(s)
  {
    TwoPassesAreOneScan(left + (s + right));
    TwoPassesAreOneScan(s);
    var w1 := UnifyAfterSpace(left, s + right);
    var w2 := UnifyBeforeSpace(s, right);
    TrimLeftPrefix(w1, UnifyLineEnds(s) + w2);
    TrimBoth(UnifyLineEnds(s), w2);
    assert left + s + right == left + (s + right);
  }

  lemma {:induction false} TrimLeftPrefix(left: string, s: string)
    requires AllSpace(left)
    ensures TrimLeft(left + s) == TrimLeft(s)
  {
    if left == "" { assert left + s == s; }
    else { assert (left + s)[1..] == left[1..] + s; TrimLeftPrefix(left[1..], s); }
  }

  lemma {:induction false} TrimRightSuffix(s: string, right: string)
    requires AllSpace(right)
    ensures TrimRight(s + right) == TrimRight(s)
  {
    if right == "" { assert s + right == s; }
    else {
      assert (s + right)[..|s + right| - 1] == s + right[..|right| - 1];
      assert right[|right| - 1] in right;
      TrimRightSuffix(s, right[..|right| - 1]);
    }
  }

  lemma {:induction false} TrimBoth(s: string, right: string)
    requires AllSpace(right)
    ensures TrimSpace(s + right) == TrimSpace(s)
  {
    if s != "" && IsSpace(s[0]) {
      assert (s + right)[1..] == s[1..] + right;
      TrimBoth(s[1..], right);
    } else if s != "" {
      TrimRightSuffix(s, right);
    } else {
      assert s + right == right;
      TrimLeftPrefix(right, "");
      assert right + "" == right;
    }
  }

  // Lines of a text.

  /** strings.Split(s, "\n"). */
  function TextLines(s: string): (lines: seq<string>)
    ensures lines != []
  {
    if s == "" then [""]
    else
      var rest := TextLines(s[1..]);
      if s[0] == '\n' then [""] + rest else [[s[0]] + rest[0]] + rest[1..]
  }

  /** strings.Join(texts, "\n"). */
  function JoinLines(texts: seq<string>): string {
    if texts == [] then ""
    else if |texts| == 1 then texts[0]
    else JoinLines(texts[..|texts| - 1]) + "\n" + texts[|texts| - 1]
  }

  /** The lines of several texts under each other. */
  function LinesOfAll(texts: seq<string>): seq<string> {
    if texts == [] then [] else LinesOfAll(texts[..|texts| - 1]) + TextLines(texts[|texts| - 1])
  }

  lemma MoreLines(c: char, a: seq<string>, b: seq<string>)
    requires a != []
    ensures [""] + (a + b) == ([""] + a) + b
    ensures [[c] + (a + b)[0]] + (a + b)[1..] == ([[c] + a[0]] + a[1..]) + b
  {
    assert (a + b)[1..] == a[1..] + b;
  }

  lemma {:induction false} TextLinesAppend(a: string, b: string)
    ensures TextLines(a + "\n" + b) == TextLines(a) + TextLines(b)
  {
    if a == "" {
      assert a + "\n" + b == "\n" + b && ("\n" + b)[1..] == b;
    } else {
      var s, rest := a + "\n" + b, TextLines(a[1..]);
      TextLinesAppend(a[1..], b);
      assert s[0] == a[0] && s[1..] == a[1..] + "\n" + b;
      MoreLines(a[0], rest, TextLines(b));
    }
  }

  /** Joining texts and splitting the result gives the lines of all of them. */
  lemma {:induction false} LinesOfJoined(texts: seq<string>)
    ensures TextLines(JoinLines(texts)) == if texts == [] then [""] else LinesOfAll(texts)
  {
    if texts != [] {
      var n := |texts| - 1;
      LinesOfJoined(texts[..n]);
      if n > 0 { TextLinesAppend(JoinLines(texts[..n]), texts[n]); }
      else { assert LinesOfAll(texts[..0]) == []; }
    }
  }

  lemma {:induction false} TextLinesInjective(s: string, t: string)
    requires TextLines(s) == TextLines(t)
    ensures s == t
  {
    if s == "" || t == "" { EmptyTextLines(s); EmptyTextLines(t); }
    else {
      var a, b := TextLines(s[1..]), TextLines(t[1..]);
      HeadOfLines(s);
      HeadOfLines(t);
      if s[0] == '\n' { assert a == TextLines(s)[1..] && b == TextLines(t)[1..]; }
      else {
        assert a == [TextLines(s)[0][1..]] + TextLines(s)[1..] && b == [TextLines(t)[0][1..]] + TextLines(t)[1..];
      }
      TextLinesInjective(s[1..], t[1..]);
      assert s == [s[0]] + s[1..] && t == [t[0]] + t[1..];
    }
  }

  lemma EmptyTextLines(s: string)
    ensures TextLines(s) == [""] <==> s == ""
  {
  }

  lemma HeadOfLines(s: string)
    requires s != ""
    ensures s[0] == '\n' ==> TextLines(s)[0] == "" && |TextLines(s)| > 1
    ensures s[0] != '\n' ==> TextLines(s)[0] != "" && TextLines(s)[0][0] == s[0]
  {
  }

  /** Joined texts are equal exactly when they have the same lines, however these are split into texts. */
  lemma JoinedAlikeIff(a: seq<string>, b: seq<string>)
    ensures JoinLines(a) == JoinLines(b) <==>
            (if a == [] then [""] else LinesOfAll(a)) == (if b == [] then [""] else LinesOfAll(b))
  {
    LinesOfJoined(a);
    LinesOfJoined(b);
    if TextLines(JoinLines(a)) == TextLines(JoinLines(b)) { TextLinesInjective(JoinLines(a), JoinLines(b)); }
  }

  lemma {:induction false} SingleTextLine(s: string)
    requires '\n' !in s
    ensures TextLines(s) == [s]
  {
    if s != "" { SingleTextLine(s[1..]); assert s == [s[0]] + s[1..]; }
  }
}
