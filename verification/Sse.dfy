/** Cutting an event stream into chunks (pkg/streaming/recorder.go): a chunk ends at a blank line.

    Bytes are characters here. */
module Sse {
  /** How many bytes ReadBytes('\n') takes from the front of `s`. */
  function LineLength(s: string): (n: nat)
    ensures n <= |s| && (s != "" ==> n > 0)
  {
    if s == "" then 0 else if s[0] == '\n' then 1 else 1 + LineLength(s[1..])
  }

  /** The lines of `s` with their terminators; the last one may lack its own. */
  function Lines(s: string): (lines: seq<string>) {
    if s == "" then [] else [s[..LineLength(s)]] + Lines(s[LineLength(s)..])
  }

  function Concat(parts: seq<string>): string {
    if parts == [] then "" else parts[0] + Concat(parts[1..])
  }

  /** bytes.TrimRight(line, "\r\n") is empty. */
  predicate IsBlankLine(line: string) {
    forall i | 0 <= i < |line| :: line[i] == '\r' || line[i] == '\n'
  }

  /** Finished chunks and the event still being gathered. */
  datatype Cutting = Cutting(done: seq<string>, open: string)

  function Feed(c: Cutting, line: string): Cutting {
    if IsBlankLine(line) then Cutting(c.done + [c.open + line], "") else Cutting(c.done, c.open + line)
  }

  function CutFrom(c: Cutting, lines: seq<string>): Cutting {
    if lines == [] then c else Feed(CutFrom(c, lines[..|lines| - 1]), lines[|lines| - 1])
  }

  function Cut(lines: seq<string>): Cutting {
    CutFrom(Cutting([], ""), lines)
  }

  /** The chunks after the end of the stream: what is left open becomes the last one. */
  function Closed(c: Cutting): seq<string> {
    c.done + if c.open != "" then [c.open] else []
  }

  /** The chunks of a stream that was read to its end. */
  function Chunks(data: string): seq<string> {
    Closed(Cut(Lines(data)))
  }

  // Lines and concatenation.

  /** The line taken ends at the first LF, or at the end of the text if there is none. */
  lemma {:induction false} LineLengthFacts(s: string)
    ensures var n := LineLength(s);
            && (n < |s| || '\n' in s ==> n > 0 && s[n - 1] == '\n')
            && (forall i | 0 <= i < n - 1 :: s[i] != '\n')
  {
    if s != "" && s[0] != '\n' { LineLengthFacts(s[1..]); }
  }

  lemma {:induction false} ConcatAppend(a: seq<string>, b: seq<string>)
    ensures Concat(a + b) == Concat(a) + Concat(b)
  {
    if a == [] { assert a + b == b; }
    else {
      ConcatAppend(a[1..], b);
      assert (a + b)[0] == a[0] && (a + b)[1..] == a[1..] + b;
      Associates(a[0], Concat(a[1..]), Concat(b));
    }
  }

  lemma Associates<T>(a: seq<T>, b: seq<T>, c: seq<T>)
    ensures (a + b) + c == a + (b + c)
  {
  }

  lemma ConcatSnoc(a: seq<string>, last: string)
    ensures Concat(a + [last]) == Concat(a) + last
  {
    ConcatAppend(a, [last]);
    assert [last][1..] == [] && last + "" == last;
  }

  lemma {:induction false} LinesConcat(s: string)
    ensures Concat(Lines(s)) == s
  {
    if s != "" {
      LinesConcat(s[LineLength(s)..]);
      assert Lines(s)[1..] == Lines(s[LineLength(s)..]);
      assert s == s[..LineLength(s)] + s[LineLength(s)..];
    }
  }

  /** No LF except perhaps at the end. */
  predicate NoInnerLF(s: string) {
    forall i | 0 <= i < |s| - 1 :: s[i] != '\n'
  }

  predicate Terminated(s: string) {
    s != "" && s[|s| - 1] == '\n'
  }

  /** A terminated line, on its own. */
  predicate IsLine(line: string) {
    Terminated(line) && NoInnerLF(line)
  }

  lemma {:induction false} LineLengthOf(line: string, rest: string)
    requires IsLine(line)
    ensures LineLength(line + rest) == |line|
  {
    if |line| > 1 {
      LineLengthOf(line[1..], rest);
      assert (line + rest)[1..] == line[1..] + rest;
    }
  }

  lemma LinesCons(line: string, rest: string)
    requires IsLine(line)
    ensures Lines(line + rest) == [line] + Lines(rest)
  {
    LineLengthOf(line, rest);
    assert (line + rest)[..|line|] == line && (line + rest)[|line|..] == rest;
  }

  lemma LinesAppendStep(line: string, rest: string, b: string)
    requires IsLine(line) && Lines(rest + b) == Lines(rest) + Lines(b)
    ensures Lines((line + rest) + b) == Lines(line + rest) + Lines(b)
  {
    calc {
      Lines((line + rest) + b);
      { assert (line + rest) + b == line + (rest + b); }
      Lines(line + (rest + b));
      { LinesCons(line, rest + b); }
      [line] + (Lines(rest) + Lines(b));
      { Associates([line], Lines(rest), Lines(b)); }
      ([line] + Lines(rest)) + Lines(b);
      { LinesCons(line, rest); }
      Lines(line + rest) + Lines(b);
    }
  }

  /** The first line of a terminated text. */
  lemma FirstLine(a: string) returns (line: string, rest: string)
    requires Terminated(a)
    ensures a == line + rest && IsLine(line) && (rest == "" || Terminated(rest))
  {
    LineLengthFacts(a);
    line, rest := a[..LineLength(a)], a[LineLength(a)..];
  }

  lemma {:induction false} LinesAppend(a: string, b: string)
    requires a == "" || Terminated(a)
    ensures Lines(a + b) == Lines(a) + Lines(b)
    decreases |a|
  {
    if a == "" { assert a + b == b && [] + Lines(b) == Lines(b); }
    else {
      var line, rest := FirstLine(a);
      LinesAppend(rest, b);
      LinesAppendStep(line, rest, b);
    }
  }

  lemma {:induction false} CutAppend(c: Cutting, a: seq<string>, b: seq<string>)
    ensures CutFrom(c, a + b) == CutFrom(CutFrom(c, a), b)
  {
    if b == [] { assert a + b == a; }
    else {
      CutAppend(c, a, b[..|b| - 1]);
      assert (a + b)[..|a + b| - 1] == a + b[..|b| - 1];
    }
  }

  // Conservation.

  function Gathered(c: Cutting): string {
    Concat(c.done) + c.open
  }

  lemma FeedGathers(c: Cutting, line: string)
    ensures Gathered(Feed(c, line)) == Gathered(c) + line
  {
    ConcatSnoc(c.done, c.open + line);
    Associates(Concat(c.done), c.open, line);
    assert Concat(c.done) + (c.open + line) + "" == Concat(c.done) + (c.open + line);
  }

  /** Cutting loses and invents no byte. */
  lemma {:induction false} CutConserves(c: Cutting, lines: seq<string>)
    ensures Gathered(CutFrom(c, lines)) == Gathered(c) + Concat(lines)
  {
    if lines == [] { assert Gathered(c) + "" == Gathered(c); }
    else {
      var n := |lines| - 1;
      CutConserves(c, lines[..n]);
      FeedGathers(CutFrom(c, lines[..n]), lines[n]);
      assert lines == lines[..n] + [lines[n]];
      ConcatSnoc(lines[..n], lines[n]);
      Associates(Gathered(c), Concat(lines[..n]), lines[n]);
    }
  }

  lemma ClosedConserves(c: Cutting)
    ensures Concat(Closed(c)) == Concat(c.done) + c.open
  {
    if c.open != "" { ConcatSnoc(c.done, c.open); } else { assert c.done + [] == c.done; }
  }

  // Well-formed chunk lists and unique decomposition.

  /** Nonblank lines followed by one more line. */
  predicate IsChunk(s: string) {
    var lines := Lines(s);
    lines != [] && forall i | 0 <= i < |lines| - 1 :: !IsBlankLine(lines[i])
  }

  /** Nonblank lines followed by exactly one blank line. */
  predicate IsEvent(s: string) {
    IsChunk(s) && Terminated(s) && IsBlankLine(Lines(s)[|Lines(s)| - 1])
  }

  /** Complete events, of which only the last may be cut short. */
  predicate WellFormed(chunks: seq<string>) {
    forall i | 0 <= i < |chunks| :: IsChunk(chunks[i]) && (i < |chunks| - 1 ==> IsEvent(chunks[i]))
  }

  lemma {:induction false} CutNonblank(c: Cutting, lines: seq<string>)
    requires forall i | 0 <= i < |lines| :: !IsBlankLine(lines[i])
    ensures CutFrom(c, lines) == Cutting(c.done, c.open + Concat(lines))
  {
    if lines == [] { assert c.open + "" == c.open; }
    else {
      var n := |lines| - 1;
      CutNonblank(c, lines[..n]);
      assert lines == lines[..n] + [lines[n]];
      ConcatSnoc(lines[..n], lines[n]);
      assert c.open + Concat(lines[..n]) + lines[n] == c.open + Concat(lines);
    }
  }

  lemma CutLines(done: seq<string>, front: seq<string>, last: string)
    requires forall i | 0 <= i < |front| :: !IsBlankLine(front[i])
    ensures CutFrom(Cutting(done, ""), front + [last]) == Feed(Cutting(done, Concat(front)), last)
  {
    CutNonblank(Cutting(done, ""), front);
    assert (front + [last])[..|front|] == front;
    assert "" + Concat(front) == Concat(front);
  }

  lemma CutChunk(done: seq<string>, s: string)
    requires IsChunk(s)
    ensures CutFrom(Cutting(done, ""), Lines(s)) ==
            if IsBlankLine(Lines(s)[|Lines(s)| - 1]) then Cutting(done + [s], "") else Cutting(done, s)
  {
    var lines := Lines(s);
    var n := |lines| - 1;
    var front, last := lines[..n], lines[n];
    assert lines == front + [last];
    CutLines(done, front, last);
    assert Concat(front) + last == s by { LinesConcat(s); ConcatSnoc(front, last); }
  }

  /** Cutting a complete event closes it and starts afresh. */
  lemma CutEvent(done: seq<string>, s: string, rest: string)
    requires IsEvent(s)
    ensures CutFrom(Cutting(done, ""), Lines(s + rest)) == CutFrom(Cutting(done + [s], ""), Lines(rest))
  {
    LinesAppend(s, rest);
    CutAppend(Cutting(done, ""), Lines(s), Lines(rest));
    CutChunk(done, s);
  }

  lemma CutLast(done: seq<string>, s: string)
    requires IsChunk(s)
    ensures Closed(CutFrom(Cutting(done, ""), Lines(s))) == done + [s]
  {
    CutChunk(done, s);
    NonemptyChunk(s);
  }

  lemma {:induction false} CutWellFormed(done: seq<string>, chunks: seq<string>)
    requires WellFormed(chunks)
    ensures Closed(CutFrom(Cutting(done, ""), Lines(Concat(chunks)))) == done + chunks
    decreases |chunks|
  {
    if chunks == [] { assert done + [] == done; }
    else if |chunks| == 1 {
      assert Concat(chunks[1..]) == "" && chunks[0] + "" == chunks[0] && chunks == [chunks[0]];
      CutLast(done, chunks[0]);
    } else {
      CutEvent(done, chunks[0], Concat(chunks[1..]));
      TailWellFormed(chunks);
      CutWellFormed(done + [chunks[0]], chunks[1..]);
      Associates(done, [chunks[0]], chunks[1..]);
      assert [chunks[0]] + chunks[1..] == chunks;
    }
  }

  lemma TailWellFormed(chunks: seq<string>)
    requires WellFormed(chunks) && |chunks| > 1
    ensures WellFormed(chunks[1..]) && IsEvent(chunks[0])
  {
    forall i | 0 <= i < |chunks| - 1
      ensures IsChunk(chunks[1..][i]) && (i < |chunks| - 2 ==> IsEvent(chunks[1..][i]))
    {
      assert chunks[1..][i] == chunks[i + 1];
    }
  }

  lemma NonemptyChunk(s: string)
    requires IsChunk(s)
    ensures s != ""
  {
  }

  /** Splitting the concatenation of a well-formed chunk list gives that list back. */
  lemma DecompositionIsUnique(chunks: seq<string>)
    requires WellFormed(chunks)
    ensures Chunks(Concat(chunks)) == chunks
  {
    CutWellFormed([], chunks);
    assert [] + chunks == chunks;
  }

  /** Terminated nonblank lines: an unfinished event. */
  ghost predicate IsOpen(s: string) {
    s == "" || (Terminated(s) && forall i | 0 <= i < |Lines(s)| :: !IsBlankLine(Lines(s)[i]))
  }

  /** Where a cutting stands after some lines: complete events, then an unfinished one. */
  ghost predicate CutSound(c: Cutting) {
    (forall i | 0 <= i < |c.done| :: IsEvent(c.done[i])) && IsOpen(c.open)
  }

  lemma {:induction false} SingleLine(line: string)
    requires line != "" && NoInnerLF(line)
    ensures Lines(line) == [line]
  {
    LineLengthFacts(line);
    var n := LineLength(line);
    assert line[..n] == line && line[n..] == "";
  }

  /** A further line makes an unfinished event a chunk; a blank one completes it. */
  lemma OpenGrows(open: string, line: string)
    requires IsOpen(open) && line != "" && NoInnerLF(line)
    ensures IsChunk(open + line)
    ensures Terminated(line) ==> if IsBlankLine(line) then IsEvent(open + line) else IsOpen(open + line)
  {
    SingleLine(line);
    LinesAppend(open, line);
    var lines, n := Lines(open), |Lines(open)|;
    assert Lines(open + line) == lines + [line] && (lines + [line])[n] == line;
    assert forall i | 0 <= i < n :: (lines + [line])[i] == lines[i];
    if Terminated(line) { assert (open + line)[|open + line| - 1] == '\n'; }
  }

  lemma FeedKeepsSound(c: Cutting, line: string)
    requires CutSound(c) && line != "" && NoInnerLF(line)
    ensures Terminated(line) ==> CutSound(Feed(c, line))
    ensures WellFormed(Closed(Feed(c, line)))
  {
    OpenGrows(c.open, line);
  }

  lemma {:induction false} LinesShape(s: string, i: nat)
    requires i < |Lines(s)|
    ensures Lines(s)[i] != "" && NoInnerLF(Lines(s)[i])
    ensures i < |Lines(s)| - 1 ==> Terminated(Lines(s)[i])
  {
    var n := LineLength(s);
    LineLengthFacts(s);
    if i > 0 { LinesShape(s[n..], i - 1); }
    else if |Lines(s)| > 1 { assert s[n..] != ""; }
  }

  lemma {:induction false} CutIsSound(s: string, k: nat)
    requires k < |Lines(s)| || (k == |Lines(s)| && (s == "" || Terminated(s)))
    ensures CutSound(Cut(Lines(s)[..k]))
  {
    if k > 0 {
      CutIsSound(s, k - 1);
      LinesShape(s, k - 1);
      if k == |Lines(s)| { LastTerminated(s); }
      assert Lines(s)[..k][..k - 1] == Lines(s)[..k - 1];
      FeedKeepsSound(Cut(Lines(s)[..k - 1]), Lines(s)[k - 1]);
    }
  }

  lemma {:induction false} LastTerminated(s: string)
    requires s != ""
    ensures Lines(s) != [] && (Terminated(s) ==> Terminated(Lines(s)[|Lines(s)| - 1]))
  {
    var n := LineLength(s);
    if s[n..] == "" { assert s[..n] == s; }
    else { LastTerminated(s[n..]); }
  }

  /** Every stream is split into a well-formed chunk list that concatenates to it. */
  lemma ChunksAreWellFormed(data: string)
    ensures WellFormed(Chunks(data)) && Concat(Chunks(data)) == data
  {
    var lines := Lines(data);
    CutConserves(Cutting([], ""), lines);
    ClosedConserves(Cut(lines));
    LinesConcat(data);
    if data != "" {
      var n := |lines| - 1;
      CutIsSound(data, n);
      LinesShape(data, n);
      FeedKeepsSound(Cut(lines[..n]), lines[n]);
    }
  }

  // Agreement with the event stream interpretation of the WHATWG HTML Standard, section 9.2.6.

  /** Offsets just behind the blank lines at which an event is dispatched; lines end at CRLF, LF or CR.
      `blank` tells whether the current line is still empty. */
  function DispatchPoints(s: string, offset: nat, blank: bool): seq<nat> {
    if s == "" then []
    else
      var n := if s[0] == '\r' && |s| > 1 && s[1] == '\n' then 2 else 1;
      if s[0] == '\n' || s[0] == '\r'
      then (if blank then [offset + n] else []) + DispatchPoints(s[n..], offset + n, true)
      else DispatchPoints(s[1..], offset + 1, false)
  }

  /** Offsets just behind the finished chunks. */
  function ChunkEnds(done: seq<string>): seq<nat> {
    if done == [] then [] else ChunkEnds(done[..|done| - 1]) + [|Concat(done)|]
  }

  predicate CROnlyBeforeLF(s: string) {
    forall i | 0 <= i < |s| && s[i] == '\r' :: i + 1 < |s| && s[i + 1] == '\n'
  }

  /** Where the recorder ends chunks, as one scan: at an LF, and at the end of the stream, when the bytes
      since the last LF are all CRs. `atStart` tells that there are none yet. */
  function RecorderPoints(s: string, offset: nat, blank: bool, atStart: bool): seq<nat> {
    if s == "" then (if blank && !atStart then [offset] else [])
    else if s[0] == '\n' then (if blank then [offset + 1] else []) + RecorderPoints(s[1..], offset + 1, true, true)
    else RecorderPoints(s[1..], offset + 1, blank && s[0] == '\r', false)
  }

  lemma {:induction false} ScanLine(line: string, rest: string, offset: nat, blank: bool, atStart: bool)
    requires IsLine(line)
    ensures RecorderPoints(line + rest, offset, blank, atStart) ==
            (if blank && IsBlankLine(line) then [offset + |line|] else [])
              + RecorderPoints(rest, offset + |line|, true, true)
  {
    var s := line + rest;
    assert s[0] == line[0];
    if line[0] == '\n' {
      assert line == "\n" && s[1..] == rest;
    } else {
      assert s[1..] == line[1..] + rest;
      assert line == [line[0]] + line[1..];
      ScanLine(line[1..], rest, offset + 1, blank && line[0] == '\r', false);
    }
  }

  lemma {:induction false} ScanOpenLine(line: string, offset: nat, blank: bool, atStart: bool)
    requires '\n' !in line
    ensures RecorderPoints(line, offset, blank, atStart) ==
            if blank && IsBlankLine(line) && !(atStart && line == "") then [offset + |line|] else []
  {
    if line != "" {
      assert line == [line[0]] + line[1..];
      ScanOpenLine(line[1..], offset + 1, blank && line[0] == '\r', false);
    }
  }

  lemma ChunkEndsSnoc(done: seq<string>, s: string)
    ensures ChunkEnds(done + [s]) == ChunkEnds(done) + [|Concat(done)| + |s|]
  {
    var all := done + [s];
    DropLast(done, s);
    ConcatSnoc(done, s);
    assert ChunkEnds(all) == ChunkEnds(all[..|all| - 1]) + [|Concat(all)|];
  }

  lemma DropLast<T>(front: seq<T>, last: T)
    ensures (front + [last])[..|front + [last]| - 1] == front
  {
  }

  lemma FeedEnds(c: Cutting, line: string)
    ensures var c1 := Feed(c, line);
            && ChunkEnds(c1.done) == ChunkEnds(c.done)
               + (if IsBlankLine(line) then [|Concat(c.done)| + |c.open| + |line|] else [])
            && |Concat(c1.done)| + |c1.open| == |Concat(c.done)| + |c.open| + |line|
  {
    ConcatSnoc(c.done, c.open + line);
    ChunkEndsSnoc(c.done, c.open + line);
    assert ChunkEnds(c.done) + [] == ChunkEnds(c.done);
  }

  lemma CutFirstLine(c: Cutting, s: string)
    requires s != ""
    ensures CutFrom(c, Lines(s)) == CutFrom(Feed(c, s[..LineLength(s)]), Lines(s[LineLength(s)..]))
  {
    var line, rest := s[..LineLength(s)], s[LineLength(s)..];
    CutAppend(c, [line], Lines(rest));
    assert [line][..0] == [];
  }

  lemma ScanFirstLine(s: string, offset: nat)
    requires s != ""
    ensures var n := LineLength(s);
            RecorderPoints(s, offset, true, true) ==
            (if IsBlankLine(s[..n]) then [offset + n] else []) + RecorderPoints(s[n..], offset + n, true, true)
  {
    var n := LineLength(s);
    var line, rest := s[..n], s[n..];
    LineLengthFacts(s);
    LinesShape(s, 0);
    assert s == line + rest;
    if Terminated(line) { ScanLine(line, rest, offset, true, true); }
    else {
      assert rest == "" && line == s && '\n' !in s;
      ScanOpenLine(s, offset, true, true);
    }
  }

  lemma {:induction false} ChunkEndsAreRecorderPoints(c: Cutting, s: string, offset: nat)
    requires offset == |Concat(c.done)| + |c.open|
    ensures ChunkEnds(CutFrom(c, Lines(s)).done) == ChunkEnds(c.done) + RecorderPoints(s, offset, true, true)
    decreases |s|
  {
    if s == "" { assert ChunkEnds(c.done) + [] == ChunkEnds(c.done); }
    else {
      var n := LineLength(s);
      FeedEnds(c, s[..n]);
      ChunkEndsAreRecorderPoints(Feed(c, s[..n]), s[n..], offset + n);
      CutFirstLine(c, s);
      FirstLineEnds(ChunkEnds(c.done), s, offset);
    }
  }

  lemma FirstLineEnds(before: seq<nat>, s: string, offset: nat)
    requires s != ""
    ensures var n := LineLength(s);
            (before + if IsBlankLine(s[..n]) then [offset + n] else [])
              + RecorderPoints(s[n..], offset + n, true, true) ==
            before + RecorderPoints(s, offset, true, true)
  {
    var n := LineLength(s);
    ScanFirstLine(s, offset);
    Associates(before, if IsBlankLine(s[..n]) then [offset + n] else [],
      RecorderPoints(s[n..], offset + n, true, true));
  }

  /** Points lie behind what is still to be scanned, except the one at its very end. */
  lemma {:induction false} PointsAreLater(s: string, offset: nat, blank: bool, atStart: bool)
    ensures var points := RecorderPoints(s, offset, blank, atStart);
            points != [] ==> if s == "" then blank && !atStart else points[0] > offset
  {
    if s != "" {
      if s[0] != '\n' { PointsAreLater(s[1..], offset + 1, blank && s[0] == '\r', false); }
      else if !blank {
        PointsAreLater(s[1..], offset + 1, true, true);
        assert [] + RecorderPoints(s[1..], offset + 1, true, true) == RecorderPoints(s[1..], offset + 1, true, true);
      }
    }
  }

  predicate EndsNoLine(c: char) {
    c != '\r' && c != '\n'
  }

  /** If s[i] is a CR that neither ends the stream nor stands before an LF, then it ends a nonblank line and
      no other CR follows. `blank` tells whether the line before `s` is empty. */
  predicate HarmlessAt(s: string, i: nat, blank: bool)
    requires i < |s|
  {
    s[i] == '\r' && i + 1 < |s| && s[i + 1] != '\n' ==>
      (if i == 0 then !blank else EndsNoLine(s[i - 1])) && s[i + 1] != '\r'
  }

  predicate HarmlessAfter(s: string, blank: bool) {
    forall i | 0 <= i < |s| :: HarmlessAt(s, i, blank)
  }

  predicate HarmlessCRs(s: string) {
    HarmlessAfter(s, true)
  }

  /** Dropping `n` characters that hold no harmful CR and that the next character is not paired with. */
  lemma HarmlessDrop(s: string, n: nat, blank: bool, after: bool)
    requires 0 < n <= |s| && after == !EndsNoLine(s[n - 1]) && s[n - 1] != '\r'
    requires forall i | 0 <= i < n :: HarmlessAt(s, i, blank)
    ensures HarmlessAfter(s, blank) <==> HarmlessAfter(s[n..], after)
  {
    var t := s[n..];
    forall i: nat | i < |t| ensures HarmlessAt(t, i, after) <==> HarmlessAt(s, n + i, blank) {}
    if HarmlessAfter(t, after) {
      forall i | 0 <= i < |s| ensures HarmlessAt(s, i, blank) { if i >= n { assert HarmlessAt(t, i - n, after); } }
    }
    if HarmlessAfter(s, blank) {
      forall i | 0 <= i < |t| ensures HarmlessAt(t, i, after) { assert HarmlessAt(s, n + i, blank); }
    }
  }

  /** The two scans agree from a place where both see the same line exactly when the CRs ahead are harmless. */
  lemma {:induction false} ScansAgreeIff(s: string, offset: nat, blank: bool)
    ensures RecorderPoints(s, offset, blank, blank) == DispatchPoints(s, offset, blank) <==> HarmlessAfter(s, blank)
    decreases |s|
  {
    if s == "" {}
    else if s[0] == '\n' {
      HarmlessDrop(s, 1, blank, true);
      ScansAgreeIff(s[1..], offset + 1, true);
      PrefixedAlike(if blank then [offset + 1] else [], RecorderPoints(s[1..], offset + 1, true, true),
        DispatchPoints(s[1..], offset + 1, true));
    } else if s[0] != '\r' {
      HarmlessDrop(s, 1, blank, false);
      ScansAgreeIff(s[1..], offset + 1, false);
    } else if |s| > 1 && s[1] == '\n' {
      HarmlessDrop(s, 2, blank, true);
      ScansAgreeIff(s[2..], offset + 2, true);
      assert s[1..][0] == '\n' && s[1..][1..] == s[2..];
      PrefixedAlike(if blank then [offset + 2] else [], RecorderPoints(s[2..], offset + 2, true, true),
        DispatchPoints(s[2..], offset + 2, true));
    } else {
      LoneCRAgreesIff(s, offset, blank);
      if |s| > 1 && !blank && s[1] != '\r' {
        HarmlessDrop(s, 2, false, false);
        ScansAgreeIff(s[2..], offset + 2, false);
      }
    }
  }

  lemma PrefixedAlike(front: seq<nat>, a: seq<nat>, b: seq<nat>)
    ensures front + a == front + b <==> a == b
  {
    if front + a == front + b {
      assert a == (front + a)[|front|..] && b == (front + b)[|front|..];
    }
  }

  /** A CR without its LF: harmless at the end, and between two other characters. */
  lemma LoneCRAgreesIff(s: string, offset: nat, blank: bool)
    requires s != "" && s[0] == '\r' && (|s| > 1 ==> s[1] != '\n')
    ensures |s| == 1 ==>
              && RecorderPoints(s, offset, blank, blank) == DispatchPoints(s, offset, blank)
              && HarmlessAfter(s, blank)
    ensures |s| > 1 && (blank || s[1] == '\r') ==>
              RecorderPoints(s, offset, blank, blank) != DispatchPoints(s, offset, blank) && !HarmlessAfter(s, blank)
    ensures |s| > 1 && !blank && s[1] != '\r' ==>
              && RecorderPoints(s, offset, blank, blank) == RecorderPoints(s[2..], offset + 2, false, false)
              && DispatchPoints(s, offset, blank) == DispatchPoints(s[2..], offset + 2, false)
  {
    if |s| > 1 {
      assert HarmlessAt(s, 0, blank) <==> !blank && s[1] != '\r';
      assert s[1..][1..] == s[2..] && s[1..][0] == s[1];
      if blank {
        PointsAreLater(s[1..], offset + 1, blank, false);
        assert DispatchPoints(s, offset, blank)[0] == offset + 1;
      } else if s[1] == '\r' { SecondCRDiffers(s, offset); }
    } else {
      assert s[1..] == "" && [offset + 1] + DispatchPoints("", offset + 1, true) == [offset + 1];
    }
  }

  lemma SecondCRDiffers(s: string, offset: nat)
    requires |s| > 1 && s[0] == '\r' && s[1] == '\r'
    ensures RecorderPoints(s, offset, false, false) != DispatchPoints(s, offset, false)
  {
    var t := s[2..];
    assert s[1..][1..] == t && s[1..][0] == '\r';
    assert RecorderPoints(s, offset, false, false) == RecorderPoints(t, offset + 2, false, false);
    DispatchAfterEmptyLine(s[1..], offset + 1);
    if t != "" && t[0] == '\n' {
      PointsAreLater(t[1..], offset + 3, true, true);
      assert [] + RecorderPoints(t[1..], offset + 3, true, true) == RecorderPoints(t[1..], offset + 3, true, true);
    } else { PointsAreLater(t, offset + 2, false, false); }
  }

  lemma DispatchAfterEmptyLine(s: string, offset: nat)
    requires s != "" && s[0] == '\r'
    ensures var points := DispatchPoints(s, offset, true);
            points != [] && points[0] == offset + if |s| > 1 && s[1] == '\n' then 2 else 1
  {
  }

  /** The recorder ends a chunk exactly where a browser dispatches an event (a leading byte order mark
      aside, which the standard drops first) if and only if every CR without an LF either ends the stream
      or stands between two characters that are no line ends. */
  lemma ChunksEndAtDispatchesIff(data: string)
    ensures ChunkEnds(Cut(Lines(data)).done) == DispatchPoints(data, 0, true) <==> HarmlessCRs(data)
  {
    ChunkEndsAreRecorderPoints(Cutting([], ""), data, 0);
    assert [] + RecorderPoints(data, 0, true, true) == RecorderPoints(data, 0, true, true);
    ScansAgreeIff(data, 0, true);
  }

  /** In particular without lone CRs. */
  lemma ChunksEndAtDispatches(data: string)
    requires CROnlyBeforeLF(data)
    ensures ChunkEnds(Cut(Lines(data)).done) == DispatchPoints(data, 0, true)
  {
    ChunksEndAtDispatchesIff(data);
  }

  /** With a lone CR they differ: the standard sees two line ends where the recorder sees one line. */
  lemma LoneCRBreaksAgreement()
    ensures var data := "a\r\r\n"; ChunkEnds(Cut(Lines(data)).done) == [] && DispatchPoints(data, 0, true) == [4]
  {
    var data := "a\r\r\n";
    assert data[1..] == "\r\r\n" && "\r\r\n"[1..] == "\r\n" && "\r\n"[2..] == "";
    assert data[1..][0] == '\r' && data[1..][1] == '\r';
    assert DispatchPoints("\r\n", 2, true) == [4];
    assert DispatchPoints("\r\r\n", 1, false) == [4];
    SingleLine(data);
    assert Lines(data) == [data] && [data][..0] == [];
    assert !IsBlankLine(data) by { assert data[0] == 'a'; }
    assert CutFrom(Cutting([], ""), [data][..0]) == Cutting([], "");
    assert Cut([data]).done == [];
  }
}
