/** The stream recorder and replayer (pkg/streaming/recorder.go, pkg/streaming/replayer.go).

    The clock is a function from the number of a reading to its value in nanoseconds; reading k is taken
    when chunk k is recorded. The client connection accepts a limited number of further bytes, or any. */
module Streaming {
  import opened Wrappers
  import opened Cassettes
  import opened Sse

  class Client {
    var sent: string
    /** Bytes the connection still accepts; None for any number. */
    var room: Option<nat>
    const canFlush: bool
    var status: int

    constructor (room: Option<nat>, canFlush: bool)
      ensures sent == "" && this.room == room && this.canFlush == canFlush && status == 0
    {
      sent, this.room, this.canFlush, status := "", room, canFlush, 0;
    }

    /** Write: all of `p`, or the part that fits and an error. */
    method Write(p: string) returns (ok: bool)
      modifies this`sent, this`room
      ensures ok <==> old(room).None? || |p| <= old(room).value
      ensures sent == old(sent) + Fitting(p, old(room))
      ensures room == Shrunk(old(room), |p|)
    {
      sent := sent + Fitting(p, room);
      ok := room.None? || |p| <= room.value;
      room := Shrunk(room, |p|);
    }

    method WriteHeader(code: int)
      modifies this`status
      ensures status == code
    {
      status := code;
    }
  }

  /** The part of `p` that a connection with `room` accepts. */
  function Fitting(p: string, room: Option<nat>): string {
    if room.None? || |p| <= room.value then p else p[..room.value]
  }

  function Shrunk(room: Option<nat>, n: nat): Option<nat> {
    if room.None? then None else if n <= room.value then Some(room.value - n) else Some(0)
  }

  lemma FittingAppend(a: string, b: string, room: Option<nat>)
    ensures Fitting(a + b, room) == Fitting(a, room) + Fitting(b, Shrunk(room, |a|))
    ensures Shrunk(Shrunk(room, |a|), |b|) == Shrunk(room, |a| + |b|)
  {
    if room.Some? && |a| + |b| > room.value {
      if |a| > room.value { assert (a + b)[..room.value] == a[..room.value] + []; }
      else { assert (a + b)[..room.value] == a + b[..room.value - |a|]; }
    }
  }

  datatype Ending = EndOfStream | ReadError

  datatype PipeError = WriteFailed | ReadFailed

  /** How many leading lines a connection accepts whole. */
  function Accepted(lines: seq<string>, room: Option<nat>): (k: nat)
    ensures k <= |lines|
  {
    if lines == [] || (room.Some? && |lines[0]| > room.value) then 0
    else 1 + Accepted(lines[1..], Shrunk(room, |lines[0]|))
  }

  type Clock = nat -> int

  /** Time from the reading before reading `k`, or from `since`, to reading `k`. */
  function Delay(now: Clock, since: int, k: nat): int {
    now(k) - Previous(now, since, k)
  }

  function Previous(now: Clock, since: int, k: nat): int {
    if k == 0 then since else now(k - 1)
  }

  /** Chunks with the delays of consecutive clock readings. */
  function Timed(texts: seq<string>, now: Clock, since: int): (chunks: seq<StreamChunk>)
    ensures |chunks| == |texts|
  {
    if texts == [] then []
    else
      var n := |texts| - 1;
      Timed(texts[..n], now, since) + [StreamChunk(texts[n], Delay(now, since, n))]
  }

  lemma TimedSnoc(texts: seq<string>, last: string, now: Clock, since: int)
    ensures Timed(texts + [last], now, since) == Timed(texts, now, since)
            + [StreamChunk(last, Delay(now, since, |texts|))]
  {
    assert (texts + [last])[..|texts|] == texts;
  }

  // Progress of a pipe: `i` lines went through, `rest` is still to come, `room` is left.

  ghost predicate Piped(data: string, room0: Option<nat>, i: nat, rest: string, room: Option<nat>) {
    var lines := Lines(data);
    && i <= |lines| && lines[i..] == Lines(rest)
    && data == Concat(lines[..i]) + rest
    && room == Shrunk(room0, |Concat(lines[..i])|)
    && (room0.None? || |Concat(lines[..i])| <= room0.value)
    && Accepted(lines, room0) == i + Accepted(Lines(rest), room)
  }

  lemma PipedStart(data: string, room: Option<nat>)
    ensures Piped(data, room, 0, data, room)
  {
    assert Lines(data)[..0] == [] && Lines(data)[0..] == Lines(data);
    assert "" + data == data;
  }

  lemma MoveCut(data: string, sent: string, rest: string, n: nat)
    requires data == sent + rest && n <= |rest|
    ensures data == (sent + rest[..n]) + rest[n..]
  {
  }

  lemma NextLine(data: string, room0: Option<nat>, i: nat, rest: string, room: Option<nat>)
    requires Piped(data, room0, i, rest, room) && rest != ""
    ensures var lines, n := Lines(data), LineLength(rest);
            && i < |lines| && lines[i] == rest[..n] && lines[i + 1..] == Lines(rest[n..])
            && Concat(lines[..i + 1]) == Concat(lines[..i]) + rest[..n]
            && data == Concat(lines[..i + 1]) + rest[n..]
  {
    var lines := Lines(data);
    assert lines[i..][0] == lines[i] && lines[i..][1..] == lines[i + 1..];
    ConcatSnoc(lines[..i], lines[i]);
    assert lines[..i] + [lines[i]] == lines[..i + 1];
    MoveCut(data, Concat(lines[..i]), rest, LineLength(rest));
  }

  lemma ShrunkTwice(room: Option<nat>, a: nat, b: nat)
    ensures Shrunk(Shrunk(room, a), b) == Shrunk(room, a + b)
    ensures (room.None? || a <= room.value) && (room.None? || b <= Shrunk(room, a).value) ==>
            room.None? || a + b <= room.value
  {
  }

  lemma AcceptedStep(rest: string, room: Option<nat>)
    requires rest != "" && (room.None? || LineLength(rest) <= room.value)
    ensures Accepted(Lines(rest), room) == 1 + Accepted(Lines(rest[LineLength(rest)..]), Shrunk(room, LineLength(rest)))
  {
    assert Lines(rest)[0] == rest[..LineLength(rest)] && Lines(rest)[1..] == Lines(rest[LineLength(rest)..]);
  }

  lemma PipedStep(data: string, room0: Option<nat>, i: nat, rest: string, room: Option<nat>)
    requires Piped(data, room0, i, rest, room) && rest != ""
    requires room.None? || LineLength(rest) <= room.value
    ensures Piped(data, room0, i + 1, rest[LineLength(rest)..], Shrunk(room, LineLength(rest)))
  {
    NextLine(data, room0, i, rest, room);
    AcceptedStep(rest, room);
    ShrunkTwice(room0, |Concat(Lines(data)[..i])|, LineLength(rest));
  }

  lemma PipedStop(data: string, room0: Option<nat>, i: nat, rest: string, room: Option<nat>)
    requires Piped(data, room0, i, rest, room) && rest != ""
    requires room.Some? && LineLength(rest) > room.value
    ensures Accepted(Lines(data), room0) == i < |Lines(data)|
    ensures Concat(Lines(data)[..i]) + Fitting(rest[..LineLength(rest)], room) == Fitting(data, room0)
  {
    NextLine(data, room0, i, rest, room);
    var sent := Concat(Lines(data)[..i]);
    FittingAppend(sent, rest, room0);
    assert rest[..LineLength(rest)][..room.value] == rest[..room.value];
  }

  lemma PipedEnd(data: string, room0: Option<nat>, i: nat, room: Option<nat>)
    requires Piped(data, room0, i, "", room)
    ensures i == |Lines(data)| == Accepted(Lines(data), room0) && Fitting(data, room0) == data
    ensures Lines(data)[..i] == Lines(data) && Concat(Lines(data)[..i]) == data
  {
    assert Lines(data)[i..] == [];
    assert Concat(Lines(data)[..i]) + "" == Concat(Lines(data)[..i]);
  }

  lemma CutNext(data: string, i: nat)
    requires i < |Lines(data)|
    ensures Cut(Lines(data)[..i + 1]) == Feed(Cut(Lines(data)[..i]), Lines(data)[i])
  {
    assert Lines(data)[..i + 1][..i] == Lines(data)[..i];
  }

  /** Writes the next line to the client. */
  method Forward(client: Client, rest: string, ghost data: string,
      ghost room0: Option<nat>, ghost sent0: string, ghost i: nat) returns (ok: bool)
    requires rest != "" && Piped(data, room0, i, rest, client.room)
    requires client.sent == sent0 + Concat(Lines(data)[..i])
    modifies client`sent, client`room
    ensures i < |Lines(data)| && Lines(data)[i] == rest[..LineLength(rest)]
    ensures Concat(Lines(data)[..i + 1]) == Concat(Lines(data)[..i]) + rest[..LineLength(rest)]
    ensures ok ==> Piped(data, room0, i + 1, rest[LineLength(rest)..], client.room)
    ensures ok ==> client.sent == sent0 + Concat(Lines(data)[..i + 1])
    ensures !ok ==> Accepted(Lines(data), room0) == i && client.sent == sent0 + Fitting(data, room0)
  {
    NextLine(data, room0, i, rest, client.room);
    if client.room.Some? && LineLength(rest) > client.room.value { PipedStop(data, room0, i, rest, client.room); }
    else { PipedStep(data, room0, i, rest, client.room); }
    ghost var before, room := Concat(Lines(data)[..i]), client.room;
    ok := client.Write(rest[..LineLength(rest)]);
    Associates(sent0, before, Fitting(rest[..LineLength(rest)], room));
  }

  lemma OnlyLastUnterminated(rest: string)
    ensures !Terminated(rest[..LineLength(rest)]) ==> rest[LineLength(rest)..] == ""
    ensures Terminated(rest[..LineLength(rest)]) ==> LineLength(rest) > 0
  {
    LineLengthFacts(rest);
  }

  class StreamRecorder {
    var chunks: seq<StreamChunk>
    var fullBody: string
    var started: int
    var lastTime: int

    constructor (start: int)
      ensures chunks == [] && fullBody == "" && started == start && lastTime == start
    {
      chunks, fullBody, started, lastTime := [], "", start, start;
    }

    /** What was recorded when the lines before `k` were read and the rest was not. */
    ghost predicate Recorded(c: Cutting, now: Clock, body: string)
      reads this
    {
      chunks == Timed(c.done, now, started) && fullBody == body
      && lastTime == Previous(now, started, |c.done|)
    }

    /** Records a line that the client has received. */
    method Take(line: string, currentEvent: string, now: Clock, ghost cut: Cutting) returns (event: string)
      requires Recorded(cut, now, fullBody) && currentEvent == cut.open
      modifies this`chunks, this`fullBody, this`lastTime
      ensures Recorded(Feed(cut, line), now, old(fullBody) + line) && event == Feed(cut, line).open
    {
      event := currentEvent + line;
      fullBody := fullBody + line;
      if IsBlankLine(line) {
        var time := now(|chunks|);
        var delay := time - lastTime;
        lastTime := time;
        TimedSnoc(cut.done, event, now, started);
        chunks := chunks + [StreamChunk(event, delay)];
        event := "";
      }
    }

    /** `i` lines of `data` went through and were recorded, and `rest` is still to come. */
    ghost predicate Ready(data: string, room0: Option<nat>, i: nat,
        rest: string, room: Option<nat>, event: string, now: Clock)
      reads this
    {
      && Piped(data, room0, i, rest, room)
      && Recorded(Cut(Lines(data)[..i]), now, Concat(Lines(data)[..i]))
      && event == Cut(Lines(data)[..i]).open
    }

    /** What a pipe leaves behind: the lines that the client took whole are the full body, and the chunks
        are those finished within them; only at the end of the stream an open event is a chunk too. */
    ghost predicate Stopped(data: string, room0: Option<nat>, ending: Ending, error: Option<PipeError>, now: Clock)
      reads this
    {
      var lines := Lines(data);
      var k := Accepted(lines, room0);
      && fullBody == Concat(lines[..k])
      && error == (if k < |lines| then Some(WriteFailed) else if ending == ReadError then Some(ReadFailed) else None)
      && chunks == Timed(if error.None? then Chunks(data) else Cut(lines[..k]).done, now, started)
    }

    /** Passes the next line on and records it, unless the client is gone. */
    method PipeLine(client: Client, rest: string, currentEvent: string, now: Clock,
                    ghost data: string, ghost room0: Option<nat>,
                    ghost sent0: string, ghost i: nat, ghost ending: Ending)
        returns (ok: bool, event: string)
      requires rest != "" && Ready(data, room0, i, rest, client.room, currentEvent, now)
      requires client.sent == sent0 + Concat(Lines(data)[..i])
      modifies this`chunks, this`fullBody, this`lastTime, client`sent, client`room
      ensures ok ==> Ready(data, room0, i + 1, rest[LineLength(rest)..], client.room, event, now)
      ensures ok ==> client.sent == sent0 + Concat(Lines(data)[..i + 1])
      ensures !ok ==> Stopped(data, room0, ending, Some(WriteFailed), now)
      ensures !ok ==> client.sent == sent0 + Fitting(data, room0)
    {
      event := currentEvent;
      ok := Forward(client, rest, data, room0, sent0, i);
      if ok {
        CutNext(data, i);
        event := Take(rest[..LineLength(rest)], currentEvent, now, Cut(Lines(data)[..i]));
      }
    }

    /** The stream ended or broke off; at its end an event left open becomes the last chunk. */
    method Finish(ending: Ending, currentEvent: string, now: Clock,
        ghost data: string, ghost room0: Option<nat>, ghost i: nat, ghost room: Option<nat>)
        returns (error: Option<PipeError>)
      requires Ready(data, room0, i, "", room, currentEvent, now)
      modifies this`chunks
      ensures Concat(Lines(data)[..i]) == Fitting(data, room0) && Stopped(data, room0, ending, error, now)
    {
      PipedEnd(data, room0, i, room);
      if ending == ReadError { return Some(ReadFailed); }
      ghost var cut := Cut(Lines(data));
      if |currentEvent| > 0 {
        TimedSnoc(cut.done, currentEvent, now, started);
        chunks := chunks + [StreamChunk(currentEvent, now(|chunks|) - lastTime)];
      } else {
        assert cut.done + [] == cut.done;
      }
      return None;
    }

    /** Every byte read is passed on at once and recorded; a blank line closes a chunk. */
    method PipeAndRecord(client: Client, data: string, ending: Ending, now: Clock) returns (error: Option<PipeError>)
      requires chunks == [] && fullBody == "" && lastTime == started
      modifies this`chunks, this`fullBody, this`lastTime, client`sent, client`room
      ensures client.sent == old(client.sent) + Fitting(data, old(client.room))
      ensures Stopped(data, old(client.room), ending, error, now)
    {
      var rest, currentEvent := data, "";
      ghost var i, room0, sent0 := 0, client.room, client.sent;
      PipedStart(data, room0);
      while true
        invariant Ready(data, room0, i, rest, client.room, currentEvent, now)
        invariant client.sent == sent0 + Concat(Lines(data)[..i])
        decreases |rest|
      {
        var n := LineLength(rest);
        var line := rest[..n];
        if |line| > 0 {
          var ok;
          ok, currentEvent := PipeLine(client, rest, currentEvent, now, data, room0, sent0, i, ending);
          if !ok { return Some(WriteFailed); }
          i := i + 1;
        }
        OnlyLastUnterminated(rest);
        rest := rest[n..];
        if !Terminated(line) {
          error := Finish(ending, currentEvent, now, data, room0, i, client.room);
          return error;
        }
      }
    }
  }

  // What a recording guarantees.

  function Texts(chunks: seq<StreamChunk>): (texts: seq<string>)
    ensures |texts| == |chunks|
    ensures forall i | 0 <= i < |texts| :: texts[i] == chunks[i].data
  {
    if chunks == [] then [] else Texts(chunks[..|chunks| - 1]) + [chunks[|chunks| - 1].data]
  }

  predicate IsPrefix(a: string, b: string) {
    |a| <= |b| && b[..|a|] == a
  }

  lemma {:induction false} AcceptedFits(lines: seq<string>, room: Option<nat>)
    ensures IsPrefix(Concat(lines[..Accepted(lines, room)]), Fitting(Concat(lines), room))
    ensures Accepted(lines, room) == |lines| ==> Fitting(Concat(lines), room) == Concat(lines)
  {
    var k := Accepted(lines, room);
    if k == 0 { assert lines[..0] == []; }
    else {
      AcceptedFits(lines[1..], Shrunk(room, |lines[0]|));
      FittingAppend(lines[0], Concat(lines[1..]), room);
      assert lines[..k][1..] == lines[1..][..k - 1] && lines[..k][0] == lines[0];
    }
  }

  /** Conservation on every exit. A stream piped without error left its bytes alike with the client, in the
      full body and in the chunks together. After a read or write error the chunks together are a prefix of
      the full body, and that is a prefix of what the client was sent. */
  lemma BytesAreConserved(data: string, room: Option<nat>)
    ensures var lines := Lines(data); var k := Accepted(lines, room);
            && (k == |lines| ==> Concat(Chunks(data)) == Concat(lines[..k]) == Fitting(data, room) == data)
            && IsPrefix(Concat(Cut(lines[..k]).done), Concat(lines[..k]))
            && IsPrefix(Concat(lines[..k]), Fitting(data, room))
  {
    var lines := Lines(data);
    var k := Accepted(lines, room);
    LinesConcat(data);
    AcceptedFits(lines, room);
    ChunksAreWellFormed(data);
    var cut := Cut(lines[..k]);
    CutConserves(Cutting([], ""), lines[..k]);
    assert Concat(lines[..k]) == Concat(cut.done) + cut.open;
    assert lines[..|lines|] == lines;
  }

  function TotalDelay(chunks: seq<StreamChunk>): int {
    if chunks == [] then 0 else TotalDelay(chunks[..|chunks| - 1]) + chunks[|chunks| - 1].delay
  }

  /** Recorded delays telescope: up to chunk k they add up to its flush time minus the start. */
  lemma {:induction false} DelaysTelescope(texts: seq<string>, now: Clock, started: int, k: nat)
    requires k <= |texts|
    ensures TotalDelay(Timed(texts, now, started)[..k]) == (if k == 0 then 0 else now(k - 1) - started)
  {
    if k > 0 {
      DelaysTelescope(texts, now, started, k - 1);
      TimedPrefix(texts, now, started, k);
      assert Timed(texts, now, started)[..k][..k - 1] == Timed(texts, now, started)[..k - 1];
    }
  }

  // Replay.

  datatype ReplayMode = Instant | RealTime

  const MAX_DELAY := 500_000_000

  datatype ReplayError = NoFlusher | ClientGone

  /** How long replay sleeps before a chunk. */
  function SleepBefore(mode: ReplayMode, delay: int): nat {
    if mode.RealTime? && delay > 0 then (if delay > MAX_DELAY then MAX_DELAY else delay) else 0
  }

  function Sleeps(mode: ReplayMode, chunks: seq<StreamChunk>): seq<nat> {
    seq(|chunks|, i requires 0 <= i < |chunks| => SleepBefore(mode, chunks[i].delay))
  }

  function Total(sleeps: seq<nat>): nat {
    if sleeps == [] then 0 else Total(sleeps[..|sleeps| - 1]) + sleeps[|sleeps| - 1]
  }

  lemma SleepsNext(mode: ReplayMode, chunks: seq<StreamChunk>, i: nat)
    requires i < |chunks|
    ensures Sleeps(mode, chunks[..i + 1]) == Sleeps(mode, chunks[..i]) + [SleepBefore(mode, chunks[i].delay)]
  {
  }

  class StreamReplayer {
    const mode: ReplayMode

    constructor (mode: ReplayMode)
      ensures this.mode == mode
    {
      this.mode := mode;
    }

    method Sleep(delay: int) returns (slept: nat)
      ensures mode.Instant? ==> slept == 0
      ensures mode.RealTime? ==>
                slept == if delay <= 0 then 0 else if delay < 500_000_000 then delay else 500_000_000
      ensures slept == SleepBefore(mode, delay)
    {
      slept := 0;
      if mode.RealTime? && delay > 0 {
        slept := delay;
        if slept > MAX_DELAY { slept := MAX_DELAY; }
      }
    }

    /** Writes the chunks in order; `sleeps` holds the time slept before each chunk that was attempted. */
    method Replay(client: Client, chunks: seq<StreamChunk>) returns (error: Option<ReplayError>, sleeps: seq<nat>)
      modifies client`sent, client`room
      ensures !client.canFlush ==>
                error == Some(NoFlusher) && client.sent == old(client.sent) && sleeps == []
      ensures client.canFlush ==>
                && client.sent == old(client.sent) + Fitting(Concat(Texts(chunks)), old(client.room))
                && (error.None? <==> old(client.room).None? || |Concat(Texts(chunks))| <= old(client.room).value)
                && |sleeps| <= |chunks| && sleeps == Sleeps(mode, chunks[..|sleeps|])
                && (error.None? ==> |sleeps| == |chunks|)
      ensures client.canFlush && error.Some? ==>
                && error == Some(ClientGone) && sleeps != []
                && |Concat(Texts(chunks)[..|sleeps| - 1])| <= old(client.room).value
                   < |Concat(Texts(chunks)[..|sleeps|])|
      ensures mode.Instant? ==> forall i | 0 <= i < |sleeps| :: sleeps[i] == 0
      ensures mode.RealTime? ==> forall i | 0 <= i < |sleeps| ::
                sleeps[i] == if chunks[i].delay <= 0 then 0
                             else if chunks[i].delay < 500_000_000 then chunks[i].delay else 500_000_000
    {
      sleeps := [];
      if !client.canFlush { return Some(NoFlusher), []; }
      ghost var all, sent0, room0 := Texts(chunks), client.sent, client.room;
      for i := 0 to |chunks|
        invariant sleeps == Sleeps(mode, chunks[..i])
        invariant Replayed(all, i, room0, sent0, client.sent, client.room)
      {
        var chunk := chunks[i];
        var slept := Sleep(chunk.delay);
        SleepsNext(mode, chunks, i);
        sleeps := sleeps + [slept];
        ReplayedStep(all, i, room0, sent0, client.sent, client.room);
        var ok := client.Write(chunk.data);
        if !ok { return Some(ClientGone), sleeps; }
      }
      ReplayedAll(all, room0, sent0, client.sent, client.room);
      assert chunks[..|chunks|] == chunks;
      return None, sleeps;
    }
  }

  /** The first `k` chunks went to the client whole. */
  ghost predicate Replayed(all: seq<string>, k: nat, room0: Option<nat>,
      sent0: string, sent: string, room: Option<nat>) {
    && k <= |all| && sent == sent0 + Concat(all[..k])
    && room == Shrunk(room0, |Concat(all[..k])|)
    && (room0.None? || |Concat(all[..k])| <= room0.value)
  }

  /** One more chunk either fits, or it is cut where the whole would be cut. */
  lemma ReplayedStep(all: seq<string>, k: nat, room0: Option<nat>, sent0: string, sent: string, room: Option<nat>)
    requires k < |all| && Replayed(all, k, room0, sent0, sent, room)
    ensures room.None? || |all[k]| <= room.value ==>
              Replayed(all, k + 1, room0, sent0, sent + Fitting(all[k], room), Shrunk(room, |all[k]|))
    ensures room.Some? && |all[k]| > room.value ==>
              && sent + Fitting(all[k], room) == sent0 + Fitting(Concat(all), room0) && |Concat(all)| > room0.value
              && |Concat(all[..k])| <= room0.value < |Concat(all[..k + 1])|
  {
    var before := Concat(all[..k]);
    ConcatSnoc(all[..k], all[k]);
    assert all[..k] + [all[k]] == all[..k + 1];
    ShrunkTwice(room0, |before|, |all[k]|);
    Associates(sent0, before, Fitting(all[k], room));
    if room.Some? && |all[k]| > room.value {
      ConcatAppend(all[..k + 1], all[k + 1..]);
      assert all == all[..k + 1] + all[k + 1..];
      FittingAppend(before, all[k], room0);
      FittingAppend(before + all[k], Concat(all[k + 1..]), room0);
    }
  }

  lemma ReplayedAll(all: seq<string>, room0: Option<nat>, sent0: string, sent: string, room: Option<nat>)
    requires Replayed(all, |all|, room0, sent0, sent, room)
    ensures sent == sent0 + Fitting(Concat(all), room0) && (room0.None? || |Concat(all)| <= room0.value)
  {
    assert all[..|all|] == all;
  }

  // Timing of a replayed recording.

  ghost predicate Monotone(now: Clock, started: int) {
    started <= now(0) && forall i: nat, j: nat | i <= j :: now(i) <= now(j)
  }

  /** The time between the readings for chunk k and for the one before it, but at most 500 ms. */
  function CappedGap(now: Clock, started: int, k: nat): int {
    var gap := now(k) - (if k == 0 then started else now(k - 1));
    if gap < 0 then 0 else if gap < 500_000_000 then gap else 500_000_000
  }

  function CappedGaps(now: Clock, started: int, k: nat): int {
    if k == 0 then 0 else CappedGaps(now, started, k - 1) + CappedGap(now, started, k - 1)
  }

  lemma {:induction false} TimedAt(texts: seq<string>, now: Clock, since: int, k: nat)
    requires k < |texts|
    ensures Timed(texts, now, since)[k].data == texts[k]
    ensures Timed(texts, now, since)[k].delay == now(k) - (if k == 0 then since else now(k - 1))
  {
    var n := |texts| - 1;
    if k < n {
      TimedAt(texts[..n], now, since, k);
      assert Timed(texts, now, since)[k] == Timed(texts[..n], now, since)[k];
    }
  }

  lemma SleepsSnoc(mode: ReplayMode, chunks: seq<StreamChunk>, k: nat)
    requires k < |chunks|
    ensures Total(Sleeps(mode, chunks[..k + 1])) ==
            Total(Sleeps(mode, chunks[..k])) + SleepBefore(mode, chunks[k].delay)
  {
    var sleeps := Sleeps(mode, chunks[..k + 1]);
    assert sleeps[..k] == Sleeps(mode, chunks[..k]);
  }

  /** A recording is replayed without any sleep in instant mode. In real time the sleep before each chunk is
      the time that passed before it when it was recorded, capped at 500 ms, so that the time slept in all is
      the sum of these. */
  lemma {:induction false} RecordingSleeps(texts: seq<string>, now: Clock, started: int, k: nat)
    requires k <= |texts|
    ensures var chunks := Timed(texts, now, started)[..k];
            && (forall i | 0 <= i < k :: Sleeps(Instant, chunks)[i] == 0)
            && (forall i | 0 <= i < k :: Sleeps(RealTime, chunks)[i] == CappedGap(now, started, i))
            && Total(Sleeps(Instant, chunks)) == 0
            && Total(Sleeps(RealTime, chunks)) == CappedGaps(now, started, k)
  {
    if k > 0 {
      RecordingSleeps(texts, now, started, k - 1);
      TimedAt(texts, now, started, k - 1);
      SleepsSnoc(Instant, Timed(texts, now, started), k - 1);
      SleepsSnoc(RealTime, Timed(texts, now, started), k - 1);
      var chunks := Timed(texts, now, started);
      forall i | 0 <= i < k
        ensures Sleeps(Instant, chunks[..k])[i] == 0
        ensures Sleeps(RealTime, chunks[..k])[i] == CappedGap(now, started, i)
      {
        TimedAt(texts, now, started, i);
      }
    }
  }

  lemma {:induction false} CappedGapsBound(now: Clock, started: int, k: nat)
    requires Monotone(now, started)
    ensures var offset := if k == 0 then 0 else now(k - 1) - started;
            && CappedGaps(now, started, k) <= offset
            && CappedGaps(now, started, k) <= k * 500_000_000
            && (CappedGaps(now, started, k) == offset <==>
               forall i: nat | i < k :: Delay(now, started, i) <= 500_000_000)
  {
    if k > 0 {
      CappedGapsBound(now, started, k - 1);
      assert Delay(now, started, k - 1) >= 0;
      assert (forall i: nat | i < k :: Delay(now, started, i) <= 500_000_000) <==>
             (forall i: nat | i < k - 1 :: Delay(now, started, i) <= 500_000_000)
             && Delay(now, started, k - 1) <= 500_000_000;
    }
  }

  /** With a monotone clock the time slept before chunk k never exceeds the chunk's recorded offset nor k
      times 500 ms, and equals the offset exactly when no delay so far was capped. */
  lemma ReplayKeepsTime(texts: seq<string>, now: Clock, started: int, k: nat)
    requires Monotone(now, started) && k <= |texts|
    ensures var chunks := Timed(texts, now, started);
            var slept := Total(Sleeps(RealTime, chunks[..k]));
            && slept <= TotalDelay(chunks[..k]) && slept <= k * 500_000_000
            && TotalDelay(chunks[..k]) == (if k == 0 then 0 else now(k - 1) - started)
            && (slept == TotalDelay(chunks[..k]) <==> forall i | 0 <= i < k :: chunks[i].delay <= 500_000_000)
  {
    var chunks := Timed(texts, now, started);
    DelaysTelescope(texts, now, started, k);
    RecordingSleeps(texts, now, started, k);
    CappedGapsBound(now, started, k);
    forall i: nat | i < k ensures chunks[i].delay == Delay(now, started, i) { TimedAt(texts, now, started, i); }
  }

  lemma TextsSnoc(chunks: seq<StreamChunk>, last: StreamChunk)
    ensures Texts(chunks + [last]) == Texts(chunks) + [last.data]
  {
    assert (chunks + [last])[..|chunks|] == chunks;
  }

  /** Replaying what was recorded sends the recorded bytes. */
  lemma {:induction false} TextsOfTimed(texts: seq<string>, now: Clock, since: int)
    ensures Texts(Timed(texts, now, since)) == texts
  {
    if texts != [] {
      var n := |texts| - 1;
      TextsOfTimed(texts[..n], now, since);
      TextsSnoc(Timed(texts[..n], now, since), StreamChunk(texts[n], Delay(now, since, n)));
      assert texts == texts[..n] + [texts[n]];
    }
  }

  lemma {:induction false} TimedPrefix(texts: seq<string>, now: Clock, since: int, k: nat)
    requires k <= |texts|
    ensures Timed(texts, now, since)[..k] == Timed(texts[..k], now, since)
  {
    if k < |texts| {
      var n := |texts| - 1;
      TimedPrefix(texts[..n], now, since, k);
      assert Timed(texts, now, since)[..k] == Timed(texts[..n], now, since)[..k];
      assert texts[..n][..k] == texts[..k];
    } else {
      assert texts[..k] == texts;
    }
  }
}
