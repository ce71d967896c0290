/** The proxy handler after hashing (pkg/proxy/handler.go): replay, record and auto mode over the disk store.

    Logging and headers are not modelled. The upstream's answer is a parameter of the request. */
module Handler {
  import opened Wrappers
  import opened Paths
  import opened Cassettes
  import opened StoreMachine
  import opened DiskStore
  import opened Sse
  import opened Streaming

  /** What the upstream does with a forwarded request. */
  datatype Upstream =
    | NoRoute
    | Unreachable
    | Answer(status: int, headers: map<string, string>, isStream: bool, data: string, ending: Ending)

  /** What the handler knows of the request, and what the environment supplies while serving it. */
  datatype Request = Request(hash: string, namespace: string,
      provider: string, httpMethod: string, path: string, body: string)

  datatype Environment = Environment(upstream: Upstream, start: int,
      now: Clock, recordedAt: int, latency: int, stamp: string, fault: SaveFault)

  datatype Outcome = Hit | Miss | Recorded | Failed

  const OK := 200
  const NOT_FOUND := 404
  const SERVER_ERROR := 500
  const BAD_GATEWAY := 502

  function StatusOf(c: Cassette): int {
    if c.response.statusCode == 0 then OK else c.response.statusCode
  }

  /** The bytes a cassette is served as. Chunks need a client that can flush. */
  function ServedBytes(c: Cassette, canFlush: bool): string {
    if c.response.isStream && c.response.chunks != [] then (if canFlush then Concat(Texts(c.response.chunks)) else "")
    else c.response.body
  }

  function CassetteOf(r: Request, env: Environment, body: string, chunks: seq<StreamChunk>): Cassette
    requires env.upstream.Answer?
  {
    Cassette(CURRENT_CASSETTE_VERSION, r.hash, r.namespace, r.provider, r.path, env.recordedAt, None,
             CassetteRequest(r.httpMethod, r.path, map[], r.body),
             CassetteResponse(env.upstream.status, env.upstream.headers,
             body, chunks, env.latency, env.upstream.isStream),
             map[])
  }

  /** The cassette recorded for an answer that the client, accepting `room` bytes, was sent; None when the
      body of a plain answer could not be read. */
  function RecordedFor(r: Request, env: Environment, room: Option<nat>): Option<Cassette>
    requires env.upstream.Answer?
  {
    var up := env.upstream;
    if up.isStream then
      var lines := Lines(up.data);
      var k := Accepted(lines, room);
      var complete := k == |lines| && up.ending == EndOfStream;
      Some(CassetteOf(r, env, Concat(lines[..k]),
        Timed(if complete then Chunks(up.data) else Cut(lines[..k]).done, env.now, env.start)))
    else if up.ending == ReadError then None
    else Some(CassetteOf(r, env, up.data, []))
  }

  /** What a recording says of its request and of the answer. */
  predicate Records(c: Cassette, r: Request, env: Environment)
    requires env.upstream.Answer?
  {
    var up := env.upstream;
    && c.version == 1 && c.hash == r.hash && c.namespace == r.namespace && c.provider == r.provider
    && c.endpoint == r.path && c.recordedAt == env.recordedAt && c.expiresAt == None && c.metadata == map[]
    && c.request.httpMethod == r.httpMethod && c.request.path == r.path && c.request.body == r.body
    && c.request.headers == map[]
    && c.response.statusCode == up.status && c.response.headers == up.headers
    && c.response.latency == env.latency && c.response.isStream == up.isStream
    && (!up.isStream ==> c.response.body == up.data && c.response.chunks == [])
  }

  /** Counts the requests forwarded. */
  class UpstreamLink {
    var calls: nat

    constructor ()
      ensures calls == 0
    {
      calls := 0;
    }

    method Forward(up: Upstream) returns (answer: Upstream)
      modifies this
      ensures calls == old(calls) + 1 && answer == up
    {
      calls := calls + 1;
      answer := up;
    }
  }

  function NotFoundBody(hash: string): string {
    "{\"error\":{\"message\":\"Cassette not found in replay mode for hash " + hash
    + "\",\"type\":\"reelm_cache_miss\",\"hash\":\"" + hash + "\"}}"
  }

  /** Body of an error answer, without the detail that some carry. */
  function ErrorBody(up: Upstream): string {
    match up
    case NoRoute => "{\"error\":\"upstream resolution failed\"}\n"
    case Unreachable => "{\"error\":\"upstream request failed\"}\n"
    case _ => "{\"error\":\"failed to read upstream response body\"}\n"
  }

  const INVALID_MODE := "{\"error\":\"invalid proxy operating mode\"}\n"

  class Handler {
    const mode: string
    const store: DiskStore
    const replayer: StreamReplayer
    const link: UpstreamLink

    constructor (mode: string, store: DiskStore, replayer: StreamReplayer, link: UpstreamLink)
      ensures this.mode == mode && this.store == store && this.replayer == replayer && this.link == link
    {
      this.mode, this.store, this.replayer, this.link := mode, store, replayer, link;
    }

    /** serveCassette. */
    method ServeCassette(client: Client, c: Cassette)
      modifies client`sent, client`room, client`status
      ensures client.status == StatusOf(c) == if c.response.statusCode == 0 then 200 else c.response.statusCode
      ensures client.sent == old(client.sent) + Fitting(ServedBytes(c, client.canFlush), old(client.room))
      ensures !c.response.isStream || c.response.chunks == [] ==>
                client.sent == old(client.sent) + Fitting(c.response.body, old(client.room))
    {
      if c.response.isStream && |c.response.chunks| > 0 {
        var statusCode := c.response.statusCode;
        if statusCode == 0 { statusCode := OK; }
        client.WriteHeader(statusCode);
        var error, sleeps := replayer.Replay(client, c.response.chunks);
        return;
      }
      var statusCode := c.response.statusCode;
      if statusCode == 0 { statusCode := OK; }
      client.WriteHeader(statusCode);
      var ok := client.Write(c.response.body);
    }

    /** handleReplay: never forwards and never changes the store. */
    method HandleReplay(client: Client, hash: string) returns (outcome: Outcome)
      modifies client`sent, client`room, client`status
      ensures var c := Load(store.settings, store.View(), hash);
              && outcome == (if c.Some? then Hit else Miss)
              && client.status == (if c.Some? then StatusOf(c.value) else 404)
              && client.sent == old(client.sent)
                 + Fitting(if c.Some? then ServedBytes(c.value, client.canFlush) else NotFoundBody(hash),
                 old(client.room))
    {
      var cassette := store.LoadByHash(hash);
      if cassette.None? {
        client.WriteHeader(NOT_FOUND);
        var ok := client.Write(NotFoundBody(hash));
        return Miss;
      }
      ServeCassette(client, cassette.value);
      return Hit;
    }

    /** Saves a recording; an error is only logged. */
    method Keep(cassette: Cassette, env: Environment)
      requires cassette.hash != ""
      modifies store.disk, store.index
      ensures var after := AfterSave(store.settings,
                old(store.disk.files), old(store.index.View()), cassette, env.stamp, env.fault);
                store.disk.files == after.files && store.index.View() == after.index
      ensures env.fault == NoFault && store.settings.codecs.RoundTrips(store.settings.format, cassette) ==>
                Load(store.settings, store.View(), cassette.hash) == Some(cassette)
    {
      var error := store.Save(Some(cassette), env.stamp, env.fault);
    }

    /** handleRecord: forwards once unless there is no route, passes the answer on, and saves it. */
    method HandleRecord(client: Client, r: Request, env: Environment) returns (outcome: Outcome)
      requires r.hash != ""
      modifies client`sent, client`room, client`status, link, store.disk, store.index
      ensures link.calls == old(link.calls) + (if env.upstream.NoRoute? then 0 else 1)
      ensures var up := env.upstream;
              var c := if up.Answer? then RecordedFor(r, env, old(client.room)) else None;
              && (c.None? ==> store.View() == old(store.View()) && outcome == Failed && client.status == 502
                              && client.sent == old(client.sent) + Fitting(ErrorBody(up), old(client.room)))
              && (c.Some? ==>
                    && outcome == Recorded && client.status == up.status
                    && client.sent == old(client.sent) + Fitting(up.data, old(client.room))
                    && var after := AfterSave(store.settings,
                       old(store.disk.files), old(store.index.View()), c.value, env.stamp, env.fault);
                       store.disk.files == after.files && store.index.View() == after.index)
      ensures var up, format := env.upstream, store.settings.format;
              var c := if up.Answer? then RecordedFor(r, env, old(client.room)) else None;
              && (c.None? <==> !up.Answer? || (!up.isStream && up.ending == ReadError))
              && (c.Some? ==> Records(c.value, r, env))
              && (c.Some? && env.fault == NoFault && store.settings.codecs.RoundTrips(format, c.value) ==>
                    Load(store.settings, store.View(), r.hash) == c)
    {
      if env.upstream.NoRoute? {
        client.WriteHeader(BAD_GATEWAY);
        var ok := client.Write(ErrorBody(env.upstream));
        return Failed;
      }
      var answer := link.Forward(env.upstream);
      if answer.Unreachable? {
        client.WriteHeader(BAD_GATEWAY);
        var ok := client.Write(ErrorBody(env.upstream));
        return Failed;
      }
      if answer.isStream {
        client.WriteHeader(answer.status);
        var recorder := new StreamRecorder(env.start);
        var error := recorder.PipeAndRecord(client, answer.data, answer.ending, env.now);
        var cassette := CassetteOf(r, env, recorder.fullBody, recorder.chunks);
        assert Some(cassette) == RecordedFor(r, env, old(client.room));
        Keep(cassette, env);
        return Recorded;
      }
      if answer.ending == ReadError {
        client.WriteHeader(BAD_GATEWAY);
        var ok := client.Write(ErrorBody(env.upstream));
        return Failed;
      }
      var cassette := CassetteOf(r, env, answer.data, []);
      Keep(cassette, env);
      client.WriteHeader(answer.status);
      var ok := client.Write(answer.data);
      return Recorded;
    }

    /** The mode dispatch of ServeHTTP. */
    method Serve(client: Client, r: Request, env: Environment) returns (outcome: Outcome)
      requires r.hash != ""
      modifies client`sent, client`room, client`status, link, store.disk, store.index
      ensures Lower(mode) == "replay" || (Lower(mode) == "auto"
              && Load(store.settings, old(store.View()), r.hash).Some?) ==>
                var c := Load(store.settings, old(store.View()), r.hash);
                && link.calls == old(link.calls) && store.View() == old(store.View())
                && outcome == (if c.Some? then Hit else Miss)
                && client.status == (if c.Some? then StatusOf(c.value) else 404)
                && client.sent == old(client.sent)
                   + Fitting(if c.Some? then ServedBytes(c.value, client.canFlush) else NotFoundBody(r.hash),
                   old(client.room))
      ensures Lower(mode) == "record" || (Lower(mode) == "auto"
              && Load(store.settings, old(store.View()), r.hash).None?) ==>
                var c := if env.upstream.Answer? then RecordedFor(r, env, old(client.room)) else None;
                && link.calls == old(link.calls) + (if env.upstream.NoRoute? then 0 else 1)
                && (c.None? ==> store.View() == old(store.View()) && outcome == Failed && client.status == 502
                                && client.sent == old(client.sent) + Fitting(ErrorBody(env.upstream), old(client.room)))
                && (c.Some? ==>
                      && outcome == Recorded && client.status == env.upstream.status
                      && client.sent == old(client.sent) + Fitting(env.upstream.data, old(client.room))
                      && var after := AfterSave(store.settings,
                         old(store.disk.files), old(store.index.View()), c.value, env.stamp, env.fault);
                         store.disk.files == after.files && store.index.View() == after.index)
      ensures Lower(mode) != "replay" && Lower(mode) != "record" && Lower(mode) != "auto" ==>
                outcome == Failed && client.status == 500 && client.sent == old(client.sent)
                  + Fitting(INVALID_MODE, old(client.room)) && link.calls == old(link.calls)
                  && store.View() == old(store.View())
    {
      if Lower(mode) == "replay" {
        outcome := HandleReplay(client, r.hash);
      } else if Lower(mode) == "record" {
        outcome := HandleRecord(client, r, env);
      } else if Lower(mode) == "auto" {
        var cassette := store.LoadByHash(r.hash);
        if cassette.Some? {
          ServeCassette(client, cassette.value);
          return Hit;
        }
        outcome := HandleRecord(client, r, env);
      } else {
        client.WriteHeader(SERVER_ERROR);
        var ok := client.Write(INVALID_MODE);
        outcome := Failed;
      }
    }
  }

  /** The bytes served for a recorded stream are its chunks together, or its full body if it has none. */
  lemma StreamServes(r: Request, env: Environment, body: string, texts: seq<string>)
    requires env.upstream.Answer? && env.upstream.isStream
    ensures ServedBytes(CassetteOf(r, env, body, Timed(texts, env.now, env.start)), true) ==
            if texts == [] then body else Concat(texts)
  {
    TextsOfTimed(texts, env.now, env.start);
  }

  /** A stream that was read to its end is served byte by byte, one cut by an error as a prefix of what its
      client was sent. */
  lemma StreamServesItsAnswer(r: Request, env: Environment, room: Option<nat>)
    requires env.upstream.Answer? && env.upstream.isStream
    ensures var bytes, data := ServedBytes(RecordedFor(r, env, room).value, true), env.upstream.data;
            && (Accepted(Lines(data), room) == |Lines(data)| && env.upstream.ending == EndOfStream ==> bytes == data)
            && IsPrefix(bytes, Fitting(data, room))
  {
    var up := env.upstream;
    var lines := Lines(up.data);
    var k := Accepted(lines, room);
    BytesAreConserved(up.data, room);
    if k == |lines| && up.ending == EndOfStream {
      StreamServes(r, env, Concat(lines[..k]), Chunks(up.data));
    } else {
      var body, done := Concat(lines[..k]), Cut(lines[..k]).done;
      StreamServes(r, env, body, done);
      assert IsPrefix(Concat(done), body) && IsPrefix(body, Fitting(up.data, room));
      PrefixTransitive(Concat(done), body, Fitting(up.data, room));
    }
  }

  lemma PrefixTransitive(a: string, b: string, c: string)
    requires IsPrefix(a, b) && IsPrefix(b, c)
    ensures IsPrefix(a, c)
  {
  }

  /** What a recording serves later: the recorded nonzero status, and the bytes of the answer. */
  lemma RecordingServesItsAnswer(r: Request, env: Environment, room: Option<nat>)
    requires env.upstream.Answer? && RecordedFor(r, env, room).Some?
    ensures var c, up := RecordedFor(r, env, room).value, env.upstream;
            && Records(c, r, env)
            && StatusOf(c) != 0 && (up.status != 0 ==> StatusOf(c) == up.status)
            && (!up.isStream ==> ServedBytes(c, true) == ServedBytes(c, false) == up.data)
            && (up.isStream && Accepted(Lines(up.data), room) == |Lines(up.data)| && up.ending == EndOfStream ==>
                  ServedBytes(c, true) == up.data)
            && (up.isStream ==> IsPrefix(ServedBytes(c, true), Fitting(up.data, room)))
  {
    if env.upstream.isStream { StreamServesItsAnswer(r, env, room); }
  }

  /** Each chunk carries its text and the time since the one before. */
  predicate Carry(chunks: seq<StreamChunk>, texts: seq<string>, now: Clock, started: int) {
    && |chunks| == |texts|
    && forall i | 0 <= i < |chunks| :: chunks[i].data == texts[i]
         && chunks[i].delay == now(i) - (if i == 0 then started else now(i - 1))
  }

  lemma TimedCarry(texts: seq<string>, now: Clock, started: int)
    ensures Carry(Timed(texts, now, started), texts, now, started)
  {
    forall i | 0 <= i < |texts|
      ensures var chunk := Timed(texts, now, started)[i];
              chunk.data == texts[i] && chunk.delay == now(i) - (if i == 0 then started else now(i - 1))
    {
      TimedAt(texts, now, started, i);
    }
  }

  /** A recorded stream: its body is what the client took, whole lines only, and its chunks are those
      finished in it or, at the end of the stream, all of them. */
  lemma RecordingKeepsStream(r: Request, env: Environment, room: Option<nat>)
    requires env.upstream.Answer? && env.upstream.isStream
    ensures var response, up, lines := RecordedFor(r, env, room).value.response, env.upstream, Lines(env.upstream.data);
            var k := Accepted(lines, room);
            && response.body == Concat(lines[..k]) && (k == |lines| ==> response.body == up.data)
            && Carry(response.chunks,
                 if k == |lines| && up.ending == EndOfStream then Chunks(up.data) else Cut(lines[..k]).done,
                 env.now, env.start)
  {
    var up, lines := env.upstream, Lines(env.upstream.data);
    var k := Accepted(lines, room);
    BytesAreConserved(up.data, room);
    TimedCarry(if k == |lines| && up.ending == EndOfStream then Chunks(up.data) else Cut(lines[..k]).done,
      env.now, env.start);
  }

  lemma {:induction false} DoneIsNonempty(lines: seq<string>)
    requires forall i | 0 <= i < |lines| :: lines[i] != ""
    ensures forall i | 0 <= i < |Cut(lines).done| :: Cut(lines).done[i] != ""
  {
    if lines != [] {
      var n := |lines| - 1;
      DoneIsNonempty(lines[..n]);
      var before := Cut(lines[..n]);
      assert Cut(lines) == Feed(before, lines[n]);
      assert |before.open + lines[n]| > 0;
    }
  }

  lemma RecordedTextsAreNonempty(data: string, k: nat, complete: bool)
    requires k <= |Lines(data)|
    ensures var texts := if complete then Chunks(data) else Cut(Lines(data)[..k]).done;
            texts != [] ==> Concat(texts) != ""
  {
    var lines := Lines(data);
    forall i | 0 <= i < |lines| ensures lines[i] != "" { LinesShape(data, i); }
    DoneIsNonempty(lines[..k]);
    DoneIsNonempty(lines);
    var texts := if complete then Chunks(data) else Cut(lines[..k]).done;
    if texts != [] { assert texts[0] != ""; assert Concat(texts) == texts[0] + Concat(texts[1..]); }
  }

  /** A client that cannot flush gets the recorded bytes exactly when the recording has no chunks: a
      recorded stream with chunks is served to it as a bare status. */
  lemma StreamsNeedFlushing(r: Request, env: Environment, room: Option<nat>)
    requires env.upstream.Answer? && RecordedFor(r, env, room).Some?
    ensures var c := RecordedFor(r, env, room).value;
            ServedBytes(c, false) == ServedBytes(c, true) <==> c.response.chunks == []
  {
    var up := env.upstream;
    if up.isStream {
      var k := Accepted(Lines(up.data), room);
      var complete := k == |Lines(up.data)| && up.ending == EndOfStream;
      var texts := if complete then Chunks(up.data) else Cut(Lines(up.data)[..k]).done;
      RecordedTextsAreNonempty(up.data, k, complete);
      TextsOfTimed(texts, env.now, env.start);
    }
  }
}
