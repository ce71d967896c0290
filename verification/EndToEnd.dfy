/** What the proxy promises as a whole: a recorded answer is what every equivalent request is served
    later, across restarts and crashes. */
module EndToEnd {
  import opened Wrappers
  import opened Paths
  import opened Cassettes
  import opened StoreMachine
  import opened StoreTheorems
  import opened DiskStore
  import opened Sse
  import opened Streaming
  import opened Handler
  import opened Rebuild
  import Queries
  import Canonic
  import CanonicalJson
  import OpenAI
  import Anthropic
  import Conversation

  /** Steps that leave the recording of `hash` alone: no save or delete of it, failed or not. Crashes,
      reopenings, rebuilds and operations on other hashes are all allowed. */
  ghost predicate LeavesAlone(steps: seq<Step>, hash: string) {
    forall step | step in steps ::
      && !(step.Commit? && step.c.hash == hash) && !(step.IndexSaveFails? && step.c.hash == hash)
      && step != Remove(hash) && step != RemoveFails(hash)
  }

  lemma {:induction false} KeptAlive(m: map<string, Cassette>, before: seq<Step>, later: seq<Step>, hash: string)
    requires LeavesAlone(later, hash)
    ensures Lookup(Live(m, before + later), hash) == Lookup(Live(m, before), hash)
    ensures hash in Unindexed(before + later) ==> hash in Unindexed(before)
  {
    if later == [] { assert before + later == before; }
    else {
      var n := |later| - 1;
      assert later[n] in later;
      KeptAlive(m, before, later[..n], hash);
      assert (before + later)[..|before + later| - 1] == before + later[..n];
    }
  }

  lemma SaveLeavesIndexed(m: map<string, Cassette>, past: seq<Step>, st: Settings, c: Cassette, stamp: string)
    ensures Lookup(Live(m, past + SaveTrace(st, c, stamp, NoFault)), c.hash) == Some(c)
    ensures c.hash !in Unindexed(past + SaveTrace(st, c, stamp, NoFault))
  {
    var n := |Payload(st, c)|;
    var a := past + [BeginSave(c, stamp), WriteTemp(n)];
    var b := a + [Commit(c)];
    var all := b + [IndexSave];
    assert past + SaveTrace(st, c, stamp, NoFault) == all;
    assert all[..|all| - 1] == b && b[..|b| - 1] == a;
  }

  /** A successful save is what LoadByHash yields from then on, through any crashes and restarts, until its
      hash is saved or deleted again. */
  lemma SavedIsLoaded(cfg: Config, past: seq<Step>, c: Cassette, stamp: string, later: seq<Step>)
    requires LeavesAlone(later, c.hash)
    requires var r := Run(cfg, FreshDisk, past + SaveTrace(cfg.settings, c, stamp, NoFault) + later);
             r.Some? && r.value.phase.Idle?
    ensures Load(cfg.settings, Run(cfg, FreshDisk, past + SaveTrace(cfg.settings, c, stamp, NoFault) + later).value,
            c.hash) == Some(c)
  {
    var before := past + SaveTrace(cfg.settings, c, stamp, NoFault);
    SaveLeavesIndexed(map[], past, cfg.settings, c, stamp);
    KeptAlive(map[], before, later, c.hash);
    StoreIsAMap(cfg, before + later, c.hash);
  }

  // Hashes of canonical requests are what the store needs.

  /** Hex-encoded SHA-256 on the texts that are ever hashed: 64 hex digits and no collision. */
  ghost predicate GoodDigest(digest: string -> string, hashed: iset<string>) {
    && Canonic.CollisionFree(digest, hashed)
    && forall text :: |digest(text)| == 64 && forall c | c in digest(text) :: '0' <= c <= '9' || 'a' <= c <= 'f'
  }

  /** The store's settings with the namespace that each hash stands for. */
  ghost function StoreFor(settings: Settings, digest: string -> string, hashed: iset<string>): Config {
    Config(settings, (h: string) => Canonic.NamespaceOf(digest, hashed, h))
  }

  /** A cassette recorded for a canonical request meets the store's two hypotheses about hashes: its hash
      determines its namespace, and its file stays under the base directory. The namespace must not lead out
      of it, which every namespace without a ".." component does not (PlainNamesDoNotClimb). */
  lemma RecordingIsLegal(settings: Settings, digest: string -> string,
      hashed: iset<string>, q: Canonic.CanonicRequest, c: Cassette)
    requires GoodDigest(digest, hashed) && Canonic.Encodable(q) && Canonic.Encode(q) in hashed
    requires c.hash == digest(Canonic.Encode(q)) && c.namespace == q.namespace
    requires !Climbs(RelativePath(q.namespace, c.hash, Extension(settings.format)))
    requires settings.codecs.RoundTrips(settings.format, c)
    ensures Legal(StoreFor(settings, digest, hashed), c)
  {
    Canonic.HashDeterminesNamespace(digest, hashed, q);
    assert '/' !in c.hash && |c.hash| == 64;
  }

  /** Namespaces without a ".." component never lead out. */
  lemma PlainNamespacesStay(settings: Settings, digest: string -> string,
      hashed: iset<string>, namespace: string, text: string)
    requires GoodDigest(digest, hashed) && forall i | 0 <= i < |Split(namespace)| :: Split(namespace)[i] != ".."
    ensures !Climbs(RelativePath(namespace, digest(text), Extension(settings.format)))
  {
    assert '.' !in digest(text) && '/' !in digest(text) && |digest(text)| == 64;
    assert '/' !in Extension(settings.format) by { assert Extension(settings.format) in {".json", ".yaml"}; }
    PlainNamesDoNotClimb(namespace, digest(text), Extension(settings.format));
  }

  /** The answer to the request with text `text` was recorded after `past`, and later steps left that alone. */
  ghost predicate WasRecorded(settings: Settings, digest: string -> string,
      hashed: iset<string>, text: string, namespace: string,
                              r: Request, env: Environment, room: Option<nat>, past: seq<Step>, later: seq<Step>) {
    && GoodDigest(digest, hashed) && text in hashed
    && r.hash == digest(text) && r.namespace == namespace
    && !Climbs(RelativePath(namespace, r.hash, Extension(settings.format)))
    && env.upstream.Answer? && RecordedFor(r, env, room).Some?
    && settings.codecs.RoundTrips(settings.format, RecordedFor(r, env, room).value)
    && LeavesAlone(later, r.hash)
    && var end := EndOf(settings, digest, hashed, r, env, room, past, later); end.Some? && end.value.phase.Idle?
  }

  ghost function EndOf(settings: Settings, digest: string -> string, hashed: iset<string>,
                       r: Request, env: Environment, room: Option<nat>,
                       past: seq<Step>, later: seq<Step>): Option<State>
    requires env.upstream.Answer? && RecordedFor(r, env, room).Some?
  {
    Run(StoreFor(settings, digest, hashed), FreshDisk,
        past + SaveTrace(settings, RecordedFor(r, env, room).value, env.stamp, NoFault) + later)
  }

  /** What was recorded for a canonical request is loaded under its hash from then on, and is served with
      the recorded status and bytes. */
  lemma RecordedIsReplayed(settings: Settings, digest: string -> string,
      hashed: iset<string>, q: Canonic.CanonicRequest,
                           r: Request, env: Environment, room: Option<nat>, past: seq<Step>, later: seq<Step>)
    requires WasRecorded(settings, digest, hashed, Canonic.Encode(q), q.namespace, r, env, room, past, later)
    requires Canonic.Encodable(q)
    ensures var c, up := RecordedFor(r, env, room).value, env.upstream;
            && Legal(StoreFor(settings, digest, hashed), c)
            && Load(settings, EndOf(settings, digest, hashed, r, env, room, past, later).value,
               digest(Canonic.Encode(q))) == Some(c)
            && (up.status != 0 ==> StatusOf(c) == up.status)
            && (!up.isStream ==> ServedBytes(c, true) == up.data)
            && (up.isStream && Accepted(Lines(up.data), room) == |Lines(up.data)| && up.ending == EndOfStream ==>
                  ServedBytes(c, true) == up.data)
            && (up.isStream ==> IsPrefix(ServedBytes(c, true), Fitting(up.data, room)))
  {
    var cfg, c := StoreFor(settings, digest, hashed), RecordedFor(r, env, room).value;
    RecordingServesItsAnswer(r, env, room);
    RecordingIsLegal(settings, digest, hashed, q, c);
    SavedIsLoaded(cfg, past, c, env.stamp, later);
  }

  /** A Prune at any later time removes a recording exactly if its clock reading is before the threshold, as
      long as its file or its index entry can be removed; otherwise it loads as before. */
  lemma PruneSparesIff(settings: Settings, digest: string -> string, hashed: iset<string>, q: Canonic.CanonicRequest,
                       r: Request, env: Environment, room: Option<nat>, past: seq<Step>, later: seq<Step>,
                       walk: seq<Path>, olderThan: int, faults: string -> DeleteFault)
    requires WasRecorded(settings, digest, hashed, Canonic.Encode(q), q.namespace, r, env, room, past, later)
    requires Canonic.Encodable(q)
    requires IsWalk(settings, EndOf(settings, digest, hashed, r, env, room, past, later).value.files, walk)
    ensures var s := EndOf(settings, digest, hashed, r, env, room, past, later).value;
            var after := AfterPrune(settings, s, Metas(settings, s.files, walk), olderThan, faults).state;
            Load(settings, after, r.hash) ==
              if env.recordedAt < olderThan && faults(r.hash) != DeleteFault(true, true) then None
              else RecordedFor(r, env, room)
  {
    var c, cfg := RecordedFor(r, env, room).value, StoreFor(settings, digest, hashed);
    RecordedIsReplayed(settings, digest, hashed, q, r, env, room, past, later);
    RecordingServesItsAnswer(r, env, room);
    Queries.PruneAfterRun(cfg, past + SaveTrace(settings, c, env.stamp, NoFault) + later, walk, olderThan, faults);
    var s := EndOf(settings, digest, hashed, r, env, room, past, later).value;
    assert r.hash in Queries.OldShown(settings, s, olderThan) <==> env.recordedAt < olderThan;
  }

  /** A second canonical request is answered from the recording of the first if the two are equal, and has
      another hash if they are not. */
  ghost predicate SharesExactly(settings: Settings, digest: string -> string,
      hashed: iset<string>, text: string, same: bool,
                                r: Request, env: Environment, room: Option<nat>, past: seq<Step>, later: seq<Step>)
    requires env.upstream.Answer? && RecordedFor(r, env, room).Some?
    requires EndOf(settings, digest, hashed, r, env, room, past, later).Some?
  {
    var c := RecordedFor(r, env, room).value;
    if same then Load(settings, EndOf(settings, digest, hashed, r, env, room, past, later).value, digest(text)) ==
        Some(c)
    else digest(text) != c.hash
  }

  lemma EqualRequestsShare(settings: Settings, digest: string -> string, hashed: iset<string>,
                           q1: Canonic.CanonicRequest, q2: Canonic.CanonicRequest,
                           r: Request, env: Environment, room: Option<nat>, past: seq<Step>, later: seq<Step>)
    requires WasRecorded(settings, digest, hashed, Canonic.Encode(q1), q1.namespace, r, env, room, past, later)
    requires Canonic.Encodable(q1) && Canonic.Encodable(q2) && Canonic.Encode(q2) in hashed
    ensures SharesExactly(settings, digest, hashed, Canonic.Encode(q2), q1 == q2, r, env, room, past, later)
  {
    RecordedIsReplayed(settings, digest, hashed, q1, r, env, room, past, later);
    RecordingServesItsAnswer(r, env, room);
    Canonic.HashIdentifies(digest, hashed, q1, q2);
  }

  /** The bytes that are hashed for an accepted body. */
  function OpenAIText(fl: CanonicalJson.Floats, req: Option<OpenAI.HttpRequest>, body: string): string
    requires OpenAI.ParseBody(fl, body).Some?
  {
    Canonic.Encode(OpenAI.CanonicOf(fl, req, OpenAI.ParseBody(fl, body).value))
  }

  function AnthropicText(fl: CanonicalJson.Floats, req: Option<OpenAI.HttpRequest>, body: string): string
    requires Anthropic.ParseBody(fl, body).Some?
  {
    Canonic.Encode(Anthropic.CanonicOf(fl, req, Anthropic.ParseBody(fl, body).value))
  }

  /** The promise, for any two accepted OpenAI bodies: after the answer to the first was recorded, and through
      any later steps that leave its recording alone, the second body is answered from that recording if the
      bodies are equivalent, and has another hash if they are not. */
  lemma EquivalentBodiesShareRecordings(fl: CanonicalJson.Floats,
      settings: Settings, digest: string -> string, hashed: iset<string>,
                                        req: Option<OpenAI.HttpRequest>, body1: string, body2: string,
                                        r: Request, env: Environment,
                                        room: Option<nat>, past: seq<Step>, later: seq<Step>)
    requires fl.Sound() && OpenAI.ParseBody(fl, body1).Some? && OpenAI.ParseBody(fl, body2).Some?
    requires WasRecorded(settings, digest, hashed, OpenAIText(fl, req, body1),
             OpenAI.NamespaceHeader(req), r, env, room, past, later)
    requires OpenAIText(fl, req, body2) in hashed
    ensures SharesExactly(settings, digest, hashed, OpenAIText(fl, req, body2),
                          OpenAI.Equivalent(fl, OpenAI.ParseBody(fl, body1).value, OpenAI.ParseBody(fl, body2).value),
                          r, env, room, past, later)
  {
    var p1, p2 := OpenAI.ParseBody(fl, body1).value, OpenAI.ParseBody(fl, body2).value;
    OpenAI.ParsedIsUnmarshalled(fl, body1);
    OpenAI.ParsedIsUnmarshalled(fl, body2);
    OpenAI.CanonicIsEncodable(fl, req, body1);
    OpenAI.CanonicIsEncodable(fl, req, body2);
    OpenAI.CanonicAlikeIffEquivalent(fl, req, p1, p2);
    EqualRequestsShare(settings, digest, hashed, OpenAI.CanonicOf(fl, req, p1),
      OpenAI.CanonicOf(fl, req, p2), r, env, room, past, later);
  }

  /** The same promise for Anthropic bodies. */
  lemma EquivalentConversationsShareRecordings(fl: CanonicalJson.Floats,
      settings: Settings, digest: string -> string, hashed: iset<string>,
                                               req: Option<OpenAI.HttpRequest>, body1: string, body2: string,
                                               r: Request, env: Environment,
                                               room: Option<nat>, past: seq<Step>, later: seq<Step>)
    requires fl.Sound() && Anthropic.ParseBody(fl, body1).Some? && Anthropic.ParseBody(fl, body2).Some?
    requires WasRecorded(settings, digest, hashed, AnthropicText(fl, req, body1),
             OpenAI.NamespaceHeader(req), r, env, room, past, later)
    requires AnthropicText(fl, req, body2) in hashed
    ensures SharesExactly(settings, digest, hashed, AnthropicText(fl, req, body2),
                          Conversation.Equivalent(Anthropic.ParseBody(fl, body1).value,
                          Anthropic.ParseBody(fl, body2).value),
                          r, env, room, past, later)
  {
    var p1, p2 := Anthropic.ParseBody(fl, body1).value, Anthropic.ParseBody(fl, body2).value;
    Conversation.ParsedIsUnmarshalled(fl, body1);
    Conversation.ParsedIsUnmarshalled(fl, body2);
    Anthropic.CanonicIsEncodable(fl, req, body1);
    Anthropic.CanonicIsEncodable(fl, req, body2);
    Conversation.CanonicAlikeIffEquivalent(fl, req, p1, p2);
    EqualRequestsShare(settings, digest, hashed, Anthropic.CanonicOf(fl, req, p1),
      Anthropic.CanonicOf(fl, req, p2), r, env, room, past, later);
  }

  /** Requests in different namespaces never share a hash, hence never a recording. */
  lemma NamespacesAreIsolated(fl: CanonicalJson.Floats, digest: string -> string, hashed: iset<string>,
                              req1: Option<OpenAI.HttpRequest>,
                              req2: Option<OpenAI.HttpRequest>, body1: string, body2: string)
    requires fl.Sound() && GoodDigest(digest, hashed) && OpenAI.NamespaceHeader(req1) != OpenAI.NamespaceHeader(req2)
    requires OpenAI.ParseBody(fl, body1).Some? && OpenAI.ParseBody(fl, body2).Some?
    requires OpenAIText(fl, req1, body1) in hashed && OpenAIText(fl, req2, body2) in hashed
    ensures digest(OpenAIText(fl, req1, body1)) != digest(OpenAIText(fl, req2, body2))
  {
    OpenAI.CanonicIsEncodable(fl, req1, body1);
    OpenAI.CanonicIsEncodable(fl, req2, body2);
    Canonic.HashIdentifies(digest, hashed, OpenAI.CanonicOf(fl, req1, OpenAI.ParseBody(fl, body1).value),
                           OpenAI.CanonicOf(fl, req2, OpenAI.ParseBody(fl, body2).value));
  }
}
