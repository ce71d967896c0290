/** Auto mode under concurrency (pkg/proxy/handler.go) over the store machine: look the hash up, and on a
    miss forward and save.

    A lookup takes the store's lock, so it sees an idle store. A save, with any failure, goes through the
    machine's single steps; deletes, prunes, rebuilds, crashes and reopenings are whatever other steps the
    machine allows. Between lookup and forward there is no lock and no single-flight, so moves of different
    requests interleave freely. */
module AutoMode {
  import opened Wrappers
  import opened Cassettes
  import opened Index
  import opened StoreMachine
  import opened StoreTheorems

  datatype Progress =
    | Missed(hash: string)
    | Waiting(hash: string)
    | Answered(c: Cassette)
    | Done

  datatype Event =
    | LookedUp(hash: string, found: Option<Cassette>)
    | Forwarded(hash: string)
    | Stored(step: Step)

  datatype Proxy = Proxy(store: State, requests: map<nat, Progress>, log: seq<Event>)

  datatype Move =
    | Arrive(id: nat, hash: string)
    | Forward(id: nat)
    | GiveUp(id: nat)
    | Answer(id: nat, c: Cassette)
    | StartSave(id: nat, stamp: string)
    | AbortSave(id: nat)
    | StoreMove(step: Step)

  /** GiveUp covers a missing route, an unreachable upstream and an unreadable answer; AbortSave a directory
      that cannot be made. */
  ghost predicate Allowed(cfg: Config, s: Proxy, move: Move) {
    match move
    case Arrive(id, _) => id !in s.requests && s.store.phase.Idle?
    case Forward(id) => id in s.requests && s.requests[id].Missed?
    case GiveUp(id) => id in s.requests && (s.requests[id].Missed? || s.requests[id].Waiting?)
    case Answer(id, c) => id in s.requests && s.requests[id] == Waiting(c.hash)
    case StartSave(id, stamp) =>
      id in s.requests && s.requests[id].Answered? && Enabled(cfg, s.store, BeginSave(s.requests[id].c, stamp))
    case AbortSave(id) => id in s.requests && s.requests[id].Answered?
    case StoreMove(step) => !step.BeginSave? && Enabled(cfg, s.store, step)
  }

  ghost function WithStep(cfg: Config, s: Proxy, requests: map<nat, Progress>, step: Step): Proxy
    requires Enabled(cfg, s.store, step)
  {
    Proxy(Apply(cfg, s.store, step), requests, s.log + [Stored(step)])
  }

  /** A crash ends all requests. */
  ghost function After(cfg: Config, s: Proxy, move: Move): Proxy
    requires Allowed(cfg, s, move)
  {
    match move
    case Arrive(id, hash) =>
      var found := Load(cfg.settings, s.store, hash);
      s.(requests := s.requests[id := if found.Some? then Done else Missed(hash)],
        log := s.log + [LookedUp(hash, found)])
    case Forward(id) =>
      s.(requests := s.requests[id := Waiting(s.requests[id].hash)], log := s.log + [Forwarded(s.requests[id].hash)])
    case GiveUp(id) => s.(requests := s.requests[id := Done])
    case Answer(id, c) => s.(requests := s.requests[id := Answered(c)])
    case StartSave(id, stamp) => WithStep(cfg, s, s.requests[id := Done], BeginSave(s.requests[id].c, stamp))
    case AbortSave(id) => s.(requests := s.requests[id := Done])
    case StoreMove(step) =>
      WithStep(cfg, s, if step.Crash? then map id | id in s.requests :: Done else s.requests, step)
  }

  const Start := Proxy(FreshDisk, map[], [])

  ghost function Play(cfg: Config, moves: seq<Move>): Option<Proxy> {
    if moves == [] then Some(Start)
    else
      match Play(cfg, moves[..|moves| - 1])
      case None => None
      case Some(s) => var move := moves[|moves| - 1]; if Allowed(cfg, s, move) then Some(After(cfg, s, move)) else None
  }

  // Reading a log.

  /** The store's own steps. */
  function StoreSteps(log: seq<Event>): seq<Step> {
    if log == [] then []
    else StoreSteps(log[..|log| - 1]) + if log[|log| - 1].Stored? then [log[|log| - 1].step] else []
  }

  function Forwards(log: seq<Event>, hash: string): nat {
    if log == [] then 0 else Forwards(log[..|log| - 1], hash) + if log[|log| - 1] == Forwarded(hash) then 1 else 0
  }

  predicate IsLookup(e: Event, hash: string) {
    e.LookedUp? && e.hash == hash
  }

  function Lookups(log: seq<Event>, hash: string): nat {
    if log == [] then 0 else Lookups(log[..|log| - 1], hash) + if IsLookup(log[|log| - 1], hash) then 1 else 0
  }

  function Misses(log: seq<Event>, hash: string): nat {
    if log == [] then 0 else Misses(log[..|log| - 1], hash) + if log[|log| - 1] == LookedUp(hash, None) then 1 else 0
  }

  // Invariants of every run.

  /** Requests that missed and have not forwarded yet. */
  function Pending(requests: map<nat, Progress>, hash: string): set<nat> {
    set id | id in requests && requests[id] == Missed(hash)
  }

  /** A lookup after `log` finds an idle store and answers what that store loads. */
  ghost predicate HonestLookup(cfg: Config, log: seq<Event>, e: Event) {
    e.LookedUp? ==>
      var r := Run(cfg, FreshDisk, StoreSteps(log));
      r.Some? && r.value.phase.Idle? && e.found == Load(cfg.settings, r.value, e.hash)
  }

  ghost predicate Honest(cfg: Config, log: seq<Event>) {
    forall i | 0 <= i < |log| :: HonestLookup(cfg, log[..i], log[i])
  }

  ghost predicate Counts(s: Proxy, hash: string) {
    Forwards(s.log, hash) + |Pending(s.requests, hash)| <= Misses(s.log, hash)
  }

  ghost predicate ProxyInv(cfg: Config, s: Proxy) {
    Run(cfg, FreshDisk, StoreSteps(s.log)) == Some(s.store) && Honest(cfg, s.log) && forall hash :: Counts(s, hash)
  }

  lemma HonestSnoc(cfg: Config, log: seq<Event>, e: Event)
    requires Honest(cfg, log) && HonestLookup(cfg, log, e)
    ensures Honest(cfg, log + [e])
  {
    var log' := log + [e];
    forall i | 0 <= i < |log'| ensures HonestLookup(cfg, log'[..i], log'[i]) {
      if i < |log| { assert log'[..i] == log[..i] && log'[i] == log[i]; } else { assert log'[..i] == log; }
    }
  }

  lemma LogSnoc(log: seq<Event>, e: Event, hash: string)
    ensures StoreSteps(log + [e]) == StoreSteps(log) + if e.Stored? then [e.step] else []
    ensures Forwards(log + [e], hash) == Forwards(log, hash) + if e == Forwarded(hash) then 1 else 0
    ensures Misses(log + [e], hash) == Misses(log, hash) + if e == LookedUp(hash, None) then 1 else 0
    ensures Lookups(log + [e], hash) == Lookups(log, hash) + if IsLookup(e, hash) then 1 else 0
  {
    assert (log + [e])[..|log|] == log;
  }

  /** Changing one request moves it into or out of the pending set. */
  lemma PendingUpdate(requests: map<nat, Progress>, id: nat, p: Progress, hash: string)
    ensures Pending(requests[id := p], hash) ==
            if p == Missed(hash) then Pending(requests, hash) + {id} else Pending(requests, hash) - {id}
  {
  }

  lemma CardinalityOfPart(ids: set<nat>, id: nat)
    ensures |ids - {id}| <= |ids|
  {
    if id in ids { assert ids == (ids - {id}) + {id}; } else { assert ids - {id} == ids; }
  }

  /** Settling a request adds none to the pending ones. */
  lemma SettleCounts(s: Proxy, store: State, id: nat, p: Progress, log: seq<Event>, hash: string)
    requires Counts(s, hash) && !p.Missed?
    requires Forwards(log, hash) == Forwards(s.log, hash) && Misses(log, hash) == Misses(s.log, hash)
    ensures Counts(Proxy(store, s.requests[id := p], log), hash)
  {
    PendingUpdate(s.requests, id, p, hash);
    CardinalityOfPart(Pending(s.requests, hash), id);
  }

  lemma ArriveCounts(cfg: Config, s: Proxy, id: nat, h: string, hash: string)
    requires Counts(s, hash) && Allowed(cfg, s, Arrive(id, h))
    ensures Counts(After(cfg, s, Arrive(id, h)), hash)
  {
    var found := Load(cfg.settings, s.store, h);
    LogSnoc(s.log, LookedUp(h, found), hash);
    PendingUpdate(s.requests, id, if found.Some? then Done else Missed(h), hash);
    assert id !in Pending(s.requests, hash);
  }

  lemma ForwardCounts(cfg: Config, s: Proxy, id: nat, hash: string)
    requires Counts(s, hash) && Allowed(cfg, s, Forward(id))
    ensures Counts(After(cfg, s, Forward(id)), hash)
  {
    var h := s.requests[id].hash;
    LogSnoc(s.log, Forwarded(h), hash);
    PendingUpdate(s.requests, id, Waiting(h), hash);
    if h == hash { assert id in Pending(s.requests, hash); }
  }

  lemma StoreCounts(cfg: Config, s: Proxy, step: Step, hash: string)
    requires Counts(s, hash) && Allowed(cfg, s, StoreMove(step))
    ensures Counts(After(cfg, s, StoreMove(step)), hash)
  {
    LogSnoc(s.log, Stored(step), hash);
    if step.Crash? { assert Pending(map id | id in s.requests :: Done, hash) == {}; }
  }

  lemma MoveKeepsCounts(cfg: Config, s: Proxy, move: Move, hash: string)
    requires Counts(s, hash) && Allowed(cfg, s, move)
    ensures Counts(After(cfg, s, move), hash)
  {
    match move {
      case Arrive(id, h) => ArriveCounts(cfg, s, id, h, hash);
      case Forward(id) => ForwardCounts(cfg, s, id, hash);
      case GiveUp(id) => SettleCounts(s, s.store, id, Done, s.log, hash);
      case Answer(id, c) => SettleCounts(s, s.store, id, Answered(c), s.log, hash);
      case StartSave(id, stamp) =>
        var step := BeginSave(s.requests[id].c, stamp);
        LogSnoc(s.log, Stored(step), hash);
        SettleCounts(s, Apply(cfg, s.store, step), id, Done, s.log + [Stored(step)], hash);
      case AbortSave(id) => SettleCounts(s, s.store, id, Done, s.log, hash);
      case StoreMove(step) => StoreCounts(cfg, s, step, hash);
    }
  }

  lemma EventKeepsRun(cfg: Config, s: Proxy, store: State, e: Event)
    requires Run(cfg, FreshDisk, StoreSteps(s.log)) == Some(s.store) && Honest(cfg, s.log)
    requires if e.Stored? then Enabled(cfg, s.store, e.step) && store == Apply(cfg, s.store, e.step)
             else store == s.store
    requires e.LookedUp? ==> s.store.phase.Idle? && e.found == Load(cfg.settings, s.store, e.hash)
    ensures Run(cfg, FreshDisk, StoreSteps(s.log + [e])) == Some(store) && Honest(cfg, s.log + [e])
  {
    var steps := StoreSteps(s.log);
    LogSnoc(s.log, e, "");
    HonestSnoc(cfg, s.log, e);
    if e.Stored? { assert (steps + [e.step])[..|steps|] == steps; } else { assert steps + [] == steps; }
  }

  lemma MoveKeepsInv(cfg: Config, s: Proxy, move: Move)
    requires ProxyInv(cfg, s) && Allowed(cfg, s, move)
    ensures ProxyInv(cfg, After(cfg, s, move))
  {
    match move {
      case Arrive(id, h) => EventKeepsRun(cfg, s, s.store, LookedUp(h, Load(cfg.settings, s.store, h)));
      case Forward(id) => EventKeepsRun(cfg, s, s.store, Forwarded(s.requests[id].hash));
      case StartSave(id, stamp) =>
        var step := BeginSave(s.requests[id].c, stamp);
        EventKeepsRun(cfg, s, Apply(cfg, s.store, step), Stored(step));
      case StoreMove(step) => EventKeepsRun(cfg, s, Apply(cfg, s.store, step), Stored(step));
      case _ =>
    }
    forall hash ensures Counts(After(cfg, s, move), hash) { MoveKeepsCounts(cfg, s, move, hash); }
  }

  lemma {:induction false} PlayKeepsInv(cfg: Config, moves: seq<Move>)
    requires Play(cfg, moves).Some?
    ensures ProxyInv(cfg, Play(cfg, moves).value)
  {
    if moves == [] {
      forall hash ensures Counts(Start, hash) { assert Pending(Start.requests, hash) == {}; }
    } else {
      PlayKeepsInv(cfg, moves[..|moves| - 1]);
      MoveKeepsInv(cfg, Play(cfg, moves[..|moves| - 1]).value, moves[|moves| - 1]);
    }
  }

  // What lookups find.

  /** In every interleaving a lookup answers from the plain map of renames and removals before it; only a hash
      whose index update or removal failed since the last reopening may be missed although it is live. So what
      a hit serves is the newest cassette renamed into place for its hash, whether or not its Save reported an
      error. */
  lemma LookupsAnswerFromTheMap(cfg: Config, moves: seq<Move>, i: nat)
    requires Play(cfg, moves).Some? && i < |Play(cfg, moves).value.log| && Play(cfg, moves).value.log[i].LookedUp?
    ensures var log := Play(cfg, moves).value.log;
            var hash, found, steps := log[i].hash, log[i].found, StoreSteps(log[..i]);
            && (found == Lookup(Live(map[], steps), hash) || (hash in Unindexed(steps) && found == None))
            && (found.Some? ==> found.value.hash == hash && Commit(found.value) in steps)
  {
    PlayKeepsInv(cfg, moves);
    var log := Play(cfg, moves).value.log;
    assert HonestLookup(cfg, log[..i], log[i]);
    StoreIsAMap(cfg, StoreSteps(log[..i]), log[i].hash);
    if log[i].found.Some? { LiveWasCommitted(StoreSteps(log[..i]), log[i].hash); }
  }

  lemma {:induction false} StepsAppend(a: seq<Event>, b: seq<Event>)
    ensures StoreSteps(a + b) == StoreSteps(a) + StoreSteps(b)
  {
    if b == [] { assert a + b == a && StoreSteps(a) + [] == StoreSteps(a); }
    else {
      var n := |b| - 1;
      StepsAppend(a, b[..n]);
      assert (a + b)[..|a + b| - 1] == a + b[..n];
      assert StoreSteps(a) + (StoreSteps(b[..n]) + if b[n].Stored? then [b[n].step] else []) ==
             StoreSteps(a) + StoreSteps(b[..n]) + if b[n].Stored? then [b[n].step] else [];
    }
  }

  lemma StepsSplit(log: seq<Event>, k: nat, i: nat)
    requires k <= i <= |log|
    ensures StoreSteps(log[..i]) == StoreSteps(log[..k]) + StoreSteps(log[k..i])
  {
    StepsAppend(log[..k], log[k..i]);
    assert log[..i] == log[..k] + log[k..i];
  }

  /** After the first `k` events the store is idle and `hash` loads, as after a successful save or a hit. */
  ghost predicate Answers(cfg: Config, log: seq<Event>, k: nat, hash: string)
    requires k <= |log|
  {
    var r := Run(cfg, FreshDisk, StoreSteps(log[..k]));
    r.Some? && r.value.phase.Idle? && Load(cfg.settings, r.value, hash).Some?
  }

  /** A save that reports no error is such a moment, and so is a hit. */
  lemma SuccessfulSaveAnswers(cfg: Config, moves: seq<Move>, k: nat, c: Cassette)
    requires Play(cfg, moves).Some? && k < |Play(cfg, moves).value.log|
    requires var log := Play(cfg, moves).value.log; var r := Run(cfg, FreshDisk, StoreSteps(log[..k]));
             log[k] == Stored(IndexSave) && r.Some? && r.value.phase == Renamed(c)
    ensures Answers(cfg, Play(cfg, moves).value.log, k + 1, c.hash)
  {
    var log := Play(cfg, moves).value.log;
    LogSnoc(log[..k], log[k], "");
    assert log[..k + 1] == log[..k] + [log[k]];
    SuccessfulSaveLoads(cfg, StoreSteps(log[..k]), c);
  }

  lemma HitAnswers(cfg: Config, moves: seq<Move>, k: nat)
    requires Play(cfg, moves).Some? && k < |Play(cfg, moves).value.log|
    requires Play(cfg, moves).value.log[k].LookedUp? && Play(cfg, moves).value.log[k].found.Some?
    ensures Answers(cfg, Play(cfg, moves).value.log, k, Play(cfg, moves).value.log[k].hash)
  {
    PlayKeepsInv(cfg, moves);
    var log := Play(cfg, moves).value.log;
    assert HonestLookup(cfg, log[..k], log[k]);
  }

  lemma LookupHits(cfg: Config, log: seq<Event>, k: nat, i: nat, hash: string)
    requires Honest(cfg, log) && k <= i < |log| && IsLookup(log[i], hash)
    requires Answers(cfg, log, k, hash) && Spares(StoreSteps(log[k..i]), hash)
    ensures hash in Live(map[], StoreSteps(log[..i])) && log[i].found == Some(Live(map[], StoreSteps(log[..i]))[hash])
  {
    assert HonestLookup(cfg, log[..i], log[i]);
    StepsSplit(log, k, i);
    KeptHashLoads(cfg, StoreSteps(log[..k]), StoreSteps(log[k..i]), hash);
  }

  /** From a moment on at which a hash loads, every later lookup hits until the hash is deleted, whatever else
      happens: concurrent saves that succeed or fail after their rename, rebuilds, crashes and reopenings. It
      serves the newest cassette of the hash that was renamed into place. */
  lemma LaterLookupsHit(cfg: Config, moves: seq<Move>, k: nat, i: nat, hash: string)
    requires Play(cfg, moves).Some? && k <= i < |Play(cfg, moves).value.log|
    requires var log := Play(cfg, moves).value.log;
             IsLookup(log[i], hash) && Answers(cfg, log, k, hash) && Spares(StoreSteps(log[k..i]), hash)
    ensures var log := Play(cfg, moves).value.log;
            hash in Live(map[], StoreSteps(log[..i])) && log[i].found == Some(Live(map[], StoreSteps(log[..i]))[hash])
  {
    PlayKeepsInv(cfg, moves);
    LookupHits(cfg, Play(cfg, moves).value.log, k, i, hash);
  }

  // The bound on upstream calls.

  lemma {:induction false} MissesAreLookups(log: seq<Event>, hash: string)
    ensures Misses(log, hash) <= Lookups(log, hash)
  {
    if log != [] { MissesAreLookups(log[..|log| - 1], hash); }
  }

  lemma SparesPrefix(log: seq<Event>, k: nat, hash: string)
    requires k < |log| && Spares(StoreSteps(log[k..]), hash)
    ensures Spares(StoreSteps(log[k..|log| - 1]), hash)
  {
    var n := |log| - 1;
    assert log[k..] == log[k..n] + [log[n]];
    LogSnoc(log[k..n], log[n], hash);
  }

  lemma {:induction false} NoMissesAfter(cfg: Config, log: seq<Event>, k: nat, hash: string)
    requires Honest(cfg, log) && k <= |log| && Answers(cfg, log, k, hash) && Spares(StoreSteps(log[k..]), hash)
    ensures Misses(log, hash) == Misses(log[..k], hash)
  {
    var n := |log| - 1;
    if k == |log| { assert log[..k] == log; }
    else {
      SparesPrefix(log, k, hash);
      assert log[..n][k..] == log[k..n] && log[..n][..k] == log[..k];
      HonestFront(cfg, log);
      NoMissesAfter(cfg, log[..n], k, hash);
      if IsLookup(log[n], hash) { LookupHits(cfg, log, k, n, hash); }
    }
  }

  lemma HonestFront(cfg: Config, log: seq<Event>)
    requires log != [] && Honest(cfg, log)
    ensures Honest(cfg, log[..|log| - 1])
  {
    var front := log[..|log| - 1];
    forall i | 0 <= i < |front| ensures HonestLookup(cfg, front[..i], front[i]) {
      assert front[..i] == log[..i] && front[i] == log[i];
      assert HonestLookup(cfg, log[..i], log[i]);
    }
  }

  /** In every interleaving the upstream is called for a hash at most as often as requests looked it up before
      it first loaded, as after its first successful save, while it is not deleted after that; and if it never
      loads, at most as often as it is looked up. */
  lemma CallsAreBounded(cfg: Config, moves: seq<Move>, hash: string, k: nat)
    requires Play(cfg, moves).Some? && k <= |Play(cfg, moves).value.log|
    requires var log := Play(cfg, moves).value.log;
             k == |log| || (Answers(cfg, log, k, hash) && Spares(StoreSteps(log[k..]), hash))
    ensures var log := Play(cfg, moves).value.log; Forwards(log, hash) <= Lookups(log[..k], hash)
  {
    PlayKeepsInv(cfg, moves);
    var s := Play(cfg, moves).value;
    assert Counts(s, hash);
    if k == |s.log| { assert s.log[..k] == s.log; } else { NoMissesAfter(cfg, s.log, k, hash); }
    MissesAreLookups(s.log[..k], hash);
  }

  // The bound is reached: there is no single-flight.

  const OpenEmpty := [StoreMove(Reopen([], false)), StoreMove(EndRebuild)]

  const OpenedStore := State(map[], EmptyIndex, Idle, NoScan)

  function Arrivals(n: nat, hash: string): seq<Move> {
    if n == 0 then OpenEmpty else Arrivals(n - 1, hash) + [Arrive(n - 1, hash)]
  }

  function AllForward(n: nat): seq<Move> {
    if n == 0 then [] else AllForward(n - 1) + [Forward(n - 1)]
  }

  lemma PlaySnoc(cfg: Config, front: seq<Move>, s: Proxy, move: Move)
    requires Play(cfg, front) == Some(s) && Allowed(cfg, s, move)
    ensures Play(cfg, front + [move]) == Some(After(cfg, s, move))
  {
    assert (front + [move])[..|front|] == front;
  }

  /** Requests `from` up to `n` have missed and wait to forward, and no others are to come. */
  ghost predicate WaitingFrom(s: Proxy, from: nat, n: nat, hash: string) {
    && (forall id: nat | from <= id < n :: id in s.requests && s.requests[id] == Missed(hash))
    && (forall id: nat | id in s.requests :: id < n)
  }

  ghost predicate Tally(s: Proxy, forwards: nat, lookups: nat, hash: string) {
    Forwards(s.log, hash) == forwards && Lookups(s.log, hash) == lookups
  }

  lemma OpenEmptyPlays(cfg: Config, hash: string) returns (s: Proxy)
    ensures Play(cfg, OpenEmpty) == Some(s) && s.store == OpenedStore
            && Tally(s, 0, 0, hash) && WaitingFrom(s, 0, 0, hash)
  {
    var first, second := OpenEmpty[0], OpenEmpty[1];
    assert [first][..0] == [] && OpenEmpty == [] + [first] + [second];
    PlaySnoc(cfg, [], Start, first);
    var s1 := After(cfg, Start, first);
    PlaySnoc(cfg, [] + [first], s1, second);
    s := After(cfg, s1, second);
    LogSnoc([], Stored(first.step), hash);
    LogSnoc(s1.log, Stored(second.step), hash);
  }

  lemma ArriveOne(cfg: Config, s: Proxy, n: nat, hash: string)
    requires s.store == OpenedStore && Tally(s, 0, n, hash) && WaitingFrom(s, 0, n, hash)
    ensures Allowed(cfg, s, Arrive(n, hash))
    ensures var s' := After(cfg, s, Arrive(n, hash));
            s'.store == OpenedStore && Tally(s', 0, n + 1, hash) && WaitingFrom(s', 0, n + 1, hash)
  {
    LogSnoc(s.log, LookedUp(hash, None), hash);
  }

  lemma {:induction false} ArrivalsPlay(cfg: Config, n: nat, hash: string) returns (s: Proxy)
    ensures Play(cfg, Arrivals(n, hash)) == Some(s) && s.store == OpenedStore
            && Tally(s, 0, n, hash) && WaitingFrom(s, 0, n, hash)
  {
    if n == 0 { s := OpenEmptyPlays(cfg, hash); }
    else {
      var before := ArrivalsPlay(cfg, n - 1, hash);
      ArriveOne(cfg, before, n - 1, hash);
      PlaySnoc(cfg, Arrivals(n - 1, hash), before, Arrive(n - 1, hash));
      s := After(cfg, before, Arrive(n - 1, hash));
    }
  }

  lemma ForwardOne(cfg: Config, s: Proxy, k: nat, n: nat, hash: string)
    requires k < n && Tally(s, k, n, hash) && WaitingFrom(s, k, n, hash)
    ensures Allowed(cfg, s, Forward(k))
    ensures Tally(After(cfg, s, Forward(k)), k + 1, n, hash) && WaitingFrom(After(cfg, s, Forward(k)), k + 1, n, hash)
  {
    assert k in s.requests && s.requests[k] == Missed(hash);
    LogSnoc(s.log, Forwarded(hash), hash);
    var requests := s.requests[k := Waiting(hash)];
    assert forall id: nat | k + 1 <= id < n :: requests[id] == s.requests[id];
  }

  lemma {:induction false} ForwardsPlay(cfg: Config, n: nat, k: nat, hash: string) returns (s: Proxy)
    requires k <= n
    ensures Play(cfg, Arrivals(n, hash) + AllForward(k)) == Some(s)
            && Tally(s, k, n, hash) && WaitingFrom(s, k, n, hash)
  {
    if k == 0 {
      s := ArrivalsPlay(cfg, n, hash);
      assert Arrivals(n, hash) + [] == Arrivals(n, hash);
    } else {
      var before := ForwardsPlay(cfg, n, k - 1, hash);
      var front := Arrivals(n, hash) + AllForward(k - 1);
      assert front + [Forward(k - 1)] == Arrivals(n, hash) + AllForward(k);
      ForwardOne(cfg, before, k - 1, n, hash);
      PlaySnoc(cfg, front, before, Forward(k - 1));
      s := After(cfg, before, Forward(k - 1));
    }
  }

  /** For any number of simultaneous requests the bound is attained: all of them call the upstream. */
  lemma NoSingleFlight(cfg: Config, n: nat, hash: string) returns (moves: seq<Move>)
    ensures Play(cfg, moves).Some?
    ensures Forwards(Play(cfg, moves).value.log, hash) == n == Lookups(Play(cfg, moves).value.log, hash)
  {
    var s := ForwardsPlay(cfg, n, n, hash);
    moves := Arrivals(n, hash) + AllForward(n);
  }
}
