/** Namespace queries and pruning (pkg/store/store.go): what they return and remove, alone and while
    other operations run between their parts. */
module Queries {
  import opened Wrappers
  import opened Paths
  import opened Cassettes
  import opened Index
  import opened StoreMachine
  import opened StoreTheorems
  import opened Rebuild
  import opened DiskStore

  /** The state of a run after its first `t` steps. */
  ghost function At(cfg: Config, steps: seq<Step>, t: nat): State
    requires t <= |steps| && Run(cfg, FreshDisk, steps).Some?
  {
    RunPrefix(cfg, FreshDisk, steps, t);
    Run(cfg, FreshDisk, steps[..t]).value
  }

  lemma RunPrefix(cfg: Config, s: State, steps: seq<Step>, t: nat)
    requires t <= |steps| && Run(cfg, s, steps).Some?
    ensures Run(cfg, s, steps[..t]).Some?
  {
    RunAppend(cfg, s, steps[..t], steps[t..]);
    assert steps == steps[..t] + steps[t..];
  }

  lemma AtInv(cfg: Config, steps: seq<Step>, t: nat)
    requires t <= |steps| && Run(cfg, FreshDisk, steps).Some?
    ensures Inv(cfg, At(cfg, steps, t), Live(map[], steps[..t]), Unindexed(steps[..t]))
  {
    RunPrefix(cfg, FreshDisk, steps, t);
    FreshDiskInv(cfg);
    RunKeepsInv(cfg, FreshDisk, map[], steps[..t]);
  }

  // What a namespace query collects.

  /** Every collected cassette is the one loaded for some listed hash. */
  lemma {:induction false} CollectedFrom(st: Settings, views: seq<State>, hashes: seq<string>, i: nat) returns (j: nat)
    requires |views| == |hashes| && i < |Collected(st, views, hashes)|
    ensures j < |hashes| && Load(st, views[j], hashes[j]) == Some(Collected(st, views, hashes)[i])
  {
    var n := |hashes| - 1;
    if i < |Collected(st, views[..n], hashes[..n])| { j := CollectedFrom(st, views[..n], hashes[..n], i); }
    else { j := n; }
  }

  /** Every hash that loads is collected. */
  lemma {:induction false} CollectedHas(st: Settings, views: seq<State>, hashes: seq<string>, j: nat) returns (i: nat)
    requires |views| == |hashes| && j < |hashes| && Load(st, views[j], hashes[j]).Some?
    ensures i < |Collected(st, views, hashes)| && Some(Collected(st, views, hashes)[i]) == Load(st, views[j], hashes[j])
  {
    var n := |hashes| - 1;
    if j < n { i := CollectedHas(st, views[..n], hashes[..n], j); }
    else { i := |Collected(st, views[..n], hashes[..n])|; }
  }

  ghost predicate DistinctHashes(cs: seq<Cassette>) {
    forall i, j | 0 <= i < j < |cs| :: cs[i].hash != cs[j].hash
  }

  /** Loading yields cassettes of the hash asked for. */
  ghost predicate Faithful(st: Settings, views: seq<State>, hashes: seq<string>)
    requires |views| == |hashes|
  {
    forall j | 0 <= j < |hashes| && Load(st, views[j], hashes[j]).Some? ::
        Load(st, views[j], hashes[j]).value.hash == hashes[j]
  }

  lemma {:induction false} CollectedDistinct(st: Settings, views: seq<State>, hashes: seq<string>)
    requires |views| == |hashes| && NoDuplicates(hashes) && Faithful(st, views, hashes)
    ensures DistinctHashes(Collected(st, views, hashes))
  {
    if hashes != [] {
      var n := |hashes| - 1;
      var before := Collected(st, views[..n], hashes[..n]);
      CollectedDistinct(st, views[..n], hashes[..n]);
      forall i | 0 <= i < |before| ensures before[i].hash != hashes[n] {
        var j := CollectedFrom(st, views[..n], hashes[..n], i);
        assert Load(st, views[j], hashes[j]) == Some(before[i]);
      }
    }
  }

  /** The hashes a query of `ns` starts from, and the states it loads them from at `times`. */
  ghost function HashesAt(cfg: Config, steps: seq<Step>, t0: nat, ns: string): seq<string>
    requires t0 <= |steps| && Run(cfg, FreshDisk, steps).Some?
  {
    Listed(At(cfg, steps, t0).index, ns)
  }

  ghost function ViewsAt(cfg: Config, steps: seq<Step>, times: seq<nat>): seq<State>
    requires Run(cfg, FreshDisk, steps).Some? && forall t | t in times :: t <= |steps|
  {
    assert forall i | 0 <= i < |times| :: times[i] in times;
    seq(|times|, i requires 0 <= i < |times| => At(cfg, steps, times[i]))
  }

  ghost predicate QueryDuring(cfg: Config, steps: seq<Step>, t0: nat, times: seq<nat>, ns: string) {
    && Run(cfg, FreshDisk, steps).Some? && t0 <= |steps|
    && |times| == |HashesAt(cfg, steps, t0, ns)|
    && (forall t | t in times :: t0 <= t <= |steps|)
  }

  ghost function QueryResult(cfg: Config, steps: seq<Step>, t0: nat, times: seq<nat>, ns: string): seq<Cassette>
    requires QueryDuring(cfg, steps, t0, times, ns)
  {
    Collected(cfg.settings, ViewsAt(cfg, steps, times), HashesAt(cfg, steps, t0, ns))
  }

  /** LoadByNamespace holds no lock between its loads. Whatever runs meanwhile, each cassette it returns
      was the live one of its hash, in that namespace, at some moment of the call. */
  lemma NamespaceResultsWereLive(cfg: Config, steps: seq<Step>, t0: nat, times: seq<nat>, ns: string, i: nat)
      returns (t: nat)
    requires QueryDuring(cfg, steps, t0, times, ns)
    requires i < |QueryResult(cfg, steps, t0, times, ns)|
    ensures t0 <= t <= |steps|
    ensures var c := QueryResult(cfg, steps, t0, times, ns)[i];
            c.namespace == ns && Lookup(Live(map[], steps[..t]), c.hash) == Some(c)
  {
    var hashes := HashesAt(cfg, steps, t0, ns);
    var j := CollectedFrom(cfg.settings, ViewsAt(cfg, steps, times), hashes, i);
    t := times[j];
    assert t in times;
    AtInv(cfg, steps, t);
    AtInv(cfg, steps, t0);
    LoadIsLookup(cfg, At(cfg, steps, t), Live(map[], steps[..t]), Unindexed(steps[..t]), hashes[j]);
    assert hashes[j] in Listed(At(cfg, steps, t0).index, ns);
  }

  ghost predicate Returned(cfg: Config, steps: seq<Step>, t0: nat, times: seq<nat>, ns: string, hash: string)
    requires QueryDuring(cfg, steps, t0, times, ns)
  {
    exists i :: 0 <= i < |QueryResult(cfg, steps, t0, times, ns)|
      && QueryResult(cfg, steps, t0, times, ns)[i].hash == hash
  }

  lemma QueryIsFaithful(cfg: Config, steps: seq<Step>, t0: nat, times: seq<nat>, ns: string)
    requires QueryDuring(cfg, steps, t0, times, ns)
    ensures Faithful(cfg.settings, ViewsAt(cfg, steps, times), HashesAt(cfg, steps, t0, ns))
  {
    var hashes, views := HashesAt(cfg, steps, t0, ns), ViewsAt(cfg, steps, times);
    forall j | 0 <= j < |hashes| && Load(cfg.settings, views[j], hashes[j]).Some?
      ensures Load(cfg.settings, views[j], hashes[j]).value.hash == hashes[j]
    {
      assert times[j] in times;
      AtInv(cfg, steps, times[j]);
      LoadIsLookup(cfg, views[j], Live(map[], steps[..times[j]]), Unindexed(steps[..times[j]]), hashes[j]);
    }
  }

  lemma ReturnedIsListed(cfg: Config, steps: seq<Step>, t0: nat, times: seq<nat>, ns: string, hash: string)
    requires QueryDuring(cfg, steps, t0, times, ns) && Returned(cfg, steps, t0, times, ns, hash)
    ensures hash in HashesAt(cfg, steps, t0, ns)
  {
    var hashes, views := HashesAt(cfg, steps, t0, ns), ViewsAt(cfg, steps, times);
    QueryIsFaithful(cfg, steps, t0, times, ns);
    var i :| 0 <= i < |QueryResult(cfg, steps, t0, times, ns)|
      && QueryResult(cfg, steps, t0, times, ns)[i].hash == hash;
    var j := CollectedFrom(cfg.settings, views, hashes, i);
    assert hashes[j] == hash;
  }

  lemma IndexOf(hashes: seq<string>, hash: string) returns (j: nat)
    requires hash in hashes
    ensures j < |hashes| && hashes[j] == hash
  {
    j :| 0 <= j < |hashes| && hashes[j] == hash;
  }

  lemma ListedIsReturned(cfg: Config, steps: seq<Step>, t0: nat, times: seq<nat>, ns: string, hash: string)
    requires QueryDuring(cfg, steps, t0, times, ns)
    requires hash in HashesAt(cfg, steps, t0, ns) && forall t | t in times ::
             Load(cfg.settings, At(cfg, steps, t), hash).Some?
    ensures Returned(cfg, steps, t0, times, ns, hash)
  {
    var hashes, views := HashesAt(cfg, steps, t0, ns), ViewsAt(cfg, steps, times);
    var j := IndexOf(hashes, hash);
    assert times[j] in times && views[j] == At(cfg, steps, times[j]);
    QueryIsFaithful(cfg, steps, t0, times, ns);
    var i := CollectedHas(cfg.settings, views, hashes, j);
    assert QueryResult(cfg, steps, t0, times, ns)[i].hash == hash;
  }

  /** After `t` steps `hash` is live, and no failure, crash or unfinished save keeps it out of the index. */
  ghost predicate Settled(cfg: Config, steps: seq<Step>, t: nat, hash: string)
    requires t <= |steps| && Run(cfg, FreshDisk, steps).Some?
  {
    && hash in Live(map[], steps[..t]) && hash !in Unindexed(steps[..t])
    && var phase := At(cfg, steps, t).phase;
       !phase.Down? && !phase.Opening? && !(phase.Renamed? && phase.c.hash == hash)
  }

  lemma SettledIsIndexed(cfg: Config, steps: seq<Step>, t: nat, hash: string)
    requires t <= |steps| && Run(cfg, FreshDisk, steps).Some? && Settled(cfg, steps, t, hash)
    ensures Load(cfg.settings, At(cfg, steps, t), hash) == Some(Live(map[], steps[..t])[hash])
    ensures cfg.namespaceOf(hash) != "" ==> hash in Listed(At(cfg, steps, t).index, cfg.namespaceOf(hash))
  {
    AtInv(cfg, steps, t);
    assert Covered(cfg, At(cfg, steps, t), Unindexed(steps[..t]), hash);
    LoadIsLookup(cfg, At(cfg, steps, t), Live(map[], steps[..t]), Unindexed(steps[..t]), hash);
  }

  /** No hash is returned twice, and a hash of a nonempty namespace that is live and settled when the query
      starts and at its loads is returned, whatever happens to other hashes meanwhile. */
  lemma NamespaceReturnsSteadyHashesOnce(cfg: Config, steps: seq<Step>,
      t0: nat, times: seq<nat>, ns: string, hash: string)
    requires QueryDuring(cfg, steps, t0, times, ns)
    ensures DistinctHashes(QueryResult(cfg, steps, t0, times, ns))
    ensures ns != "" && cfg.namespaceOf(hash) == ns
            && Settled(cfg, steps, t0, hash) && (forall t | t in times :: Settled(cfg, steps, t, hash))
            ==> Returned(cfg, steps, t0, times, ns, hash)
  {
    AtInv(cfg, steps, t0);
    QueryIsFaithful(cfg, steps, t0, times, ns);
    CollectedDistinct(cfg.settings, ViewsAt(cfg, steps, times), HashesAt(cfg, steps, t0, ns));
    if ns != "" && cfg.namespaceOf(hash) == ns
       && Settled(cfg, steps, t0, hash) && (forall t | t in times :: Settled(cfg, steps, t, hash)) {
      SettledIsIndexed(cfg, steps, t0, hash);
      forall t | t in times ensures Load(cfg.settings, At(cfg, steps, t), hash).Some? {
        SettledIsIndexed(cfg, steps, t, hash);
      }
      ListedIsReturned(cfg, steps, t0, times, ns, hash);
    }
  }

  /** A hash that is settled at the loads is returned exactly when it was listed at the start. */
  lemma NamespaceReturnsIffListed(cfg: Config, steps: seq<Step>, t0: nat, times: seq<nat>, ns: string, hash: string)
    requires QueryDuring(cfg, steps, t0, times, ns)
    requires forall t | t in times :: Settled(cfg, steps, t, hash)
    ensures Returned(cfg, steps, t0, times, ns, hash) <==> hash in HashesAt(cfg, steps, t0, ns)
  {
    forall t | t in times ensures Load(cfg.settings, At(cfg, steps, t), hash).Some? {
      SettledIsIndexed(cfg, steps, t, hash);
    }
    if hash in HashesAt(cfg, steps, t0, ns) { ListedIsReturned(cfg, steps, t0, times, ns, hash); }
    if Returned(cfg, steps, t0, times, ns, hash) { ReturnedIsListed(cfg, steps, t0, times, ns, hash); }
  }

  lemma {:induction false} IndexUntouched(cfg: Config, s: State, steps: seq<Step>)
    requires Run(cfg, s, steps).Some?
    requires forall step | step in steps :: step.BeginSave? || step.WriteTemp? || step.Commit?
    ensures Run(cfg, s, steps).value.index == s.index
  {
    if steps != [] {
      assert steps[|steps| - 1] in steps;
      IndexUntouched(cfg, s, steps[..|steps| - 1]);
    }
  }

  lemma CommitMakesLive(m: map<string, Cassette>, front: seq<Step>, c: Cassette)
    ensures c.hash in Live(m, front + [Commit(c)]) && c.hash in Live(m, front + [Commit(c)] + [IndexSave])
  {
    assert (front + [Commit(c)])[..|front|] == front;
    assert (front + [Commit(c)] + [IndexSave])[..|front| + 1] == front + [Commit(c)];
  }

  /** The list of hashes is read without the store's lock. A query that starts between the rename and the
      index update of a first save misses the saved hash, although it is live from then on. */
  lemma QueryMayMissFirstSave(cfg: Config, past: seq<Step>, c: Cassette, stamp: string, times: seq<nat>)
    requires var r := Run(cfg, FreshDisk, past);
             r.Some? && r.value.phase.Idle? && c.hash !in Listed(r.value.index, c.namespace)
    requires Legal(cfg, c) && '.' !in stamp
    requires QueryDuring(cfg, past + SaveTrace(cfg.settings, c, stamp, NoFault), |past| + 3, times, c.namespace)
    ensures var steps := past + SaveTrace(cfg.settings, c, stamp, NoFault);
            && (forall t | |past| + 3 <= t <= |steps| :: c.hash in Live(map[], steps[..t]))
            && !Returned(cfg, steps, |past| + 3, times, c.namespace, c.hash)
  {
    var steps, t0 := past + SaveTrace(cfg.settings, c, stamp, NoFault), |past| + 3;
    LiveFromCommit(past, cfg.settings, c, stamp);
    IndexBeforeUpdate(cfg, past, c, stamp);
    if Returned(cfg, steps, t0, times, c.namespace, c.hash) {
      ReturnedIsListed(cfg, steps, t0, times, c.namespace, c.hash);
    }
  }

  lemma LiveFromCommit(past: seq<Step>, st: Settings, c: Cassette, stamp: string)
    ensures var steps := past + SaveTrace(st, c, stamp, NoFault);
            forall t | |past| + 3 <= t <= |steps| :: c.hash in Live(map[], steps[..t])
  {
    var steps := past + SaveTrace(st, c, stamp, NoFault);
    var front := past + [BeginSave(c, stamp), WriteTemp(|Payload(st, c)|)];
    assert steps == front + [Commit(c)] + [IndexSave] && |steps| == |past| + 4;
    forall t | |past| + 3 <= t <= |steps| ensures c.hash in Live(map[], steps[..t]) {
      CommitMakesLive(map[], front, c);
      if t == |steps| { assert steps[..t] == steps; } else { assert steps[..t] == front + [Commit(c)]; }
    }
  }

  lemma IndexBeforeUpdate(cfg: Config, past: seq<Step>, c: Cassette, stamp: string)
    requires Run(cfg, FreshDisk, past + SaveTrace(cfg.settings, c, stamp, NoFault)).Some?
    ensures Run(cfg, FreshDisk, past).Some?
    ensures At(cfg, past + SaveTrace(cfg.settings, c, stamp, NoFault), |past| + 3).index ==
            Run(cfg, FreshDisk, past).value.index
  {
    var steps := past + SaveTrace(cfg.settings, c, stamp, NoFault);
    var save := [BeginSave(c, stamp), WriteTemp(|Payload(cfg.settings, c)|), Commit(c)];
    assert steps[..|past| + 3] == past + save;
    RunPrefix(cfg, FreshDisk, steps, |past| + 3);
    RunAppend(cfg, FreshDisk, past, save);
    IndexUntouched(cfg, Run(cfg, FreshDisk, past).value, save);
  }

  /** What an undisturbed query of `ns` returns. */
  ghost function QueryAlone(cfg: Config, s: State, ns: string): seq<Cassette> {
    Collected(cfg.settings, Repeat(s, |Listed(s.index, ns)|), Listed(s.index, ns))
  }

  lemma AloneIsDistinct(cfg: Config, s: State, m: map<string, Cassette>, ns: string)
    requires Inv(cfg, s, m, {})
    ensures DistinctHashes(QueryAlone(cfg, s, ns))
  {
    var hashes := Listed(s.index, ns);
    forall j | 0 <= j < |hashes| && Load(cfg.settings, s, hashes[j]).Some?
      ensures Load(cfg.settings, s, hashes[j]).value.hash == hashes[j]
    {
      LoadIsLookup(cfg, s, m, {}, hashes[j]);
    }
    CollectedDistinct(cfg.settings, Repeat(s, |hashes|), hashes);
  }

  lemma AloneIsLive(cfg: Config, s: State, m: map<string, Cassette>, ns: string, c: Cassette)
    requires Inv(cfg, s, m, {}) && c in QueryAlone(cfg, s, ns)
    ensures c.hash in m && m[c.hash] == c && c.namespace == ns && ns != ""
  {
    var hashes, results := Listed(s.index, ns), QueryAlone(cfg, s, ns);
    var i :| 0 <= i < |results| && results[i] == c;
    var j := CollectedFrom(cfg.settings, Repeat(s, |hashes|), hashes, i);
    LoadIsLookup(cfg, s, m, {}, hashes[j]);
    assert hashes[j] in hashes;
  }

  lemma LiveIsReturned(cfg: Config, s: State, m: map<string, Cassette>, c: Cassette)
    requires Inv(cfg, s, m, {}) && s.phase.Idle? && c.namespace != "" && c.hash in m && m[c.hash] == c
    ensures c in QueryAlone(cfg, s, c.namespace)
  {
    var hashes := Listed(s.index, c.namespace);
    assert Covered(cfg, s, {}, c.hash);
    LoadIsLookup(cfg, s, m, {}, c.hash);
    var j :| 0 <= j < |hashes| && hashes[j] == c.hash;
    var i := CollectedHas(cfg.settings, Repeat(s, |hashes|), hashes, j);
  }

  /** Undisturbed, a query of a nonempty namespace is the filter of the live map by namespace, each
      cassette once, although the lists it reads may hold hashes deleted long ago. */
  lemma NamespaceQueryIsFilter(cfg: Config, s: State, m: map<string, Cassette>, ns: string)
    requires Inv(cfg, s, m, {}) && s.phase.Idle?
    ensures DistinctHashes(QueryAlone(cfg, s, ns))
    ensures forall c :: c in QueryAlone(cfg, s, ns) <==> ns != "" && c.hash in m && m[c.hash] == c && c.namespace == ns
  {
    AloneIsDistinct(cfg, s, m, ns);
    forall c: Cassette
      ensures c in QueryAlone(cfg, s, ns) <==> ns != "" && c.hash in m && m[c.hash] == c && c.namespace == ns
    {
      if c in QueryAlone(cfg, s, ns) { AloneIsLive(cfg, s, m, ns, c); }
      else if ns != "" && c.hash in m && m[c.hash] == c && c.namespace == ns { LiveIsReturned(cfg, s, m, c); }
    }
  }

  // Pruning.

  /** Entries are for distinct live hashes of the walk, with their recording times. */
  ghost predicate MetasMatch(cfg: Config, m: map<string, Cassette>, walk: seq<Path>, metas: seq<CassetteMeta>) {
    && (forall i | 0 <= i < |metas| ::
          && metas[i].hash in m && metas[i].recordedAt == m[metas[i].hash].recordedAt
          && PathOf(cfg, metas[i].hash) in walk)
    && DistinctMetas(metas)
  }

  ghost predicate DistinctMetas(metas: seq<CassetteMeta>) {
    forall i, j | 0 <= i < j < |metas| :: metas[i].hash != metas[j].hash
  }

  ghost predicate Lists(metas: seq<CassetteMeta>, hash: string) {
    exists i :: 0 <= i < |metas| && metas[i].hash == hash
  }

  /** Every live hash whose file is in the walk has an entry. */
  ghost predicate MetasComplete(cfg: Config, m: map<string, Cassette>, walk: seq<Path>, metas: seq<CassetteMeta>) {
    forall h | h in m && PathOf(cfg, h) in walk :: Lists(metas, h)
  }

  lemma WalkHasNoRepeats(st: Settings, files: map<Path, Bytes>, walk: seq<Path>)
    requires IsWalk(st, files, walk)
    ensures forall i, j | 0 <= i < j < |walk| :: walk[i] != walk[j]
  {
    forall i, j | 0 <= i < j < |walk| ensures walk[i] != walk[j] { PrecedesAsymmetric(walk[i], walk[j]); }
  }

  /** A file of the walk contributes the entry of its own live hash, if any. */
  lemma ScannedOfWalk(cfg: Config, files: map<Path, Bytes>, m: map<string, Cassette>, p: Path)
    requires FilesSound(cfg, files, m) && p in files && Below(cfg.settings.base, p)
    ensures var c := Scanned(cfg.settings, files, p);
            && (c.Some? ==> c.value.hash in m && m[c.value.hash] == c.value && p == PathOf(cfg, c.value.hash))
            && (forall h | h in m && PathOf(cfg, h) == p :: c.Some? && c.value.hash == h)
  {
    ScannedIsLive(cfg, files, m, p);
    forall h | h in m && PathOf(cfg, h) == p ensures Scanned(cfg.settings, files, p) == Some(m[h]) {
      LiveIsScanned(cfg, files, m, h);
    }
  }

  lemma MetasSnoc(cfg: Config, m: map<string, Cassette>, front: seq<Path>,
      p: Path, before: seq<CassetteMeta>, c: Cassette)
    requires MetasMatch(cfg, m, front, before) && p !in front
    requires c.hash in m && m[c.hash] == c && p == PathOf(cfg, c.hash)
    ensures MetasMatch(cfg, m, front + [p], before + [MetaOf(c, p)])
  {
    forall i | 0 <= i < |before| ensures before[i].hash != c.hash {
      assert PathOf(cfg, before[i].hash) in front;
    }
  }

  lemma CompleteSnoc(cfg: Config, m: map<string, Cassette>, front: seq<Path>,
      p: Path, before: seq<CassetteMeta>, more: seq<CassetteMeta>)
    requires MetasComplete(cfg, m, front, before)
    requires forall h | h in m && PathOf(cfg, h) == p :: Lists(more, h)
    ensures MetasComplete(cfg, m, front + [p], before + more)
  {
    var walk, metas := front + [p], before + more;
    forall h | h in m && PathOf(cfg, h) in walk ensures Lists(metas, h) {
      if PathOf(cfg, h) in front {
        var i :| 0 <= i < |before| && before[i].hash == h;
        assert metas[i].hash == h;
      } else {
        var i :| 0 <= i < |more| && more[i].hash == h;
        assert metas[|before| + i].hash == h;
      }
    }
  }

  lemma {:induction false} MetasAreTheLiveFiles(cfg: Config,
      files: map<Path, Bytes>, m: map<string, Cassette>, walk: seq<Path>)
    requires FilesSound(cfg, files, m)
    requires forall p | p in walk :: p in files && Below(cfg.settings.base, p)
    requires forall i, j | 0 <= i < j < |walk| :: walk[i] != walk[j]
    ensures MetasMatch(cfg, m, walk, Metas(cfg.settings, files, walk))
    ensures MetasComplete(cfg, m, walk, Metas(cfg.settings, files, walk))
  {
    if walk != [] {
      var n := |walk| - 1;
      var front, p := walk[..n], walk[n];
      assert p in walk && front + [p] == walk;
      MetasAreTheLiveFiles(cfg, files, m, front);
      ScannedOfWalk(cfg, files, m, p);
      var before, c := Metas(cfg.settings, files, front), Scanned(cfg.settings, files, p);
      if c.Some? {
        MetasSnoc(cfg, m, front, p, before, c.value);
        assert [MetaOf(c.value, p)][0].hash == c.value.hash;
        CompleteSnoc(cfg, m, front, p, before, [MetaOf(c.value, p)]);
      } else {
        CompleteSnoc(cfg, m, front, p, before, []);
        assert before + [] == before;
      }
    }
  }

  ghost predicate Doomed(m: CassetteMeta, paths: map<string, Path>, olderThan: int) {
    m.recordedAt < olderThan && m.hash in paths
  }

  /** The hashes a prune removes: listed, old, and indexed. */
  ghost function DoomedIn(metas: seq<CassetteMeta>, paths: map<string, Path>, olderThan: int): set<string> {
    set i | 0 <= i < |metas| && Doomed(metas[i], paths, olderThan) :: metas[i].hash
  }

  lemma DeleteKeepsInv(cfg: Config, s: State, m: map<string, Cassette>,
      hidden: set<string>, hash: string, fault: DeleteFault)
    requires Inv(cfg, s, m, hidden) && s.phase.Idle? && hash in s.index.paths
    ensures Inv(cfg, AfterDelete(cfg.settings, s, hash, fault),
                if fault.removeFails then m else m - {hash}, if fault.removeFails then hidden + {hash} else hidden)
  {
    var first, second := DeleteTrace(hash, fault)[0], DeleteTrace(hash, fault)[1];
    StepKeepsInv(cfg, s, first, m, hidden);
    StepKeepsInv(cfg, Apply(cfg, s, first), second, LiveAfter(m, first), HiddenAfter(hidden, first));
  }

  lemma DoomedSnoc(metas: seq<CassetteMeta>, paths: map<string, Path>, olderThan: int)
    requires metas != [] && DistinctMetas(metas)
    ensures var last, d := metas[|metas| - 1], DoomedIn(metas[..|metas| - 1], paths, olderThan);
            && last.hash !in d
            && DoomedIn(metas, paths, olderThan) == if Doomed(last, paths, olderThan) then d + {last.hash} else d
  {
    var n := |metas| - 1;
    var front, last := metas[..n], metas[n];
    forall h ensures h in DoomedIn(metas, paths, olderThan) <==>
                     h in DoomedIn(front, paths, olderThan) || (h == last.hash && Doomed(last, paths, olderThan))
    {
      if h in DoomedIn(metas, paths, olderThan) {
        var i :| 0 <= i < |metas| && Doomed(metas[i], paths, olderThan) && metas[i].hash == h;
        if i < n { assert Doomed(front[i], paths, olderThan); }
      }
      if h in DoomedIn(front, paths, olderThan) {
        var i :| 0 <= i < n && Doomed(front[i], paths, olderThan) && front[i].hash == h;
        assert Doomed(metas[i], paths, olderThan);
      }
    }
  }

  /** The hashes whose file removal goes well, whose file removal fails, and whose index update goes well. */
  ghost function FilesGone(hashes: set<string>, faults: string -> DeleteFault): set<string> {
    set h | h in hashes && !faults(h).removeFails
  }

  ghost function FilesLeft(hashes: set<string>, faults: string -> DeleteFault): set<string> {
    set h | h in hashes && faults(h).removeFails
  }

  ghost function EntriesGone(hashes: set<string>, faults: string -> DeleteFault): set<string> {
    set h | h in hashes && !faults(h).indexFails
  }

  /** A state from which `gone` has been deleted, as far as that went well. */
  ghost predicate Deleted(cfg: Config, paths: map<string, Path>,
      m: map<string, Cassette>, hidden: set<string>, s: State,
                          gone: set<string>, faults: string -> DeleteFault) {
    && s.phase.Idle? && s.index.paths == paths - EntriesGone(gone, faults)
    && Inv(cfg, s, m - FilesGone(gone, faults), hidden + FilesLeft(gone, faults))
  }

  lemma RemoveBoth<V>(m: map<string, V>, a: set<string>, b: set<string>)
    ensures (m - a) - b == m - (a + b)
  {
  }

  lemma PartsGrow(gone: set<string>, hash: string, faults: string -> DeleteFault)
    ensures FilesGone(gone + {hash}, faults) == FilesGone(gone, faults) +
            if faults(hash).removeFails then {} else {hash}
    ensures FilesLeft(gone + {hash}, faults) == FilesLeft(gone, faults) +
            if faults(hash).removeFails then {hash} else {}
    ensures EntriesGone(gone + {hash}, faults) == EntriesGone(gone, faults) +
            if faults(hash).indexFails then {} else {hash}
  {
  }

  lemma DeleteMore(cfg: Config, paths: map<string, Path>, m: map<string, Cassette>, hidden: set<string>, s: State,
                   gone: set<string>, hash: string, faults: string -> DeleteFault)
    requires Deleted(cfg, paths, m, hidden, s, gone, faults) && hash in s.index.paths
    ensures Deleted(cfg, paths, m, hidden, AfterDelete(cfg.settings, s, hash, faults(hash)), gone + {hash}, faults)
  {
    var live, left := m - FilesGone(gone, faults), hidden + FilesLeft(gone, faults);
    DeleteKeepsInv(cfg, s, live, left, hash, faults(hash));
    PartsGrow(gone, hash, faults);
    RemoveBoth(m, FilesGone(gone, faults), {hash});
    RemoveBoth(paths, EntriesGone(gone, faults), {hash});
    UnionAssociates(hidden, FilesLeft(gone, faults), {hash});
    UnionAssociates(hidden, FilesLeft(gone, faults), {});
    assert FilesGone(gone, faults) + {} == FilesGone(gone, faults)
           && EntriesGone(gone, faults) + {} == EntriesGone(gone, faults);
    assert left + {} == left;
  }

  lemma UnionAssociates(a: set<string>, b: set<string>, c: set<string>)
    ensures (a + b) + c == a + (b + c)
  {
  }

  lemma NothingDeleted(cfg: Config, s: State, m: map<string, Cassette>,
      hidden: set<string>, faults: string -> DeleteFault)
    requires Inv(cfg, s, m, hidden) && s.phase.Idle?
    ensures Deleted(cfg, s.index.paths, m, hidden, s, {}, faults)
  {
    assert FilesGone({}, faults) == {} && FilesLeft({}, faults) == {} && EntriesGone({}, faults) == {};
    assert m - {} == m && s.index.paths - {} == s.index.paths && hidden + {} == hidden;
  }

  /** A prune that got to `r` and has deleted `gone`, as far as that went well. */
  ghost predicate Progress(cfg: Config, paths: map<string, Path>,
      m: map<string, Cassette>, hidden: set<string>, r: Pruned,
                           gone: set<string>, faults: string -> DeleteFault) {
    Deleted(cfg, paths, m, hidden, r.state, gone, faults) && r.count == |EntriesGone(gone, faults)|
  }

  lemma EntryMakesProgress(cfg: Config, paths: map<string, Path>,
      m: map<string, Cassette>, hidden: set<string>, r: Pruned,
                           gone: set<string>, meta: CassetteMeta, olderThan: int, faults: string -> DeleteFault)
    requires Progress(cfg, paths, m, hidden, r, gone, faults) && meta.hash !in gone
    ensures Progress(cfg, paths, m, hidden, PruneEntry(cfg.settings, r, meta, olderThan, faults),
                     if Doomed(meta, paths, olderThan) then gone + {meta.hash} else gone, faults)
  {
    assert meta.hash !in EntriesGone(gone, faults);
    if Doomed(meta, paths, olderThan) {
      DeleteMore(cfg, paths, m, hidden, r.state, gone, meta.hash, faults);
      CountGrows(gone, meta.hash, faults);
    }
  }

  lemma CountGrows(gone: set<string>, hash: string, faults: string -> DeleteFault)
    requires hash !in gone
    ensures |EntriesGone(gone + {hash}, faults)| == |EntriesGone(gone, faults)| +
            if faults(hash).indexFails then 0 else 1
  {
    PartsGrow(gone, hash, faults);
    assert hash !in EntriesGone(gone, faults);
    assert EntriesGone(gone, faults) + {} == EntriesGone(gone, faults);
  }

  lemma {:induction false} PruneProgresses(cfg: Config, paths: map<string, Path>,
      m: map<string, Cassette>, hidden: set<string>,
                                           s: State, metas: seq<CassetteMeta>,
                                           olderThan: int, faults: string -> DeleteFault)
    requires Progress(cfg, paths, m, hidden, Pruned(s, 0), {}, faults)
    requires DistinctMetas(metas)
    ensures Progress(cfg, paths, m, hidden, AfterPrune(cfg.settings, s, metas, olderThan, faults),
                     DoomedIn(metas, paths, olderThan), faults)
  {
    if metas == [] { assert DoomedIn(metas, paths, olderThan) == {}; }
    else {
      var n := |metas| - 1;
      PruneProgresses(cfg, paths, m, hidden, s, metas[..n], olderThan, faults);
      DoomedSnoc(metas, paths, olderThan);
      EntryMakesProgress(cfg, paths, m, hidden, AfterPrune(cfg.settings, s, metas[..n], olderThan, faults),
                         DoomedIn(metas[..n], paths, olderThan), metas[n], olderThan, faults);
    }
  }

  lemma PruneSteps(cfg: Config, s: State, m: map<string, Cassette>, hidden: set<string>,
                   metas: seq<CassetteMeta>, olderThan: int, faults: string -> DeleteFault)
    requires Inv(cfg, s, m, hidden) && s.phase.Idle? && DistinctMetas(metas)
    ensures Progress(cfg, s.index.paths, m, hidden, AfterPrune(cfg.settings, s, metas, olderThan, faults),
                     DoomedIn(metas, s.index.paths, olderThan), faults)
  {
    NothingDeleted(cfg, s, m, hidden, faults);
    assert EntriesGone({}, faults) == {};
    PruneProgresses(cfg, s.index.paths, m, hidden, s, metas, olderThan, faults);
  }

  /** The live, indexed hashes recorded before the threshold. */
  ghost function Old(m: map<string, Cassette>, paths: map<string, Path>, olderThan: int): set<string> {
    set h | h in m && m[h].recordedAt < olderThan && h in paths
  }

  lemma DoomedIsOld(cfg: Config, m: map<string, Cassette>, paths: map<string, Path>,
      walk: seq<Path>, metas: seq<CassetteMeta>, olderThan: int)
    requires MetasMatch(cfg, m, walk, metas) && MetasComplete(cfg, m, walk, metas)
    requires forall h | h in m :: PathOf(cfg, h) in walk
    ensures DoomedIn(metas, paths, olderThan) == Old(m, paths, olderThan)
  {
    forall h | h in Old(m, paths, olderThan) ensures h in DoomedIn(metas, paths, olderThan) {
      assert PathOf(cfg, h) in walk && Lists(metas, h);
      var i :| 0 <= i < |metas| && metas[i].hash == h;
      assert Doomed(metas[i], paths, olderThan);
    }
    forall h | h in DoomedIn(metas, paths, olderThan) ensures h in Old(m, paths, olderThan) {
      var i :| 0 <= i < |metas| && Doomed(metas[i], paths, olderThan) && metas[i].hash == h;
    }
  }

  /** Prune on its own goes for exactly the live cassettes recorded before the threshold whose hash is
      indexed. It removes those whose file removal goes well, keeps all others, hides those of which only the
      index update goes well, and returns the number of deletions that reported no error. */
  lemma PruneIsExact(cfg: Config, s: State, m: map<string, Cassette>,
      hidden: set<string>, walk: seq<Path>, olderThan: int,
                     faults: string -> DeleteFault)
    requires Inv(cfg, s, m, hidden) && s.phase.Idle? && IsWalk(cfg.settings, s.files, walk)
    ensures var r := AfterPrune(cfg.settings, s, Metas(cfg.settings, s.files, walk), olderThan, faults);
            var old' := Old(m, s.index.paths, olderThan);
            && r.count == |EntriesGone(old', faults)|
            && Inv(cfg, r.state, m - FilesGone(old', faults), hidden + FilesLeft(old', faults))
            && forall h :: Load(cfg.settings, r.state, h) ==
                           if h in old' && faults(h) != DeleteFault(true, true) then None else Load(cfg.settings, s, h)
  {
    var metas := Metas(cfg.settings, s.files, walk);
    MetasOfWalk(cfg, s.files, m, walk);
    DoomedIsOld(cfg, m, s.index.paths, walk, metas, olderThan);
    PruneSteps(cfg, s, m, hidden, metas, olderThan, faults);
    var r, old' := AfterPrune(cfg.settings, s, metas, olderThan, faults), Old(m, s.index.paths, olderThan);
    forall h
      ensures Load(cfg.settings, r.state, h) ==
              if h in old' && faults(h) != DeleteFault(true, true) then None else Load(cfg.settings, s, h)
    {
      LoadAfterDeletes(cfg, s, m, hidden, r.state, old', faults, h);
    }
  }

  lemma LoadAfterDeletes(cfg: Config, s: State, m: map<string, Cassette>,
      hidden: set<string>, after: State, gone: set<string>,
                         faults: string -> DeleteFault, h: string)
    requires Inv(cfg, s, m, hidden) && Deleted(cfg, s.index.paths, m, hidden, after, gone, faults)
    ensures Load(cfg.settings, after, h) ==
            if h in gone && faults(h) != DeleteFault(true, true) then None else Load(cfg.settings, s, h)
  {
    LoadIsLookup(cfg, s, m, hidden, h);
    LoadIsLookup(cfg, after, m - FilesGone(gone, faults), hidden + FilesLeft(gone, faults), h);
    assert h in EntriesGone(gone, faults) <==> h in gone && !faults(h).indexFails;
    assert h in FilesGone(gone, faults) <==> h in gone && !faults(h).removeFails;
  }

  lemma MetasOfWalk(cfg: Config, files: map<Path, Bytes>, m: map<string, Cassette>, walk: seq<Path>)
    requires FilesSound(cfg, files, m) && IsWalk(cfg.settings, files, walk)
    ensures var metas := Metas(cfg.settings, files, walk);
            MetasMatch(cfg, m, walk, metas) && MetasComplete(cfg, m, walk, metas)
    ensures forall h | h in m :: PathOf(cfg, h) in walk
  {
    WalkHasNoRepeats(cfg.settings, files, walk);
    MetasAreTheLiveFiles(cfg, files, m, walk);
    forall h | h in m ensures PathOf(cfg, h) in walk {
      assert LiveOnDisk(cfg, files, m, h);
      PathFacts(cfg, h);
    }
  }

  // Prune interleaved with other operations.

  ghost function MetasAt(cfg: Config, steps: seq<Step>, t0: nat, walk: seq<Path>): seq<CassetteMeta>
    requires t0 <= |steps| && Run(cfg, FreshDisk, steps).Some?
  {
    Metas(cfg.settings, At(cfg, steps, t0).files, walk)
  }

  /** At step `t` Prune comes to entry `m` of its list: if it is old, its hash is deleted, which does nothing
      when it is no longer indexed. */
  ghost predicate ComesTo(cfg: Config, steps: seq<Step>, t: nat, m: CassetteMeta, olderThan: int)
    requires Run(cfg, FreshDisk, steps).Some?
  {
    t <= |steps| &&
    (m.recordedAt < olderThan ==>
       && At(cfg, steps, t).phase.Idle?
       && (m.hash in At(cfg, steps, t).index.paths ==>
          t < |steps| && (steps[t] == Remove(m.hash) || steps[t] == RemoveFails(m.hash))))
  }

  /** A Prune during a run: it lists the files after `t0` steps and comes to entry i after `cuts[i]` steps.
      All other steps are free. */
  ghost predicate PruneDuring(cfg: Config, steps: seq<Step>, t0: nat, walk: seq<Path>, olderThan: int, cuts: seq<nat>) {
    && Run(cfg, FreshDisk, steps).Some? && t0 <= |steps|
    && At(cfg, steps, t0).phase.Idle? && IsWalk(cfg.settings, At(cfg, steps, t0).files, walk)
    && |cuts| == |MetasAt(cfg, steps, t0, walk)|
    && (forall i | 0 <= i < |cuts| ::
          t0 <= cuts[i] && ComesTo(cfg, steps, cuts[i], MetasAt(cfg, steps, t0, walk)[i], olderThan))
    && (forall i, j | 0 <= i < j < |cuts| :: cuts[i] <= cuts[j])
  }

  /** Step `t` is the removal of `hash` by the Prune. */
  ghost predicate PruneRemoves(cfg: Config, steps: seq<Step>,
      t0: nat, walk: seq<Path>, olderThan: int, cuts: seq<nat>, t: nat, hash: string)
    requires PruneDuring(cfg, steps, t0, walk, olderThan, cuts)
  {
    exists i :: 0 <= i < |cuts| && cuts[i] == t && t < |steps| && steps[t] == Remove(hash)
                && MetasAt(cfg, steps, t0, walk)[i].hash == hash
                   && MetasAt(cfg, steps, t0, walk)[i].recordedAt < olderThan
  }

  lemma MetasWereLive(cfg: Config, steps: seq<Step>, t0: nat, walk: seq<Path>)
    requires t0 <= |steps| && Run(cfg, FreshDisk, steps).Some? && IsWalk(cfg.settings, At(cfg, steps, t0).files, walk)
    ensures var m, metas := Live(map[], steps[..t0]), MetasAt(cfg, steps, t0, walk);
            MetasMatch(cfg, m, walk, metas) && forall h | h in m :: Lists(metas, h)
  {
    AtInv(cfg, steps, t0);
    MetasOfWalk(cfg, At(cfg, steps, t0).files, Live(map[], steps[..t0]), walk);
  }

  /** Whatever runs in between, every hash that Prune removes was live when Prune took its list, with a
      cassette older than the threshold. */
  lemma PruneRemovesOnlyListedOld(cfg: Config, steps: seq<Step>,
      t0: nat, walk: seq<Path>, olderThan: int, cuts: seq<nat>, t: nat, hash: string)
    requires PruneDuring(cfg, steps, t0, walk, olderThan, cuts)
             && PruneRemoves(cfg, steps, t0, walk, olderThan, cuts, t, hash)
    ensures t0 <= t && hash in Live(map[], steps[..t0]) && Live(map[], steps[..t0])[hash].recordedAt < olderThan
  {
    MetasWereLive(cfg, steps, t0, walk);
  }

  lemma {:induction false} UnremovedStaysLive(m: map<string, Cassette>, steps: seq<Step>, hash: string)
    requires hash in m && Remove(hash) !in steps
    ensures hash in Live(m, steps)
  {
    if steps != [] {
      assert steps[|steps| - 1] in steps;
      UnremovedStaysLive(m, steps[..|steps| - 1], hash);
    }
  }

  lemma LiveSplits(steps: seq<Step>, t0: nat, t: nat)
    requires t0 <= t <= |steps|
    ensures Live(map[], steps[..t]) == Live(Live(map[], steps[..t0]), steps[t0..t])
  {
    assert steps[..t] == steps[..t0] + steps[t0..t];
    LiveAppend(map[], steps[..t0], steps[t0..t]);
  }

  lemma StepWithin(steps: seq<Step>, t0: nat, end: nat, step: Step) returns (t: nat)
    requires t0 <= end <= |steps| && step in steps[t0..end]
    ensures t0 <= t < end && steps[t] == step
  {
    var k :| 0 <= k < end - t0 && steps[t0..end][k] == step;
    t := t0 + k;
  }

  /** A hash that was live and not old when Prune took its list, and that nobody else removes, stays live. */
  lemma InterleavedPruneSparesOthers(cfg: Config, steps: seq<Step>,
      t0: nat, walk: seq<Path>, olderThan: int, cuts: seq<nat>, hash: string, end: nat)
    requires PruneDuring(cfg, steps, t0, walk, olderThan, cuts) && t0 <= end <= |steps|
    requires hash in Live(map[], steps[..t0]) && Live(map[], steps[..t0])[hash].recordedAt >= olderThan
    requires forall t | t0 <= t < end && steps[t] == Remove(hash) ::
             PruneRemoves(cfg, steps, t0, walk, olderThan, cuts, t, hash)
    ensures hash in Live(map[], steps[..end])
  {
    if Remove(hash) in steps[t0..end] {
      var t := StepWithin(steps, t0, end, Remove(hash));
      PruneRemovesOnlyListedOld(cfg, steps, t0, walk, olderThan, cuts, t, hash);
    } else {
      LiveSplits(steps, t0, end);
      UnremovedStaysLive(Live(map[], steps[..t0]), steps[t0..end], hash);
    }
  }

  /** A hash that was live and old in the list is no longer live once Prune is through with it, if it was
      still indexed and its file could be removed. */
  lemma InterleavedPruneRemovesOld(cfg: Config, steps: seq<Step>,
      t0: nat, walk: seq<Path>, olderThan: int, cuts: seq<nat>, hash: string)
      returns (i: nat)
    requires PruneDuring(cfg, steps, t0, walk, olderThan, cuts)
    requires hash in Live(map[], steps[..t0]) && Live(map[], steps[..t0])[hash].recordedAt < olderThan
    ensures i < |cuts| && cuts[i] <= |steps|
    ensures hash in At(cfg, steps, cuts[i]).index.paths ==>
              cuts[i] < |steps| && (steps[cuts[i]] == RemoveFails(hash) || hash !in Live(map[], steps[..cuts[i] + 1]))
  {
    i := LiveEntry(cfg, steps, t0, walk, hash);
    EntryIsReached(cfg, steps, t0, walk, olderThan, cuts, i);
    DeletesOld(cfg, steps, cuts[i], MetasAt(cfg, steps, t0, walk)[i], olderThan);
  }

  lemma LiveEntry(cfg: Config, steps: seq<Step>, t0: nat, walk: seq<Path>, hash: string) returns (i: nat)
    requires t0 <= |steps| && Run(cfg, FreshDisk, steps).Some? && IsWalk(cfg.settings, At(cfg, steps, t0).files, walk)
    requires hash in Live(map[], steps[..t0])
    ensures var metas := MetasAt(cfg, steps, t0, walk);
            i < |metas| && metas[i].hash == hash && metas[i].recordedAt == Live(map[], steps[..t0])[hash].recordedAt
  {
    MetasWereLive(cfg, steps, t0, walk);
    i := EntryOf(MetasAt(cfg, steps, t0, walk), hash);
  }

  lemma EntryIsReached(cfg: Config, steps: seq<Step>, t0: nat, walk: seq<Path>, olderThan: int, cuts: seq<nat>, i: nat)
    requires PruneDuring(cfg, steps, t0, walk, olderThan, cuts) && i < |cuts|
    ensures t0 <= cuts[i] && ComesTo(cfg, steps, cuts[i], MetasAt(cfg, steps, t0, walk)[i], olderThan)
  {
  }

  lemma DeletesOld(cfg: Config, steps: seq<Step>, t: nat, m: CassetteMeta, olderThan: int)
    requires Run(cfg, FreshDisk, steps).Some? && ComesTo(cfg, steps, t, m, olderThan) && m.recordedAt < olderThan
    ensures m.hash in At(cfg, steps, t).index.paths ==>
              t < |steps| && (steps[t] == RemoveFails(m.hash) || m.hash !in Live(map[], steps[..t + 1]))
  {
    RemovedIsDead(steps, t, m.hash);
  }

  lemma EntryOf(metas: seq<CassetteMeta>, hash: string) returns (i: nat)
    requires Lists(metas, hash)
    ensures i < |metas| && metas[i].hash == hash
  {
    i :| 0 <= i < |metas| && metas[i].hash == hash;
  }

  lemma RemovedIsDead(steps: seq<Step>, t: nat, hash: string)
    ensures t < |steps| && steps[t] == Remove(hash) ==> hash !in Live(map[], steps[..t + 1])
  {
    if t < |steps| { assert steps[..t + 1][..t] == steps[..t]; }
  }

  /** The last cassette of `hash` that was renamed into place, if any. */
  function NewestSave(steps: seq<Step>, hash: string): Option<Cassette> {
    if steps == [] then None
    else
      match steps[|steps| - 1]
      case Commit(c) => if c.hash == hash then Some(c) else NewestSave(steps[..|steps| - 1], hash)
      case _ => NewestSave(steps[..|steps| - 1], hash)
  }

  lemma {:induction false} LiveIsNewest(m: map<string, Cassette>, steps: seq<Step>, hash: string)
    requires hash in Live(m, steps)
    ensures Live(m, steps)[hash] == match NewestSave(steps, hash)
                                    case Some(c) => c
                                    case None => if hash in m then m[hash] else Live(m, steps)[hash]
    ensures NewestSave(steps, hash).None? ==> hash in m
  {
    if steps != [] {
      var last := steps[|steps| - 1];
      if !(last.Commit? && last.c.hash == hash) { LiveIsNewest(m, steps[..|steps| - 1], hash); }
    }
  }

  /** What Prune removes is judged by its list, not by what is there by then. The cassette it removes is older
      than the threshold if and only if the last one saved for its hash since the list was taken, if any, is. */
  lemma PrunedIsOldIff(cfg: Config, steps: seq<Step>, t0: nat,
      walk: seq<Path>, olderThan: int, cuts: seq<nat>, t: nat, hash: string)
    requires PruneDuring(cfg, steps, t0, walk, olderThan, cuts)
             && PruneRemoves(cfg, steps, t0, walk, olderThan, cuts, t, hash)
    requires t0 <= t && hash in Live(map[], steps[..t])
    ensures Live(map[], steps[..t])[hash].recordedAt < olderThan <==>
            var newest := NewestSave(steps[t0..t], hash); newest.None? || newest.value.recordedAt < olderThan
  {
    PruneRemovesOnlyListedOld(cfg, steps, t0, walk, olderThan, cuts, t, hash);
    LiveSplits(steps, t0, t);
    LiveIsNewest(Live(map[], steps[..t0]), steps[t0..t], hash);
  }

  ghost predicate SavesYoung(steps: seq<Step>, hash: string, olderThan: int) {
    exists c :: Commit(c) in steps && c.hash == hash && c.recordedAt >= olderThan
  }

  /** Cassettes of `hash` are renamed into place in the order of their recording. */
  ghost predicate SavedInOrder(steps: seq<Step>, hash: string) {
    forall i, j | 0 <= i < j < |steps| && steps[i].Commit? && steps[j].Commit?
        && steps[i].c.hash == hash && steps[j].c.hash == hash ::
      steps[i].c.recordedAt <= steps[j].c.recordedAt
  }

  lemma {:induction false} NewestIsLast(steps: seq<Step>, hash: string) returns (k: nat)
    ensures match NewestSave(steps, hash)
            case Some(c) => k < |steps| && steps[k] == Commit(c) && c.hash == hash
                            && forall i | k < i < |steps| :: !(steps[i].Commit? && steps[i].c.hash == hash)
            case None => forall i | 0 <= i < |steps| :: !(steps[i].Commit? && steps[i].c.hash == hash)
  {
    k := 0;
    if steps != [] {
      var n := |steps| - 1;
      if steps[n].Commit? && steps[n].c.hash == hash { k := n; }
      else {
        k := NewestIsLast(steps[..n], hash);
        if NewestSave(steps, hash).Some? { assert steps[..n][k] == steps[k]; }
      }
    }
  }

  /** With saves in recording order, that is: if and only if no younger cassette of its hash was saved since. */
  lemma PrunedIsOldIffNoYoungerSave(cfg: Config, steps: seq<Step>,
      t0: nat, walk: seq<Path>, olderThan: int, cuts: seq<nat>, t: nat, hash: string)
    requires PruneDuring(cfg, steps, t0, walk, olderThan, cuts)
             && PruneRemoves(cfg, steps, t0, walk, olderThan, cuts, t, hash)
    requires t0 <= t && hash in Live(map[], steps[..t]) && SavedInOrder(steps[t0..t], hash)
    ensures Live(map[], steps[..t])[hash].recordedAt < olderThan <==> !SavesYoung(steps[t0..t], hash, olderThan)
  {
    PrunedIsOldIff(cfg, steps, t0, walk, olderThan, cuts, t, hash);
    YoungIffNewestIs(steps[t0..t], hash, olderThan);
  }

  lemma YoungIffNewestIs(steps: seq<Step>, hash: string, olderThan: int)
    requires SavedInOrder(steps, hash)
    ensures SavesYoung(steps, hash, olderThan) <==>
            NewestSave(steps, hash).Some? && NewestSave(steps, hash).value.recordedAt >= olderThan
  {
    var k := NewestIsLast(steps, hash);
    var newest := NewestSave(steps, hash);
    if newest.Some? { assert Commit(newest.value) in steps; }
    if SavesYoung(steps, hash, olderThan) {
      var c :| Commit(c) in steps && c.hash == hash && c.recordedAt >= olderThan;
      var i :| 0 <= i < |steps| && steps[i] == Commit(c);
      assert steps[k] == Commit(newest.value) && i <= k;
    }
  }

  /** Such a Prune: in a store that holds one old cassette, its hash is recorded anew after the list was taken,
      and Prune removes the recent recording. */
  lemma PruneMayRemoveRecentSave(cfg: Config, past: seq<Step>,
      stale: Cassette, recent: Cassette, stamp: string, walk: seq<Path>, olderThan: int)
    requires var r := Run(cfg, FreshDisk, past);
             r.Some? && r.value.phase.Idle? && IsWalk(cfg.settings, r.value.files, walk)
    requires Live(map[], past) == map[stale.hash := stale] && stale.recordedAt < olderThan
    requires Legal(cfg, recent) && recent.hash == stale.hash && '.' !in stamp && recent.recordedAt >= olderThan
    ensures var steps := past + SaveTrace(cfg.settings, recent, stamp, NoFault)
            + DeleteTrace(recent.hash, NO_DELETE_FAULT);
            var t := |past| + 4;
            && PruneDuring(cfg, steps, |past|, walk, olderThan, [t])
            && PruneRemoves(cfg, steps, |past|, walk, olderThan, [t], t, recent.hash)
            && Lookup(Live(map[], steps[..t]), recent.hash) == Some(recent)
            && recent.hash !in Live(map[], steps)
  {
    var save, delete := SaveTrace(cfg.settings, recent, stamp, NoFault), DeleteTrace(recent.hash, NO_DELETE_FAULT);
    var steps, t0, t := past + save + delete, |past|, |past| + 4;
    assert |save| == 4 && steps[..t0] == past && steps[..t] == past + save && steps[t] == Remove(recent.hash);
    SaveThenDeleteRuns(cfg, past, recent, stamp);
    OneEntry(cfg, steps, t0, walk, stale);
    assert [t][0] == t;
    SaveThenDeleteLive(Live(map[], past), cfg.settings, recent, stamp);
    LiveAppend(map[], past, save);
    LiveAppend(map[], past + save, delete);
  }

  lemma SaveThenDeleteRuns(cfg: Config, past: seq<Step>, c: Cassette, stamp: string)
    requires var r := Run(cfg, FreshDisk, past); r.Some? && r.value.phase.Idle?
    requires Legal(cfg, c) && '.' !in stamp
    ensures var save, delete := SaveTrace(cfg.settings, c, stamp, NoFault), DeleteTrace(c.hash, NO_DELETE_FAULT);
            && Run(cfg, FreshDisk, past + save).Some? && Run(cfg, FreshDisk, past + save).value.phase.Idle?
            && Run(cfg, FreshDisk, past + save + delete).Some?
  {
    var save, delete := SaveTrace(cfg.settings, c, stamp, NoFault), DeleteTrace(c.hash, NO_DELETE_FAULT);
    SaveRuns(cfg, Run(cfg, FreshDisk, past).value, c, stamp, NoFault);
    RunAppend(cfg, FreshDisk, past, save);
    var s1 := Run(cfg, FreshDisk, past + save).value;
    assert c.hash in s1.index.paths;
    DeleteRuns(cfg, s1, c.hash, NO_DELETE_FAULT);
    RunAppend(cfg, FreshDisk, past + save, delete);
  }

  lemma SaveThenDeleteLive(m: map<string, Cassette>, st: Settings, c: Cassette, stamp: string)
    ensures var save, delete := SaveTrace(st, c, stamp, NoFault), DeleteTrace(c.hash, NO_DELETE_FAULT);
            && Lookup(Live(m, save), c.hash) == Some(c) && c.hash !in Live(Live(m, save), delete)
  {
    var save, delete := SaveTrace(st, c, stamp, NoFault), DeleteTrace(c.hash, NO_DELETE_FAULT);
    SaveIsLive(m, st, c, stamp);
    assert delete[0] in delete;
    DeleteLive(Live(m, save), delete, c.hash);
  }

  lemma OneEntry(cfg: Config, steps: seq<Step>, t0: nat, walk: seq<Path>, c: Cassette)
    requires t0 <= |steps| && Run(cfg, FreshDisk, steps).Some? && IsWalk(cfg.settings, At(cfg, steps, t0).files, walk)
    requires Live(map[], steps[..t0]) == map[c.hash := c]
    ensures var metas := MetasAt(cfg, steps, t0, walk);
            |metas| == 1 && metas[0].hash == c.hash && metas[0].recordedAt == c.recordedAt
  {
    MetasWereLive(cfg, steps, t0, walk);
    var metas := MetasAt(cfg, steps, t0, walk);
    var i := EntryOf(metas, c.hash);
    SameHashSameEntry(metas, c.hash);
  }

  lemma SameHashSameEntry(metas: seq<CassetteMeta>, hash: string)
    requires DistinctMetas(metas) && forall i | 0 <= i < |metas| :: metas[i].hash == hash
    ensures |metas| <= 1
  {
    if |metas| > 1 { FirstTwoDiffer(metas); }
  }

  lemma FirstTwoDiffer(metas: seq<CassetteMeta>)
    requires DistinctMetas(metas) && |metas| > 1
    ensures metas[0].hash != metas[1].hash
  {
  }

  lemma SaveIsLive(m: map<string, Cassette>, st: Settings, c: Cassette, stamp: string)
    ensures Lookup(Live(m, SaveTrace(st, c, stamp, NoFault)), c.hash) == Some(c)
  {
    var save := SaveTrace(st, c, stamp, NoFault);
    assert save[2] == Commit(c);
    SaveTraceIsSave(st, c, stamp, NoFault);
    SaveLive(m, save, c);
  }

  // The same over whole runs.

  /** After any run that ends idle with every live hash indexed, a query of a nonempty namespace returns
      exactly the live cassettes of that namespace, each once. */
  lemma NamespaceQueryAfterRun(cfg: Config, steps: seq<Step>, ns: string)
    requires var r := Run(cfg, FreshDisk, steps); r.Some? && r.value.phase.Idle? && Unindexed(steps) == {}
    ensures var s, m := Run(cfg, FreshDisk, steps).value, Live(map[], steps);
            && DistinctHashes(QueryAlone(cfg, s, ns))
            && forall c :: c in QueryAlone(cfg, s, ns) <==>
               ns != "" && c.hash in m && m[c.hash] == c && c.namespace == ns
  {
    FreshDiskInv(cfg);
    RunKeepsInv(cfg, FreshDisk, map[], steps);
    NamespaceQueryIsFilter(cfg, Run(cfg, FreshDisk, steps).value, Live(map[], steps), ns);
  }

  /** The hashes that LoadByHash answers with a cassette recorded before the threshold. */
  ghost function OldShown(st: Settings, s: State, olderThan: int): set<string> {
    set h | h in s.index.paths && Load(st, s, h).Some? && Load(st, s, h).value.recordedAt < olderThan
  }

  /** After any run that ends idle, Prune removes from what LoadByHash shows exactly the cassettes recorded
      before the threshold, except those of which neither file nor index entry could be removed, and returns
      the number of deletions that reported no error. */
  lemma PruneAfterRun(cfg: Config, steps: seq<Step>, walk: seq<Path>, olderThan: int, faults: string -> DeleteFault)
    requires var r := Run(cfg, FreshDisk, steps);
             r.Some? && r.value.phase.Idle? && IsWalk(cfg.settings, r.value.files, walk)
    ensures var s := Run(cfg, FreshDisk, steps).value;
            var r := AfterPrune(cfg.settings, s, Metas(cfg.settings, s.files, walk), olderThan, faults);
            var old' := OldShown(cfg.settings, s, olderThan);
            && r.count == |EntriesGone(old', faults)|
            && forall h :: Load(cfg.settings, r.state, h) ==
                           if h in old' && faults(h) != DeleteFault(true, true) then None else Load(cfg.settings, s, h)
  {
    var s, m, hidden := Run(cfg, FreshDisk, steps).value, Live(map[], steps), Unindexed(steps);
    FreshDiskInv(cfg);
    RunKeepsInv(cfg, FreshDisk, map[], steps);
    OldIsOldShown(cfg, s, m, hidden, olderThan);
    PruneIsExact(cfg, s, m, hidden, walk, olderThan, faults);
  }

  lemma OldIsOldShown(cfg: Config, s: State, m: map<string, Cassette>, hidden: set<string>, olderThan: int)
    requires Inv(cfg, s, m, hidden) && s.phase.Idle?
    ensures Old(m, s.index.paths, olderThan) == OldShown(cfg.settings, s, olderThan)
  {
    forall h ensures h in Old(m, s.index.paths, olderThan) <==> h in OldShown(cfg.settings, s, olderThan) {
      LoadIsLookup(cfg, s, m, hidden, h);
    }
  }
}
