/** What the machine guarantees over whole runs: the store is a plain map, a crash loses nothing that
    was committed, and rebuilding the index of any directory is well behaved. */
module StoreTheorems {
  import opened Wrappers
  import opened Cassettes
  import opened Index
  import opened StoreMachine

  /** A directory without files, before NewDiskStore. */
  const FreshDisk := State(map[], EmptyIndex, Down, NoScan)

  lemma FreshDiskInv(cfg: Config)
    ensures Inv(cfg, FreshDisk, map[], {}) && RemovalSound(FreshDisk, map[], {})
  {
  }

  /** In every phase LoadByHash yields the live cassette of an indexed hash and nothing for others. */
  lemma LoadIsLookup(cfg: Config, s: State, m: map<string, Cassette>, hidden: set<string>, hash: string)
    requires Inv(cfg, s, m, hidden)
    ensures Load(cfg.settings, s, hash) == if hash in s.index.paths then Lookup(m, hash) else None
  {
    if hash in s.index.paths {
      PathFacts(cfg, hash);
      if hash !in m && PathOf(cfg, hash) in s.files {
        var c := Scanned(cfg.settings, s.files, PathOf(cfg, hash)).value;
        assert c.hash in m && PathOf(cfg, hash) == PathOf(cfg, c.hash);
        OnePathEach(cfg, hash, c.hash);
      }
    }
  }

  /** The main theorem. After any run from an empty directory, with crashes, reopenings (even without the
      index file) and unlocked rebuilds in between, whenever no operation holds the lock LoadByHash agrees
      with the plain map of committed saves and removals. The only exception are hashes whose index update
      or file removal failed since the last reopening, and those read as absent. */
  lemma StoreIsAMap(cfg: Config, steps: seq<Step>, hash: string)
    requires var r := Run(cfg, FreshDisk, steps); r.Some? && r.value.phase.Idle?
    ensures var s, m := Run(cfg, FreshDisk, steps).value, Live(map[], steps);
            || Load(cfg.settings, s, hash) == Lookup(m, hash)
            || (hash in Unindexed(steps) && hash !in s.index.paths && Load(cfg.settings, s, hash) == None)
  {
    FreshDiskInv(cfg);
    RunKeepsInv(cfg, FreshDisk, map[], steps);
    var s, m := Run(cfg, FreshDisk, steps).value, Live(map[], steps);
    LoadIsLookup(cfg, s, m, Unindexed(steps), hash);
    if hash in m { assert Covered(cfg, s, Unindexed(steps), hash); }
  }

  // Hashes that are not deleted stay visible.

  /** `h` is indexed and not being deleted, or the store is being opened and will index it. */
  ghost predicate Held(cfg: Config, s: State, h: string) {
    !(s.phase.Removed? && s.phase.hash == h) &&
    (|| h in s.index.paths
     || s.phase.Down?
     || (s.phase.Opening? && s.scan.Visiting? && PathOf(cfg, h) in s.scan.todo)
     || (s.phase.Opening? && s.scan.Found? && (s.scan.hash == h || PathOf(cfg, h) in s.scan.todo)))
  }

  lemma HeldIsCovered(cfg: Config, s: State, h: string)
    requires Held(cfg, s, h)
    ensures Covered(cfg, s, {}, h)
  {
  }

  lemma HeldVisit(cfg: Config, s: State, m: map<string, Cassette>, h: string)
    requires FilesSound(cfg, s.files, m) && h in m && Held(cfg, s, h) && Enabled(cfg, s, Visit)
    ensures Held(cfg, Apply(cfg, s, Visit), h)
  {
    HeldIsCovered(cfg, s, h);
    VisitKeepsCovered(cfg, s, m, {}, h);
  }

  lemma HeldReopen(cfg: Config, s: State, step: Step, m: map<string, Cassette>, h: string)
    requires FilesSound(cfg, s.files, m) && h in m && Enabled(cfg, s, step) && step.Reopen?
    ensures Held(cfg, Apply(cfg, s, step), h)
  {
    LiveIsScanned(cfg, s.files, m, h);
    PathFacts(cfg, h);
    assert PathOf(cfg, h) in step.walk;
  }

  lemma HeldOtherwise(cfg: Config, s: State, step: Step, h: string)
    requires Held(cfg, s, h) && Enabled(cfg, s, step) && !step.Visit? && !step.Reopen?
    requires step != Remove(h) && step != RemoveFails(h)
    ensures Held(cfg, Apply(cfg, s, step), h)
  {
  }

  lemma HeldStep(cfg: Config, s: State, step: Step, m: map<string, Cassette>, hidden: set<string>, h: string)
    requires Inv(cfg, s, m, hidden) && h in m && Held(cfg, s, h) && Enabled(cfg, s, step)
    requires step != Remove(h) && step != RemoveFails(h)
    ensures h in LiveAfter(m, step) && Held(cfg, Apply(cfg, s, step), h)
  {
    if step.Visit? { HeldVisit(cfg, s, m, h); }
    else if step.Reopen? { HeldReopen(cfg, s, step, m, h); }
    else { HeldOtherwise(cfg, s, step, h); }
  }

  /** Steps that do not delete `h`. */
  predicate Spares(steps: seq<Step>, h: string) {
    Remove(h) !in steps && RemoveFails(h) !in steps
  }

  lemma SparesFront(steps: seq<Step>, h: string)
    requires steps != [] && Spares(steps, h)
    ensures Spares(steps[..|steps| - 1], h) && steps[|steps| - 1] != Remove(h) && steps[|steps| - 1] != RemoveFails(h)
  {
    assert steps[|steps| - 1] in steps;
  }

  lemma {:induction false} HeldRun(cfg: Config, past: seq<Step>, more: seq<Step>, h: string)
    requires Run(cfg, FreshDisk, past).Some? && Run(cfg, FreshDisk, past + more).Some? && Spares(more, h)
    requires h in Live(map[], past) && Held(cfg, Run(cfg, FreshDisk, past).value, h)
    ensures h in Live(map[], past + more) && Held(cfg, Run(cfg, FreshDisk, past + more).value, h)
  {
    if more == [] { assert past + more == past; }
    else {
      var n := |more| - 1;
      var before := past + more[..n];
      assert (past + more)[..|past + more| - 1] == before && (past + more)[|past + more| - 1] == more[n];
      SparesFront(more, h);
      HeldRun(cfg, past, more[..n], h);
      FreshDiskInv(cfg);
      RunKeepsInv(cfg, FreshDisk, map[], before);
      HeldStep(cfg, Run(cfg, FreshDisk, before).value, more[n], Live(map[], before), Unindexed(before), h);
    }
  }

  /** From an idle moment at which a hash loads on, it loads at every later idle moment until it is deleted,
      and what loads is the live cassette: failing index updates of later saves, rebuilds, crashes and lost
      index files do not hide it. */
  lemma KeptHashLoads(cfg: Config, past: seq<Step>, more: seq<Step>, h: string)
    requires var r := Run(cfg, FreshDisk, past); r.Some? && r.value.phase.Idle? && Load(cfg.settings, r.value, h).Some?
    requires var r := Run(cfg, FreshDisk, past + more); r.Some? && r.value.phase.Idle?
    requires Spares(more, h)
    ensures h in Live(map[], past + more)
    ensures Load(cfg.settings, Run(cfg, FreshDisk, past + more).value, h) == Some(Live(map[], past + more)[h])
  {
    FreshDiskInv(cfg);
    RunKeepsInv(cfg, FreshDisk, map[], past);
    RunKeepsInv(cfg, FreshDisk, map[], past + more);
    LoadIsLookup(cfg, Run(cfg, FreshDisk, past).value, Live(map[], past), Unindexed(past), h);
    HeldRun(cfg, past, more, h);
    LoadIsLookup(cfg, Run(cfg, FreshDisk, past + more).value, Live(map[], past + more), Unindexed(past + more), h);
  }

  lemma RenamedStep(cfg: Config, s: State, step: Step, m: map<string, Cassette>)
    requires Enabled(cfg, s, step) && (s.phase.Renamed? ==> Lookup(m, s.phase.c.hash) == Some(s.phase.c))
    ensures var phase := Apply(cfg, s, step).phase;
            phase.Renamed? ==> Lookup(LiveAfter(m, step), phase.c.hash) == Some(phase.c)
  {
  }

  /** Between rename and index update the saved cassette is the live one of its hash. */
  lemma {:induction false} RenamedIsLive(cfg: Config, steps: seq<Step>)
    requires Run(cfg, FreshDisk, steps).Some?
    ensures var phase := Run(cfg, FreshDisk, steps).value.phase;
            phase.Renamed? ==> Lookup(Live(map[], steps), phase.c.hash) == Some(phase.c)
  {
    if steps != [] {
      var n := |steps| - 1;
      RenamedIsLive(cfg, steps[..n]);
      RenamedStep(cfg, Run(cfg, FreshDisk, steps[..n]).value, steps[n], Live(map[], steps[..n]));
    }
  }

  lemma LoadsWhenIndexed(cfg: Config, past: seq<Step>, s: State, c: Cassette)
    requires Run(cfg, FreshDisk, past) == Some(s) && c.hash in s.index.paths
             && Lookup(Live(map[], past), c.hash) == Some(c)
    ensures Load(cfg.settings, s, c.hash) == Some(c)
  {
    FreshDiskInv(cfg);
    RunKeepsInv(cfg, FreshDisk, map[], past);
    LoadIsLookup(cfg, s, Live(map[], past), Unindexed(past), c.hash);
  }

  lemma RunSnoc(cfg: Config, past: seq<Step>, s: State, step: Step)
    requires Run(cfg, FreshDisk, past) == Some(s) && Enabled(cfg, s, step)
    ensures Run(cfg, FreshDisk, past + [step]) == Some(Apply(cfg, s, step))
    ensures Live(map[], past + [step]) == LiveAfter(Live(map[], past), step)
  {
    assert (past + [step])[..|past|] == past;
  }

  /** A save that reports no error makes its cassette load. */
  lemma SuccessfulSaveLoads(cfg: Config, past: seq<Step>, c: Cassette)
    requires var r := Run(cfg, FreshDisk, past); r.Some? && r.value.phase == Renamed(c)
    ensures var r := Run(cfg, FreshDisk, past + [IndexSave]);
            r.Some? && r.value.phase.Idle? && Load(cfg.settings, r.value, c.hash) == Some(c)
  {
    var s := Run(cfg, FreshDisk, past).value;
    RunSnoc(cfg, past, s, IndexSave);
    RenamedIsLive(cfg, past);
    LoadsWhenIndexed(cfg, past + [IndexSave], Apply(cfg, s, IndexSave), c);
  }

  /** A save that fails at its index update has taken effect all the same when its hash was indexed before. */
  lemma FailedSaveMayLoad(cfg: Config, past: seq<Step>, c: Cassette)
    requires var r := Run(cfg, FreshDisk, past); r.Some? && r.value.phase == Renamed(c) && c.hash in r.value.index.paths
    ensures var r := Run(cfg, FreshDisk, past + [IndexSaveFails(c)]);
            r.Some? && r.value.phase.Idle? && Load(cfg.settings, r.value, c.hash) == Some(c)
  {
    var s := Run(cfg, FreshDisk, past).value;
    RunSnoc(cfg, past, s, IndexSaveFails(c));
    RenamedIsLive(cfg, past);
    LoadsWhenIndexed(cfg, past + [IndexSaveFails(c)], Apply(cfg, s, IndexSaveFails(c)), c);
  }

  lemma {:induction false} LiveWasCommitted(steps: seq<Step>, hash: string)
    requires hash in Live(map[], steps)
    ensures Commit(Live(map[], steps)[hash]) in steps && Live(map[], steps)[hash].hash == hash
  {
    var n := |steps| - 1;
    if steps[n].Commit? && steps[n].c.hash == hash { assert steps[n] in steps; }
    else {
      LiveWasCommitted(steps[..n], hash);
      assert steps == steps[..n] + [steps[n]];
    }
  }

  // Crash safety of one operation.

  /** The steps of one Save of `c`, however far it got and whatever failed. */
  ghost predicate SaveOnly(steps: seq<Step>, c: Cassette) {
    forall step | step in steps ::
      || (step.BeginSave? && step.c == c) || step.WriteTemp? || step == Commit(c)
      || step.AbandonSave? || step.IndexSave? || step == IndexSaveFails(c)
  }

  /** The steps of one Delete of `hash`. */
  ghost predicate DeleteOnly(steps: seq<Step>, hash: string) {
    forall step | step in steps :: step == Remove(hash) || step.IndexDelete? || step.IndexDeleteFails?
  }

  ghost predicate RebuildOnly(steps: seq<Step>) {
    forall step | step in steps :: step.Visit? || step.Record? || step.EndRebuild?
  }

  /** A crash, then an open that runs to its end. */
  ghost predicate Recovery(steps: seq<Step>) {
    |steps| >= 2 && steps[0] == Crash && steps[1].Reopen? && RebuildOnly(steps[2..])
  }

  lemma {:induction false} LiveAppend(m: map<string, Cassette>, a: seq<Step>, b: seq<Step>)
    ensures Live(m, a + b) == Live(Live(m, a), b)
  {
    if b == [] { assert a + b == a; }
    else {
      var n := |b| - 1;
      LiveAppend(m, a, b[..n]);
      assert (a + b)[..|a + b| - 1] == a + b[..n];
    }
  }

  lemma {:induction false} UnindexedAppend(a: seq<Step>, b: seq<Step>)
    requires exists i :: 0 <= i < |b| && b[i].Reopen?
    ensures Unindexed(a + b) == Unindexed(b)
  {
    var n := |b| - 1;
    assert (a + b)[..|a + b| - 1] == a + b[..n];
    if !b[n].Reopen? {
      var i :| 0 <= i < |b| && b[i].Reopen?;
      assert b[..n][i].Reopen?;
      UnindexedAppend(a, b[..n]);
    }
  }

  lemma {:induction false} QuietRebuild(m: map<string, Cassette>, steps: seq<Step>)
    requires RebuildOnly(steps)
    ensures Live(m, steps) == m && Unindexed(steps) == {}
  {
    if steps != [] { assert steps[|steps| - 1] in steps; QuietRebuild(m, steps[..|steps| - 1]); }
  }

  lemma RecoveryIsClean(m: map<string, Cassette>, steps: seq<Step>)
    requires Recovery(steps)
    ensures Live(m, steps) == m && Unindexed(steps) == {}
  {
    var head := steps[..2];
    assert steps == head + steps[2..];
    LiveAppend(m, head, steps[2..]);
    assert head[..1] == [Crash] && [Crash][..0] == [];
    QuietRebuild(m, steps[2..]);
    RecoveryHidden(head, steps[2..]);
  }

  lemma {:induction false} RecoveryHidden(head: seq<Step>, rest: seq<Step>)
    requires |head| == 2 && head[1].Reopen? && RebuildOnly(rest)
    ensures Unindexed(head + rest) == {}
  {
    if rest == [] { assert head + rest == head; }
    else {
      assert rest[|rest| - 1] in rest;
      RecoveryHidden(head, rest[..|rest| - 1]);
      assert (head + rest)[..|head + rest| - 1] == head + rest[..|rest| - 1];
    }
  }

  lemma {:induction false} SaveLive(m: map<string, Cassette>, steps: seq<Step>, c: Cassette)
    requires SaveOnly(steps, c)
    ensures Live(m, steps) == if Commit(c) in steps then m[c.hash := c] else m
  {
    if steps != [] { assert steps[|steps| - 1] in steps; SaveLive(m, steps[..|steps| - 1], c); }
  }

  lemma {:induction false} DeleteLive(m: map<string, Cassette>, steps: seq<Step>, hash: string)
    requires DeleteOnly(steps, hash)
    ensures Live(m, steps) == if Remove(hash) in steps then m - {hash} else m
  {
    if steps != [] { assert steps[|steps| - 1] in steps; DeleteLive(m, steps[..|steps| - 1], hash); }
  }

  /** A run that ends open after a crash shows exactly the map committed before the crash. */
  lemma AfterRecovery(cfg: Config, past: seq<Step>, recovery: seq<Step>, hash: string)
    requires Recovery(recovery)
    requires var r := Run(cfg, FreshDisk, past + recovery); r.Some? && r.value.phase.Idle?
    ensures Load(cfg.settings, Run(cfg, FreshDisk, past + recovery).value, hash) == Lookup(Live(map[], past), hash)
  {
    StoreIsAMap(cfg, past + recovery, hash);
    LiveAppend(map[], past, recovery);
    RecoveryIsClean(Live(map[], past), recovery);
    assert recovery[1].Reopen?;
    UnindexedAppend(past, recovery);
  }

  /** Stop a Save after any step and reopen: the saved hash loads its new value if the rename was done
      and its old one otherwise, and every other hash loads what it held before. */
  lemma CrashDuringSave(cfg: Config, past: seq<Step>, save: seq<Step>, c: Cassette, recovery: seq<Step>, hash: string)
    requires SaveOnly(save, c) && Recovery(recovery)
    requires var r := Run(cfg, FreshDisk, past + save + recovery); r.Some? && r.value.phase.Idle?
    ensures Load(cfg.settings, Run(cfg, FreshDisk, past + save + recovery).value, hash) ==
            if hash == c.hash && Commit(c) in save then Some(c) else Lookup(Live(map[], past), hash)
  {
    AfterRecovery(cfg, past + save, recovery, hash);
    LiveAppend(map[], past, save);
    SaveLive(Live(map[], past), save, c);
  }

  /** Stop a Delete after any step and reopen: removal of the file is its commit point. */
  lemma CrashDuringDelete(cfg: Config, past: seq<Step>, delete: seq<Step>,
      gone: string, recovery: seq<Step>, hash: string)
    requires DeleteOnly(delete, gone) && Recovery(recovery)
    requires var r := Run(cfg, FreshDisk, past + delete + recovery); r.Some? && r.value.phase.Idle?
    ensures Load(cfg.settings, Run(cfg, FreshDisk, past + delete + recovery).value, hash) ==
            if hash == gone && Remove(gone) in delete then None else Lookup(Live(map[], past), hash)
  {
    AfterRecovery(cfg, past + delete, recovery, hash);
    LiveAppend(map[], past, delete);
    DeleteLive(Live(map[], past), delete, gone);
  }

  /** A delete whose file could not be removed hides its hash only until the next reopening. */
  lemma FailedRemovalComesBack(cfg: Config, past: seq<Step>, hash: string, recovery: seq<Step>)
    requires Recovery(recovery)
    requires var r := Run(cfg, FreshDisk, past + [RemoveFails(hash), IndexDelete] + recovery);
             r.Some? && r.value.phase.Idle?
    ensures Load(cfg.settings, Run(cfg, FreshDisk, past + [RemoveFails(hash), IndexDelete] + recovery).value, hash) ==
            Lookup(Live(map[], past), hash)
  {
    var failed := [RemoveFails(hash), IndexDelete];
    AfterRecovery(cfg, past + failed, recovery, hash);
    LiveAppend(map[], past, failed);
    var m := Live(map[], past);
    assert failed[..1] == [RemoveFails(hash)] && failed[..1][..0] == [];
    assert Live(m, failed[..1]) == m && failed[1] == IndexDelete;
  }
}
