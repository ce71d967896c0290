/** RebuildIndex over an arbitrary directory (pkg/store/store.go, pkg/store/index.go): nothing is assumed
    of the files, of their hashes and namespaces, or of what the index held before. */
module Rebuild {
  import opened Wrappers
  import opened Paths
  import opened Ordering
  import opened Cassettes
  import opened Index
  import opened StoreMachine
  import opened StoreTheorems

  /** The cassette a rebuild indexes for path `p`. */
  function Indexable(st: Settings, files: map<Path, Bytes>, p: Path): Option<Cassette> {
    var c := Scanned(st, files, p);
    if Below(st.base, p) && c.Some? && c.value.hash != "" then c else None
  }

  /** The index after visiting the files of `walk` in order. */
  function Rebuilt(st: Settings, files: map<Path, Bytes>, x: IndexState, walk: seq<Path>): IndexState {
    if |walk| == 0 then x
    else
      var p := walk[|walk| - 1];
      var y := Rebuilt(st, files, x, walk[..|walk| - 1]);
      match Indexable(st, files, p)
      case Some(c) => WithEntry(y, c.hash, c.namespace, p[|st.base|..])
      case None => y
  }

  predicate HasHash(st: Settings, files: map<Path, Bytes>, p: Path, hash: string) {
    var c := Indexable(st, files, p);
    c.Some? && c.value.hash == hash
  }

  /** `walk[i]` is the last visited file that carries `hash`. */
  ghost predicate LastWith(st: Settings, files: map<Path, Bytes>, walk: seq<Path>, i: nat, hash: string) {
    i < |walk| && HasHash(st, files, walk[i], hash) && forall j | i < j < |walk| :: !HasHash(st, files, walk[j], hash)
  }

  /** A hash is mapped to the last file that carries it. */
  lemma {:induction false} LastFileWins(st: Settings, files: map<Path, Bytes>,
      x: IndexState, walk: seq<Path>, i: nat, hash: string)
    requires LastWith(st, files, walk, i, hash)
    ensures var y := Rebuilt(st, files, x, walk); hash in y.paths && y.paths[hash] == walk[i][|st.base|..]
  {
    var n := |walk| - 1;
    if i < n {
      assert !HasHash(st, files, walk[n], hash);
      LastFileWins(st, files, x, walk[..n], i, hash);
    }
  }

  /** Some visited file carries `hash`. */
  predicate Carried(st: Settings, files: map<Path, Bytes>, walk: seq<Path>, hash: string) {
    walk != [] && (HasHash(st, files, walk[|walk| - 1], hash) || Carried(st, files, walk[..|walk| - 1], hash))
  }

  /** A hash that no visited file carries keeps its entry, or its absence. */
  lemma {:induction false} UnseenKeepsEntry(st: Settings, files: map<Path, Bytes>,
      x: IndexState, walk: seq<Path>, hash: string)
    requires !Carried(st, files, walk, hash)
    ensures Lookup'(Rebuilt(st, files, x, walk).paths, hash) == Lookup'(x.paths, hash)
  {
    if |walk| > 0 {
      UnseenKeepsEntry(st, files, x, walk[..|walk| - 1], hash);
    }
  }

  function Lookup'(paths: map<string, Path>, hash: string): Option<Path> {
    if hash in paths then Some(paths[hash]) else None
  }

  lemma {:induction false} FindLast(st: Settings, files: map<Path, Bytes>, walk: seq<Path>, hash: string)
      returns (i: nat)
    requires Carried(st, files, walk, hash)
    ensures LastWith(st, files, walk, i, hash)
  {
    var n := |walk| - 1;
    if HasHash(st, files, walk[n], hash) { i := n; }
    else {
      i := FindLast(st, files, walk[..n], hash);
      assert walk[..n][i] == walk[i];
      forall j | i < j < |walk|
          ensures !HasHash(st, files, walk[j], hash) { if j < n { assert walk[..n][j] == walk[j]; } }
    }
  }

  /** The list of `ns` after one more entry. */
  function Grown(list: seq<string>, c: Option<Cassette>, ns: string): seq<string> {
    if c.Some? && c.value.namespace == ns && ns != "" && c.value.hash !in list then list + [c.value.hash] else list
  }

  lemma GrownHas(list: seq<string>, c: Option<Cassette>, ns: string, h: string)
    requires h in list || (ns != "" && c.Some? && c.value.namespace == ns && c.value.hash == h)
    ensures h in Grown(list, c, ns)
  {
    if h !in list { assert (list + [h])[|list|] == h; }
  }

  lemma ListsStep(st: Settings, files: map<Path, Bytes>, x: IndexState, walk: seq<Path>, ns: string)
    requires walk != []
    ensures var n := |walk| - 1;
            Listed(Rebuilt(st, files, x, walk), ns) ==
            Grown(Listed(Rebuilt(st, files, x, walk[..n]), ns), Indexable(st, files, walk[n]), ns)
  {
  }

  /** Namespace lists only grow, at their end and without repeating a hash. */
  lemma {:induction false} ListsGrow(st: Settings, files: map<Path, Bytes>, x: IndexState, walk: seq<Path>, ns: string)
    ensures var before, after := Listed(x, ns), Listed(Rebuilt(st, files, x, walk), ns);
            before <= after && (NoDuplicates(before) ==> NoDuplicates(after))
  {
    if walk != [] {
      ListsGrow(st, files, x, walk[..|walk| - 1], ns);
      ListsStep(st, files, x, walk, ns);
    }
  }

  /** What a list gains is carried by visited files. */
  lemma {:induction false} GainsAreCarried(st: Settings, files: map<Path, Bytes>,
      x: IndexState, walk: seq<Path>, ns: string, h: string)
    requires h in Listed(Rebuilt(st, files, x, walk), ns) && h !in Listed(x, ns)
    ensures Carried(st, files, walk, h)
  {
    if walk != [] {
      ListsStep(st, files, x, walk, ns);
      if h in Listed(Rebuilt(st, files, x, walk[..|walk| - 1]), ns) {
        GainsAreCarried(st, files, x, walk[..|walk| - 1], ns, h);
      }
    }
  }

  /** Every visited cassette with a namespace is listed there. */
  lemma {:induction false} VisitedAreListed(st: Settings, files: map<Path, Bytes>,
      x: IndexState, walk: seq<Path>, k: nat, c: Cassette)
    requires k < |walk| && Indexable(st, files, walk[k]) == Some(c) && c.namespace != ""
    ensures c.hash in Listed(Rebuilt(st, files, x, walk), c.namespace)
  {
    var n := |walk| - 1;
    var before := Listed(Rebuilt(st, files, x, walk[..n]), c.namespace);
    if k < n {
      assert walk[..n][k] == walk[k];
      VisitedAreListed(st, files, x, walk[..n], k, c);
    }
    GrownHas(before, Indexable(st, files, walk[n]), c.namespace, c.hash);
    ListsStep(st, files, x, walk, c.namespace);
  }

  /** Entries that are already listed change no list. */
  lemma {:induction false} SeenListsStay(st: Settings, files: map<Path, Bytes>, x: IndexState, walk: seq<Path>)
    requires forall k | 0 <= k < |walk| && Indexable(st, files, walk[k]).Some? ::
               var c := Indexable(st, files, walk[k]).value; c.namespace == "" || c.hash in Listed(x, c.namespace)
    ensures Rebuilt(st, files, x, walk).lists == x.lists
  {
    if |walk| > 0 {
      var n := |walk| - 1;
      forall k | 0 <= k < n && Indexable(st, files, walk[..n][k]).Some?
        ensures var c := Indexable(st, files, walk[..n][k]).value; c.namespace == "" || c.hash in Listed(x, c.namespace)
      { assert walk[..n][k] == walk[k]; }
      SeenListsStay(st, files, x, walk[..n]);
    }
  }

  /** Running a rebuild twice is running it once. */
  lemma RebuildIsIdempotent(st: Settings, files: map<Path, Bytes>, x: IndexState, walk: seq<Path>)
    ensures Rebuilt(st, files, Rebuilt(st, files, x, walk), walk) == Rebuilt(st, files, x, walk)
  {
    var y := Rebuilt(st, files, x, walk);
    var z := Rebuilt(st, files, y, walk);
    forall k | 0 <= k < |walk| && Indexable(st, files, walk[k]).Some?
      ensures var c := Indexable(st, files, walk[k]).value; c.namespace == "" || c.hash in Listed(y, c.namespace)
    {
      var c := Indexable(st, files, walk[k]).value;
      if c.namespace != "" { VisitedAreListed(st, files, x, walk, k, c); }
    }
    SeenListsStay(st, files, y, walk);
    forall h ensures Lookup'(z.paths, h) == Lookup'(y.paths, h) {
      if Carried(st, files, walk, h) {
        var i := FindLast(st, files, walk, h);
        LastFileWins(st, files, x, walk, i, h);
        LastFileWins(st, files, y, walk, i, h);
      } else {
        UnseenKeepsEntry(st, files, y, walk, h);
      }
    }
    assert forall h :: h in z.paths <==> Lookup'(z.paths, h).Some?;
    assert forall h :: h in y.paths <==> Lookup'(y.paths, h).Some?;
    assert z.paths == y.paths;
  }

  lemma {:induction false} RebuiltAppend(st: Settings, files: map<Path, Bytes>,
      x: IndexState, a: seq<Path>, b: seq<Path>)
    ensures Rebuilt(st, files, x, a + b) == Rebuilt(st, files, Rebuilt(st, files, x, a), b)
  {
    if b == [] { assert a + b == a; }
    else {
      RebuiltAppend(st, files, x, a, b[..|b| - 1]);
      assert (a + b)[..|a + b| - 1] == a + b[..|b| - 1];
    }
  }

  /** Temporary files left behind by interrupted saves are as good as absent. */
  lemma TempFilesAreIgnored(st: Settings, files: map<Path, Bytes>,
      x: IndexState, a: seq<Path>, target: Path, stamp: string, b: seq<Path>)
    requires '.' !in stamp && |target| > 0
    ensures Rebuilt(st, files, x, a + [TempOf(target, stamp)] + b) == Rebuilt(st, files, x, a + b)
  {
    var tmp := TempOf(target, stamp);
    TempIsIgnored(Name(target), stamp);
    assert (a + [tmp])[..|a|] == a;
    RebuiltAppend(st, files, x, a + [tmp], b);
    RebuiltAppend(st, files, x, a, b);
  }

  // The order of filepath.WalkDir: directory entries in byte order of their names.

  predicate Precedes(p: Path, q: Path) {
    if q == [] then false
    else if p == [] then true
    else Less(p[0], q[0]) || (p[0] == q[0] && Precedes(p[1..], q[1..]))
  }

  /** The paths WalkDir reports: the files below the base directory, in order. */
  ghost predicate IsWalk(st: Settings, files: map<Path, Bytes>, walk: seq<Path>) {
    && (forall p :: p in walk <==> p in files && Below(st.base, p))
    && (forall i, j | 0 <= i < j < |walk| :: Precedes(walk[i], walk[j]))
  }

  lemma {:induction false} PrecedesAsymmetric(p: Path, q: Path)
    requires Precedes(p, q)
    ensures !Precedes(q, p)
  {
    if p != [] {
      if Less(p[0], q[0]) { LessAsymmetric(p[0], q[0]); }
      else {
        PrecedesAsymmetric(p[1..], q[1..]);
      }
    }
  }

  lemma BelowSplits(base: Path, p: Path)
    requires Below(base, p)
    ensures base + p[|base|..] == p
  {
  }

  /** In walk order the winning file of a hash is the greatest path that carries it. */
  lemma GreatestFileWins(st: Settings, files: map<Path, Bytes>, x: IndexState, walk: seq<Path>, p: Path, hash: string)
    requires IsWalk(st, files, walk)
    requires p in files && HasHash(st, files, p, hash)
    requires forall q | q in files && q != p && HasHash(st, files, q, hash) :: Precedes(q, p)
    ensures var y := Rebuilt(st, files, x, walk); hash in y.paths && y.paths[hash] == p[|st.base|..]
  {
    assert p in walk;
    var i :| 0 <= i < |walk| && walk[i] == p;
    forall j | i < j < |walk| ensures !HasHash(st, files, walk[j], hash) {
      PrecedesAsymmetric(walk[i], walk[j]);
      assert walk[j] in walk;
    }
    LastFileWins(st, files, x, walk, i, hash);
  }

  lemma {:induction false} PrecedesByLast(dir: Path, a: string, b: string)
    requires Less(a, b)
    ensures Precedes(dir + [a], dir + [b])
  {
    if dir != [] {
      PrecedesByLast(dir[1..], a, b);
      assert (dir + [a])[1..] == dir[1..] + [a] && (dir + [b])[1..] == dir[1..] + [b];
    }
  }

  lemma JsonBeforeYaml()
    ensures Less(".json", ".yaml")
  {
    assert Less("json", "yaml");
    LessByLast(".", "json", "yaml");
    assert "." + "json" == ".json" && "." + "yaml" == ".yaml";
  }

  /** Two formats side by side: when one hash has a YAML file in its directory and at most a JSON file
      beside it, a rebuild indexes the YAML file. This is why one format is assumed elsewhere. */
  lemma YamlShadowsJson(st: Settings, files: map<Path, Bytes>, x: IndexState, walk: seq<Path>, dir: Path, hash: string,
                        json: Path, yaml: Path)
    requires IsWalk(st, files, walk) && json == dir + [hash + ".json"] && yaml == dir + [hash + ".yaml"]
    requires yaml in files && HasHash(st, files, yaml, hash)
    requires forall p | p in files && HasHash(st, files, p, hash) :: p == json || p == yaml
    ensures var y := Rebuilt(st, files, x, walk); hash in y.paths && st.base + y.paths[hash] == yaml
  {
    JsonBeforeYaml();
    LessByLast(hash, ".json", ".yaml");
    PrecedesByLast(dir, hash + ".json", hash + ".yaml");
    GreatestFileWins(st, files, x, walk, yaml, hash);
    BelowSplits(st.base, yaml);
  }

  // A rebuild as machine steps, and recovery from any crash.

  function VisitSteps(st: Settings, files: map<Path, Bytes>, walk: seq<Path>): seq<Step> {
    if walk == [] then []
    else (if Indexable(st, files, walk[0]).Some? then [Visit, Record] else [Visit]) + VisitSteps(st, files, walk[1..])
  }

  function ScanSteps(st: Settings, files: map<Path, Bytes>, walk: seq<Path>): seq<Step> {
    VisitSteps(st, files, walk) + [EndRebuild]
  }

  /** A rebuild whose index update fails at file `k` of the walk. */
  function FailedScanSteps(st: Settings, files: map<Path, Bytes>, walk: seq<Path>, k: nat): seq<Step>
    requires k < |walk|
  {
    VisitSteps(st, files, walk[..k]) + [Visit, RecordFails]
  }

  lemma {:induction false} RunAppend(cfg: Config, s: State, a: seq<Step>, b: seq<Step>)
    ensures Run(cfg, s, a + b) == if Run(cfg, s, a).Some? then Run(cfg, Run(cfg, s, a).value, b) else None
  {
    if b == [] { assert a + b == a; }
    else {
      RunAppend(cfg, s, a, b[..|b| - 1]);
      assert (a + b)[..|a + b| - 1] == a + b[..|b| - 1];
    }
  }

  lemma RunOne(cfg: Config, s: State, step: Step)
    ensures Run(cfg, s, [step]) == if Enabled(cfg, s, step) then Some(Apply(cfg, s, step)) else None
  {
    assert [step][..0] == [];
  }

  lemma RunTwo(cfg: Config, s: State, a: Step, b: Step)
    requires Enabled(cfg, s, a) && Enabled(cfg, Apply(cfg, s, a), b)
    ensures Run(cfg, s, [a, b]) == Some(Apply(cfg, Apply(cfg, s, a), b))
  {
    RunOne(cfg, s, a);
    RunOne(cfg, Apply(cfg, s, a), b);
    RunAppend(cfg, s, [a], [b]);
    assert [a] + [b] == [a, b];
  }

  /** Visiting and recording the first file of a walk. */
  lemma VisitOne(cfg: Config, s: State, p: Path, rest: seq<Path>)
    requires s.scan == Visiting([p] + rest) && Below(cfg.settings.base, p)
    ensures Run(cfg, s, if Indexable(cfg.settings, s.files, p).Some? then [Visit, Record] else [Visit]) ==
            Some(s.(index := Rebuilt(cfg.settings, s.files, s.index, [p]), scan := Visiting(rest)))
  {
    assert ([p] + rest)[1..] == rest && [p][..0] == [];
    RunOne(cfg, s, Visit);
    if Indexable(cfg.settings, s.files, p).Some? { RunTwo(cfg, s, Visit, Record); }
  }

  /** The machine's own visits and index updates compute Rebuilt. */
  lemma {:induction false} VisitsComputeRebuilt(cfg: Config, s: State, walk: seq<Path>, rest: seq<Path>)
    requires s.scan == Visiting(walk + rest) && WalkBelow(cfg, walk)
    ensures RebuildOnly(VisitSteps(cfg.settings, s.files, walk))
    ensures Run(cfg, s, VisitSteps(cfg.settings, s.files, walk)) ==
            Some(s.(index := Rebuilt(cfg.settings, s.files, s.index, walk), scan := Visiting(rest)))
    decreases |walk|
  {
    var st := cfg.settings;
    if walk == [] { assert walk + rest == rest; }
    else {
      var p, more := walk[0], walk[1..];
      var first := if Indexable(st, s.files, p).Some? then [Visit, Record] else [Visit];
      assert walk + rest == [p] + (more + rest) && walk == [p] + more;
      VisitOne(cfg, s, p, more + rest);
      var s1 := Run(cfg, s, first).value;
      VisitsComputeRebuilt(cfg, s1, more, rest);
      RebuiltAppend(st, s.files, s.index, [p], more);
      RunAppend(cfg, s, first, VisitSteps(st, s.files, more));
    }
  }

  lemma OnlyAppend(a: seq<Step>, b: seq<Step>)
    requires RebuildOnly(a) && RebuildOnly(b)
    ensures RebuildOnly(a + b)
  {
  }

  lemma RunThen(cfg: Config, s: State, a: seq<Step>, s1: State, step: Step)
    requires Run(cfg, s, a) == Some(s1) && Enabled(cfg, s1, step)
    ensures Run(cfg, s, a + [step]) == Some(Apply(cfg, s1, step))
  {
    assert (a + [step])[..|a|] == a;
  }

  lemma ScanComputesRebuilt(cfg: Config, s: State, walk: seq<Path>)
    requires s.scan == Visiting(walk) && WalkBelow(cfg, walk)
    ensures RebuildOnly(ScanSteps(cfg.settings, s.files, walk))
    ensures Run(cfg, s, ScanSteps(cfg.settings, s.files, walk)) ==
            Some(State(s.files, Rebuilt(cfg.settings, s.files, s.index, walk),
                       if s.phase.Opening? then Idle else s.phase, NoScan))
  {
    var visits, x := VisitSteps(cfg.settings, s.files, walk), Rebuilt(cfg.settings, s.files, s.index, walk);
    assert walk + [] == walk;
    VisitsComputeRebuilt(cfg, s, walk, []);
    RunThen(cfg, s, visits, State(s.files, x, s.phase, Visiting([])), EndRebuild);
    OnlyAppend(visits, [EndRebuild]);
  }

  /** A rebuild stopped by a failing index update keeps what it had recorded; if it was part of opening the
      store, the store stays closed. */
  lemma FailedScanKeepsPrefix(cfg: Config, s: State, walk: seq<Path>, k: nat)
    requires s.scan == Visiting(walk) && WalkBelow(cfg, walk)
    requires k < |walk| && Indexable(cfg.settings, s.files, walk[k]).Some?
    ensures Run(cfg, s, FailedScanSteps(cfg.settings, s.files, walk, k)) ==
            Some(State(s.files, Rebuilt(cfg.settings, s.files, s.index, walk[..k]),
                       if s.phase.Opening? then Down else s.phase, NoScan))
  {
    var visits := VisitSteps(cfg.settings, s.files, walk[..k]);
    assert walk[..k] + walk[k..] == walk;
    VisitsComputeRebuilt(cfg, s, walk[..k], walk[k..]);
    var s1 := Run(cfg, s, visits).value;
    RunTwo(cfg, s1, Visit, RecordFails);
    RunAppend(cfg, s, visits, [Visit, RecordFails]);
  }

  /** The steps from a crash to an open store. */
  function RecoverySteps(st: Settings, files: map<Path, Bytes>, walk: seq<Path>, indexLost: bool): seq<Step> {
    [Crash, Reopen(walk, indexLost)] + ScanSteps(st, files, walk)
  }

  /** From any state whatever a crash can be recovered from, with or without the index file. */
  lemma RecoveryRuns(cfg: Config, s: State, walk: seq<Path>, indexLost: bool)
    requires IsWalk(cfg.settings, s.files, walk)
    ensures var steps := RecoverySteps(cfg.settings, s.files, walk, indexLost);
            && Recovery(steps)
            && Run(cfg, s, steps) ==
               Some(State(s.files,
                          Rebuilt(cfg.settings, s.files, if indexLost then EmptyIndex else s.index, walk),
                          Idle, NoScan))
  {
    RunTwo(cfg, s, Crash, Reopen(walk, indexLost));
    var s2 := Apply(cfg, Apply(cfg, s, Crash), Reopen(walk, indexLost));
    ScanComputesRebuilt(cfg, s2, walk);
    RunAppend(cfg, s, [Crash, Reopen(walk, indexLost)], ScanSteps(cfg.settings, s.files, walk));
    var steps := RecoverySteps(cfg.settings, s.files, walk, indexLost);
    assert steps[2..] == ScanSteps(cfg.settings, s.files, walk);
  }

  // Which cassettes survive the loss of the index file.

  ghost predicate CleanAbsolute(p: Path) {
    forall i | 0 <= i < |p| :: p[i] != "" && p[i] != "." && p[i] != ".."
  }

  lemma {:induction false} FullStaysClean(base: Path, rel: Path)
    requires CleanAbsolute(base)
    ensures CleanAbsolute(Full(base, rel))
  {
    if |rel| > 0 { FullStaysClean(base, rel[..|rel| - 1]); }
  }

  /** The file of `c` is there and no other file carries its hash. */
  ghost predicate OnlyFileOf(st: Settings, files: map<Path, Bytes>, c: Cassette) {
    && TargetOf(st, c) in files && files[TargetOf(st, c)] == Payload(st, c)
    && forall p | p in files && HasHash(st, files, p, c.hash) :: p == TargetOf(st, c)
  }

  lemma FoundInside(st: Settings, c: Cassette, files: map<Path, Bytes>, walk: seq<Path>)
    requires CleanAbsolute(st.base) && c.hash != "" && '/' !in c.hash && st.codecs.RoundTrips(st.format, c)
    requires OnlyFileOf(st, files, c) && IsWalk(st, files, walk) && Below(st.base, TargetOf(st, c))
    ensures Load(st, State(files, Rebuilt(st, files, EmptyIndex, walk), Idle, NoScan), c.hash) == Some(c)
  {
    var target := TargetOf(st, c);
    FileNameProperties(c.hash, st.format);
    var dir := FileName(st.base, c.namespace, c.hash, Extension(st.format));
    assert HasHash(st, files, target, c.hash);
    GreatestFileWins(st, files, EmptyIndex, walk, target, c.hash);
    FullStaysClean(st.base, RelativePath(c.namespace, c.hash, Extension(st.format)));
    DescendPlain(st.base, target[|st.base|..]);
    BelowSplits(st.base, target);
  }

  lemma {:induction false} CarriedByAFile(st: Settings, files: map<Path, Bytes>, walk: seq<Path>, hash: string)
      returns (p: Path)
    requires Carried(st, files, walk, hash)
    ensures p in walk && HasHash(st, files, p, hash)
  {
    var n := |walk| - 1;
    if HasHash(st, files, walk[n], hash) { p := walk[n]; }
    else { p := CarriedByAFile(st, files, walk[..n], hash); }
  }

  lemma LostOutside(st: Settings, c: Cassette, files: map<Path, Bytes>, walk: seq<Path>)
    requires OnlyFileOf(st, files, c) && IsWalk(st, files, walk) && !Below(st.base, TargetOf(st, c))
    ensures Load(st, State(files, Rebuilt(st, files, EmptyIndex, walk), Idle, NoScan), c.hash) == None
  {
    if Carried(st, files, walk, c.hash) { var p := CarriedByAFile(st, files, walk, c.hash); }
    UnseenKeepsEntry(st, files, EmptyIndex, walk, c.hash);
  }

  /** In any directory in which no other file carries its hash, a saved cassette is found again after the
      index file is lost if and only if its path lies below the base directory. */
  lemma SurvivesIndexLossIff(st: Settings, c: Cassette, files: map<Path, Bytes>, walk: seq<Path>)
    requires CleanAbsolute(st.base) && c.hash != "" && '/' !in c.hash && st.codecs.RoundTrips(st.format, c)
    requires OnlyFileOf(st, files, c) && IsWalk(st, files, walk)
    ensures Load(st, State(files, Rebuilt(st, files, EmptyIndex, walk), Idle, NoScan), c.hash) == Some(c) <==>
            Below(st.base, TargetOf(st, c))
  {
    if Below(st.base, TargetOf(st, c)) { FoundInside(st, c, files, walk); } else { LostOutside(st, c, files, walk); }
  }

  /** A namespace can lead out of the base directory, as ".." does here; such a cassette is lost with the
      index. */
  lemma NamespaceCanLeadOut()
    ensures !Below(["c"], Full(["c"], RelativePath("..", "ab", ".yaml")))
  {
    UpAndOut();
    DescendThree(true, ["c"], "..", "ab", "ab.yaml");
  }

  lemma UpAndOut()
    ensures RelativePath("..", "ab", ".yaml") == ["..", "ab", "ab.yaml"]
  {
    assert "ab" + ".yaml" == "ab.yaml" && Prefix("ab") == "ab" by { assert "ab"[..2] == "ab"; }
    SplitPlain("..");
    SplitPlain("ab");
    SplitPlain("ab.yaml");
    assert [".."] + (["ab"] + ["ab.yaml"]) == ["..", "ab", "ab.yaml"];
    DescendThree(false, [], "..", "ab", "ab.yaml");
    assert Push(false, [], "..") == [] + [".."];
  }

  lemma DescendThree(rooted: bool, p: Path, a: string, b: string, c: string)
    ensures Descend(rooted, p, [a, b, c]) == Push(rooted, Push(rooted, Push(rooted, p, a), b), c)
  {
    assert [a, b, c][..2] == [a, b] && [a, b][..1] == [a] && [a][..0] == [];
    assert Descend(rooted, p, [a]) == Push(rooted, p, a);
    assert Descend(rooted, p, [a, b]) == Push(rooted, Descend(rooted, p, [a]), b);
  }
}
