/** The DiskStore object (pkg/store/store.go) over a shared disk and index.

    Each method holds the store's lock for its whole body, so it is proved against one function of the
    state it starts from; the lemmas beside it split that function into the machine's steps. What the
    operating system decides (clock stamps, walk results, failures) is a parameter. */
module DiskStore {
  import opened Wrappers
  import opened Paths
  import opened Cassettes
  import opened Index
  import opened StoreMachine
  import opened StoreTheorems
  import opened Rebuild

  class FileSystem {
    var files: map<Path, Bytes>

    constructor ()
      ensures files == map[]
    {
      files := map[];
    }
  }

  datatype SaveError = NilCassette | EmptyHash | NoDirectory | NotSerializable | NotWritten | NotRenamed | NotIndexed

  /** Where the operating system lets a Save down, if anywhere. */
  datatype SaveFault = NoFault | MkdirFails | WriteFails(written: nat) | RenameFails | IndexFails

  datatype DeleteError = NotFound | IndexNotUpdated

  /** Whether the file removal and the index update of a Delete fail. */
  datatype DeleteFault = DeleteFault(removeFails: bool, indexFails: bool)

  const NO_DELETE_FAULT := DeleteFault(false, false)

  datatype Saved = Saved(error: Option<SaveError>, files: map<Path, Bytes>, index: IndexState)

  function Min(a: nat, b: nat): nat {
    if a < b then a else b
  }

  /** Result, files and index after Save of a cassette with a nonempty hash. */
  function AfterSave(st: Settings, files: map<Path, Bytes>, x: IndexState,
      c: Cassette, stamp: string, fault: SaveFault): Saved {
    var target, tmp := TargetOf(st, c), TempOf(TargetOf(st, c), stamp);
    var data := Payload(st, c);
    var committed := (files - {tmp})[target := data];
    if fault.MkdirFails? then Saved(Some(NoDirectory), files, x)
    else if st.codecs.marshal(st.format, c).None? then Saved(Some(NotSerializable), files, x)
    else
      match fault
      case WriteFails(n) => Saved(Some(NotWritten), files[tmp := data[..Min(n, |data|)]], x)
      case RenameFails => Saved(Some(NotRenamed), files - {tmp}, x)
      case IndexFails => Saved(Some(NotIndexed), committed, x)
      case _ => Saved(None, committed, WithEntry(x, c.hash, c.namespace,
        RelativePath(c.namespace, c.hash, Extension(st.format))))
  }

  /** What Save reports: the first thing that goes wrong, and nothing exactly when nothing does. */
  ghost predicate Reports(st: Settings, c: Cassette, fault: SaveFault, error: Option<SaveError>) {
    var marshalled := st.codecs.marshal(st.format, c).Some?;
    && (error == None <==> marshalled && fault == NoFault)
    && (error == Some(NoDirectory) <==> fault == MkdirFails)
    && (error == Some(NotSerializable) <==> !marshalled && fault != MkdirFails)
    && (error == Some(NotWritten) <==> marshalled && fault.WriteFails?)
    && (error == Some(NotRenamed) <==> marshalled && fault == RenameFails)
    && (error == Some(NotIndexed) <==> marshalled && fault == IndexFails)
  }

  lemma TargetReadsBack(st: Settings, files: map<Path, Bytes>, c: Cassette)
    requires st.codecs.RoundTrips(st.format, c) && TargetOf(st, c) in files && files[TargetOf(st, c)] == Payload(st, c)
    ensures Read(st, files, TargetOf(st, c)) == Some(c)
  {
    var ext := Extension(st.format);
    assert '/' !in ext by { assert ext in {".yaml", ".json"}; }
    var dir, name := FileNameEnds(st.base, c.namespace, c.hash, ext);
    FormatBySuffix(name, st.format);
  }

  /** The file at `rel` is neither the target nor the temporary file of a Save. */
  predicate Untouched(st: Settings, c: Cassette, stamp: string, rel: Path) {
    var p := Full(st.base, rel);
    p != TargetOf(st, c) && p != TempOf(TargetOf(st, c), stamp)
  }

  /** After a Save without error its cassette loads under its hash, in any store and for any namespace and
      hash, and what other files hold loads as before. */
  lemma SavedLoads(st: Settings, s: State, c: Cassette, stamp: string, fault: SaveFault)
    requires AfterSave(st, s.files, s.index, c, stamp, fault).error.None? && st.codecs.RoundTrips(st.format, c)
    ensures var out := AfterSave(st, s.files, s.index, c, stamp, fault);
            var t := s.(files := out.files, index := out.index);
            && Load(st, t, c.hash) == Some(c)
            && forall h | h != c.hash && (h in s.index.paths ==> Untouched(st, c, stamp, s.index.paths[h])) ::
                 Load(st, t, h) == Load(st, s, h)
  {
    var out := AfterSave(st, s.files, s.index, c, stamp, fault);
    TargetReadsBack(st, out.files, c);
  }

  /** A Save that fails before its rename leaves every file but its temporary one, and the index; the failed
      index update leaves the index but has replaced the file. */
  lemma FailedSaveKeeps(st: Settings, s: State, c: Cassette, stamp: string, fault: SaveFault)
    requires AfterSave(st, s.files, s.index, c, stamp, fault).error.Some? && st.codecs.RoundTrips(st.format, c)
    ensures var out, tmp := AfterSave(st, s.files, s.index, c, stamp, fault), TempOf(TargetOf(st, c), stamp);
            && out.index == s.index
            && (out.error.value != NotIndexed ==> out.files - {tmp} == s.files - {tmp})
            && (out.error.value == NotIndexed ==> Read(st, out.files, TargetOf(st, c)) == Some(c))
  {
    var out := AfterSave(st, s.files, s.index, c, stamp, fault);
    if out.error.value == NotIndexed { TargetReadsBack(st, out.files, c); }
  }

  /** The machine steps of a Save. */
  function SaveTrace(st: Settings, c: Cassette, stamp: string, fault: SaveFault): seq<Step> {
    var n := |Payload(st, c)|;
    match fault
    case MkdirFails => []
    case WriteFails(k) => [BeginSave(c, stamp), WriteTemp(Min(k, n))] + [AbandonSave(false)]
    case RenameFails => [BeginSave(c, stamp), WriteTemp(n)] + [AbandonSave(true)]
    case IndexFails => [BeginSave(c, stamp), WriteTemp(n)] + [Commit(c), IndexSaveFails(c)]
    case NoFault => [BeginSave(c, stamp), WriteTemp(n)] + [Commit(c), IndexSave]
  }

  lemma StagedRun(cfg: Config, s: State, c: Cassette, stamp: string, n: nat, rest: seq<Step>)
    requires s.phase.Idle? && Legal(cfg, c) && '.' !in stamp && n <= |Payload(cfg.settings, c)|
    ensures var tmp := TempOf(TargetOf(cfg.settings, c), stamp);
            Run(cfg, s, [BeginSave(c, stamp), WriteTemp(n)] + rest) ==
            Run(cfg, s.(files := s.files[tmp := Payload(cfg.settings, c)[..n]], phase := Staged(c, tmp)), rest)
  {
    RunTwo(cfg, s, BeginSave(c, stamp), WriteTemp(n));
    RunAppend(cfg, s, [BeginSave(c, stamp), WriteTemp(n)], rest);
  }

  lemma CommittedRun(cfg: Config, s: State, c: Cassette, stamp: string, last: Step)
    requires s.phase.Idle? && Legal(cfg, c) && '.' !in stamp && (last == IndexSave || last == IndexSaveFails(c))
    ensures var st, tmp := cfg.settings, TempOf(TargetOf(cfg.settings, c), stamp);
            var renamed := s.(files := (s.files - {tmp})[TargetOf(st, c) := Payload(st, c)], phase := Renamed(c));
            Run(cfg, s, [BeginSave(c, stamp), WriteTemp(|Payload(st, c)|)] + [Commit(c), last]) ==
              Some(Apply(cfg, renamed, last))
  {
    var data, tmp := Payload(cfg.settings, c), TempOf(TargetOf(cfg.settings, c), stamp);
    StagedRun(cfg, s, c, stamp, |data|, [Commit(c), last]);
    assert data[..|data|] == data;
    var staged := s.(files := s.files[tmp := data], phase := Staged(c, tmp));
    assert staged.files - {tmp} == s.files - {tmp};
    RunTwo(cfg, staged, Commit(c), last);
  }

  lemma AbandonedRun(cfg: Config, s: State, c: Cassette, stamp: string, n: nat, removeTemp: bool)
    requires s.phase.Idle? && Legal(cfg, c) && '.' !in stamp && n <= |Payload(cfg.settings, c)|
    ensures var tmp := TempOf(TargetOf(cfg.settings, c), stamp);
            Run(cfg, s, [BeginSave(c, stamp), WriteTemp(n)] + [AbandonSave(removeTemp)]) ==
            Some(s.(files := if removeTemp then s.files - {tmp} else s.files[tmp := Payload(cfg.settings, c)[..n]]))
  {
    var data, tmp := Payload(cfg.settings, c), TempOf(TargetOf(cfg.settings, c), stamp);
    StagedRun(cfg, s, c, stamp, n, [AbandonSave(removeTemp)]);
    var staged := s.(files := s.files[tmp := data[..n]], phase := Staged(c, tmp));
    assert staged.files - {tmp} == s.files - {tmp};
    RunOne(cfg, staged, AbandonSave(removeTemp));
  }

  /** Save is a run of the machine, whichever fault strikes. */
  lemma SaveRuns(cfg: Config, s: State, c: Cassette, stamp: string, fault: SaveFault)
    requires s.phase.Idle? && Legal(cfg, c) && '.' !in stamp
    ensures var steps := SaveTrace(cfg.settings, c, stamp, fault);
            var out := AfterSave(cfg.settings, s.files, s.index, c, stamp, fault);
            SaveOnly(steps, c) && Run(cfg, s, steps) == Some(s.(files := out.files, index := out.index))
  {
    var n := |Payload(cfg.settings, c)|;
    SaveTraceIsSave(cfg.settings, c, stamp, fault);
    match fault {
      case MkdirFails =>
      case WriteFails(k) => AbandonedRun(cfg, s, c, stamp, Min(k, n), false);
      case RenameFails => AbandonedRun(cfg, s, c, stamp, n, true);
      case IndexFails => CommittedRun(cfg, s, c, stamp, IndexSaveFails(c));
      case NoFault => CommittedRun(cfg, s, c, stamp, IndexSave);
    }
  }

  /** The machine's save without error is the Save that returns none. */
  lemma SuccessIsIndexed(st: Settings, files: map<Path, Bytes>, x: IndexState, c: Cassette, stamp: string,
      fault: SaveFault)
    requires st.codecs.marshal(st.format, c).Some?
    ensures var steps := SaveTrace(st, c, stamp, fault);
            && (AfterSave(st, files, x, c, stamp, fault).error.None? <==> IndexSave in steps)
            && Reports(st, c, fault, AfterSave(st, files, x, c, stamp, fault).error)
  {
    var steps := SaveTrace(st, c, stamp, fault);
    if fault.NoFault? { assert steps[3] == IndexSave; }
  }

  lemma SaveTraceIsSave(st: Settings, c: Cassette, stamp: string, fault: SaveFault)
    ensures SaveOnly(SaveTrace(st, c, stamp, fault), c)
  {
  }

  /** The machine steps of a Delete of an indexed hash. */
  function DeleteTrace(hash: string, fault: DeleteFault): seq<Step> {
    [if fault.removeFails then RemoveFails(hash) else Remove(hash),
      if fault.indexFails then IndexDeleteFails else IndexDelete]
  }

  /** State after Delete of an indexed hash. */
  function AfterDelete(st: Settings, s: State, hash: string, fault: DeleteFault): State
    requires hash in s.index.paths
  {
    s.(files := if fault.removeFails then s.files else s.files - {Full(st.base, s.index.paths[hash])},
       index := if fault.indexFails then s.index else WithoutEntry(s.index, hash, ""))
  }

  lemma DeleteRuns(cfg: Config, s: State, hash: string, fault: DeleteFault)
    requires s.phase.Idle? && hash in s.index.paths
    ensures Run(cfg, s, DeleteTrace(hash, fault)) == Some(AfterDelete(cfg.settings, s, hash, fault))
  {
    RunTwo(cfg, s, DeleteTrace(hash, fault)[0], DeleteTrace(hash, fault)[1]);
  }

  ghost function Repeat(s: State, n: nat): seq<State> {
    seq(n, _ => s)
  }

  /** What LoadByNamespace collects when hash i is loaded from state `views[i]`. */
  function Collected(st: Settings, views: seq<State>, hashes: seq<string>): seq<Cassette>
    requires |views| == |hashes|
  {
    if hashes == [] then []
    else
      var n := |hashes| - 1;
      var c := Load(st, views[n], hashes[n]);
      Collected(st, views[..n], hashes[..n]) + if c.Some? then [c.value] else []
  }

  function MetaOf(c: Cassette, p: Path): CassetteMeta {
    CassetteMeta(c.hash, c.namespace, c.provider, c.endpoint, c.recordedAt, p)
  }

  /** The entry of a file that a walk meets, if it is a readable cassette file. */
  function MetaAt(st: Settings, files: map<Path, Bytes>, p: Path): seq<CassetteMeta> {
    match Scanned(st, files, p)
    case Some(c) => [MetaOf(c, p)]
    case None => []
  }

  /** List: one entry per readable cassette file, in walk order. */
  function Metas(st: Settings, files: map<Path, Bytes>, walk: seq<Path>): seq<CassetteMeta> {
    if walk == [] then [] else Metas(st, files, walk[..|walk| - 1]) + MetaAt(st, files, walk[|walk| - 1])
  }

  lemma MetasNext(st: Settings, files: map<Path, Bytes>, walk: seq<Path>, i: nat)
    requires i < |walk|
    ensures Metas(st, files, walk[..i + 1]) == Metas(st, files, walk[..i]) + MetaAt(st, files, walk[i])
  {
    assert walk[..i + 1][..i] == walk[..i];
  }

  /** The readable cassette files of a walk, in its order. */
  function ReadableFiles(st: Settings, files: map<Path, Bytes>, walk: seq<Path>): seq<Path> {
    if walk == [] then []
    else
      var before, p := ReadableFiles(st, files, walk[..|walk| - 1]), walk[|walk| - 1];
      if Scanned(st, files, p).Some? then before + [p] else before
  }

  /** `m` lists the cassette that the file at `p` holds. */
  predicate Lists(st: Settings, files: map<Path, Bytes>, m: CassetteMeta, p: Path) {
    && m.filePath == p && Read(st, files, p).Some?
    && var c := Read(st, files, p).value;
       && m.hash == c.hash && m.namespace == c.namespace && m.provider == c.provider
       && m.endpoint == c.endpoint && m.recordedAt == c.recordedAt
  }

  /** List is exact: one entry for each readable cassette file of the walk, in its order. */
  lemma {:induction false} ListIsExact(st: Settings, files: map<Path, Bytes>, walk: seq<Path>)
    ensures var metas, readable := Metas(st, files, walk), ReadableFiles(st, files, walk);
            |metas| == |readable| && forall i | 0 <= i < |metas| :: Lists(st, files, metas[i], readable[i])
    ensures forall p :: p in ReadableFiles(st, files, walk) <==>
              p in walk && IsCassetteName(Name(p)) && Read(st, files, p).Some?
  {
    if walk != [] {
      var n := |walk| - 1;
      ListIsExact(st, files, walk[..n]);
      assert walk == walk[..n] + [walk[n]];
    }
  }

  datatype Pruned = Pruned(state: State, count: nat)

  /** The effect of one listed entry: an old hash is deleted, and counted if that reports no error. */
  function PruneEntry(st: Settings, r: Pruned, m: CassetteMeta, olderThan: int, faults: string -> DeleteFault): Pruned {
    if m.recordedAt < olderThan && m.hash in r.state.index.paths
    then Pruned(AfterDelete(st, r.state, m.hash, faults(m.hash)), r.count + if faults(m.hash).indexFails then 0 else 1)
    else r
  }

  /** Deleting, in order, the listed hashes that are older than the threshold. */
  function AfterPrune(st: Settings, s: State, metas: seq<CassetteMeta>,
      olderThan: int, faults: string -> DeleteFault): Pruned {
    if metas == [] then Pruned(s, 0)
    else PruneEntry(st, AfterPrune(st, s, metas[..|metas| - 1], olderThan, faults),
      metas[|metas| - 1], olderThan, faults)
  }

  lemma PruneNext(st: Settings, s: State, metas: seq<CassetteMeta>,
      olderThan: int, faults: string -> DeleteFault, i: nat)
    requires i < |metas|
    ensures AfterPrune(st, s, metas[..i + 1], olderThan, faults) ==
            PruneEntry(st, AfterPrune(st, s, metas[..i], olderThan, faults), metas[i], olderThan, faults)
  {
    assert metas[..i + 1][..i] == metas[..i];
  }

  /** How many files a rebuild gets through when the index update for file `failAt` of the walk, if there
      is one, fails. */
  function Reached(st: Settings, files: map<Path, Bytes>, walk: seq<Path>, failAt: Option<nat>): (n: nat)
    ensures n <= |walk|
  {
    if failAt.Some? && failAt.value < |walk| && Indexable(st, files, walk[failAt.value]).Some?
    then failAt.value
    else |walk|
  }

  lemma WalkIsInside(st: Settings, files: map<Path, Bytes>, walk: seq<Path>)
    requires IsWalk(st, files, walk)
    ensures forall i | 0 <= i < |walk| :: walk[i] in files && Below(st.base, walk[i])
  {
    forall i | 0 <= i < |walk| ensures walk[i] in files && Below(st.base, walk[i]) { assert walk[i] in walk; }
  }

  lemma RebuiltNext(st: Settings, files: map<Path, Bytes>, x: IndexState, walk: seq<Path>, i: nat)
    requires i < |walk|
    ensures var y, c := Rebuilt(st, files, x, walk[..i]), Indexable(st, files, walk[i]);
            Rebuilt(st, files, x, walk[..i + 1]) ==
            if c.Some? then WithEntry(y, c.value.hash, c.value.namespace, walk[i][|st.base|..]) else y
    ensures i + 1 == |walk| ==> walk[..i + 1] == walk
  {
    assert walk[..i + 1][..i] == walk[..i];
  }

  class DiskStore {
    const settings: Settings
    const disk: FileSystem
    const index: Index

    /** The machine state while no operation is in progress. */
    ghost function View(): State
      reads disk, index
    {
      State(disk.files, index.View(), Idle, NoScan)
    }

    constructor (settings: Settings, disk: FileSystem, index: Index)
      ensures this.settings == settings && this.disk == disk && this.index == index
    {
      this.settings, this.disk, this.index := settings, disk, index;
    }

    /** NewDiskStore: opening always rebuilds, and fails if the rebuild does. */
    static method Open(settings: Settings, disk: FileSystem, index: Index, walk: seq<Path>, failAt: Option<nat>)
        returns (store: DiskStore?)
      requires IsWalk(settings, disk.files, walk)
      modifies index
      ensures var n := Reached(settings, disk.files, walk, failAt);
              && index.View() == Rebuilt(settings, disk.files, old(index.View()), walk[..n])
              && (store == null <==> n < |walk|)
      ensures store != null ==> store.settings == settings && store.disk == disk && store.index == index
    {
      store := new DiskStore(settings, disk, index);
      var ok := store.RebuildIndex(walk, failAt);
      if !ok { store := null; }
    }

    /** The callback of the rebuild's walk. */
    method IndexFile(p: Path, putFails: bool) returns (ok: bool)
      requires p in disk.files && Below(settings.base, p)
      modifies index
      ensures disk.files == old(disk.files)
      ensures var c, before := Indexable(settings, old(disk.files), p), old(index.View());
              && ok == !(c.Some? && putFails)
              && index.View() ==
                 if c.Some? && ok then WithEntry(before, c.value.hash, c.value.namespace, p[|settings.base|..])
                 else before
    {
      if !IsCassetteName(Name(p)) { return true; }
      var c := settings.codecs.unmarshal(FormatOf(Name(p)), disk.files[p]);
      if c.None? || c.value.hash == "" { return true; }
      if putFails { return false; }
      index.Put(c.value.hash, c.value.namespace, p[|settings.base|..]);
      return true;
    }

    /** filepath.WalkDir with that callback: it stops at the first error. */
    method WalkDir(walk: seq<Path>, failAt: Option<nat>) returns (ok: bool)
      requires forall i | 0 <= i < |walk| :: walk[i] in disk.files && Below(settings.base, walk[i])
      modifies index
      ensures disk.files == old(disk.files)
      ensures var n := Reached(settings, old(disk.files), walk, failAt);
              index.View() == Rebuilt(settings, old(disk.files), old(index.View()), walk[..n]) && ok == (n == |walk|)
    {
      ghost var files, before, n := disk.files, index.View(), Reached(settings, disk.files, walk, failAt);
      for i := 0 to |walk|
        invariant disk.files == files
        invariant index.View() == Rebuilt(settings, files, before, walk[..i]) && i <= n
      {
        RebuiltNext(settings, files, before, walk, i);
        ok := IndexFile(walk[i], failAt == Some(i));
        if !ok { return; }
      }
      return true;
    }

    method RebuildIndex(walk: seq<Path>, failAt: Option<nat>) returns (ok: bool)
      requires IsWalk(settings, disk.files, walk)
      modifies index
      ensures disk.files == old(disk.files)
      ensures var n := Reached(settings, disk.files, walk, failAt);
              index.View() == Rebuilt(settings, disk.files, old(index.View()), walk[..n]) && ok == (n == |walk|)
    {
      WalkIsInside(settings, disk.files, walk);
      ok := WalkDir(walk, failAt);
    }

    method Save(cassette: Option<Cassette>, stamp: string, fault: SaveFault) returns (error: Option<SaveError>)
      modifies disk, index
      ensures cassette.None? || cassette.value.hash == "" ==>
                error == Some(if cassette.None? then NilCassette else EmptyHash) && View() == old(View())
      ensures cassette.Some? && cassette.value.hash != "" ==>
                Saved(error, disk.files, index.View()) ==
                AfterSave(settings, old(disk.files), old(index.View()), cassette.value, stamp, fault)
      ensures cassette.Some? && cassette.value.hash != "" ==> Reports(settings, cassette.value, fault, error)
      ensures error.None? && settings.codecs.RoundTrips(settings.format, cassette.value) ==>
                Load(settings, View(), cassette.value.hash) == cassette
    {
      ghost var before := View();
      if cassette.None? { return Some(NilCassette); }
      var c := cassette.value;
      if c.hash == "" { return Some(EmptyHash); }
      var relPath := RelativePath(c.namespace, c.hash, Extension(settings.format));
      var fullPath := Full(settings.base, relPath);
      if fault.MkdirFails? { return Some(NoDirectory); }
      var data := settings.codecs.marshal(settings.format, c);
      if data.None? { return Some(NotSerializable); }
      var tmpFile := TempOf(fullPath, stamp);
      if fault.WriteFails? {
        disk.files := disk.files[tmpFile := data.value[..Min(fault.written, |data.value|)]];
        return Some(NotWritten);
      }
      disk.files := disk.files[tmpFile := data.value];
      if fault.RenameFails? {
        disk.files := disk.files - {tmpFile};
        assert disk.files == old(disk.files) - {tmpFile};
        return Some(NotRenamed);
      }
      disk.files := (disk.files - {tmpFile})[fullPath := disk.files[tmpFile]];
      assert disk.files == (old(disk.files) - {tmpFile})[fullPath := data.value];
      if fault.IndexFails? { return Some(NotIndexed); }
      index.Put(c.hash, c.namespace, relPath);
      if settings.codecs.RoundTrips(settings.format, c) { SavedLoads(settings, before, c, stamp, fault); }
      return None;
    }

    method LoadByHash(hash: string) returns (c: Option<Cassette>)
      ensures c == Load(settings, View(), hash)
    {
      var relPath := index.GetPath(hash);
      if relPath.None? { return None; }
      var fullPath := Full(settings.base, relPath.value);
      if fullPath !in disk.files { return None; }
      c := settings.codecs.unmarshal(FormatOf(Name(fullPath)), disk.files[fullPath]);
    }

    /** With nothing running beside it, every hash is loaded from the same state. */
    method LoadByNamespace(namespace: string) returns (results: seq<Cassette>)
      ensures var hashes := Listed(index.View(), namespace);
              results == Collected(settings, Repeat(View(), |hashes|), hashes)
    {
      var hashes := index.GetHashesByNamespace(namespace);
      ghost var views := Repeat(View(), |hashes|);
      results := [];
      for i := 0 to |hashes|
        invariant results == Collected(settings, views[..i], hashes[..i])
      {
        assert hashes[..i + 1][..i] == hashes[..i] && views[..i + 1][..i] == views[..i];
        var c := LoadByHash(hashes[i]);
        if c.Some? { results := results + [c.value]; }
      }
      assert hashes[..|hashes|] == hashes && views[..|hashes|] == views;
    }

    method Delete(hash: string, fault: DeleteFault) returns (error: Option<DeleteError>)
      modifies disk, index
      ensures hash !in old(index.View()).paths ==> error == Some(NotFound) && View() == old(View())
      ensures hash in old(index.View()).paths ==>
                && error == (if fault.indexFails then Some(IndexNotUpdated) else None)
                && View() == AfterDelete(settings, old(View()), hash, fault)
    {
      var relPath := index.GetPath(hash);
      if relPath.None? { return Some(NotFound); }
      var fullPath := Full(settings.base, relPath.value);
      if !fault.removeFails { disk.files := disk.files - {fullPath}; }
      if fault.indexFails { return Some(IndexNotUpdated); }
      index.Delete(hash, "");
      return None;
    }

    method List(walk: seq<Path>) returns (metas: seq<CassetteMeta>)
      requires IsWalk(settings, disk.files, walk)
      ensures metas == Metas(settings, disk.files, walk)
    {
      metas := [];
      for i := 0 to |walk|
        invariant metas == Metas(settings, disk.files, walk[..i])
      {
        var p := walk[i];
        assert p in walk;
        MetasNext(settings, disk.files, walk, i);
        if IsCassetteName(Name(p)) {
          var c := settings.codecs.unmarshal(FormatOf(Name(p)), disk.files[p]);
          if c.Some? {
            metas := metas + [CassetteMeta(c.value.hash, c.value.namespace, c.value.provider, c.value.endpoint,
                                           c.value.recordedAt, p)];
          }
        }
      }
      assert walk[..|walk|] == walk;
    }

    method Prune(olderThan: int, walk: seq<Path>, faults: string -> DeleteFault) returns (count: nat)
      requires IsWalk(settings, disk.files, walk)
      modifies disk, index
      ensures var metas := Metas(settings, old(disk.files), walk);
              Pruned(View(), count) == AfterPrune(settings, old(View()), metas, olderThan, faults)
    {
      var metas := List(walk);
      ghost var before := View();
      count := 0;
      for i := 0 to |metas|
        invariant Pruned(View(), count) == AfterPrune(settings, before, metas[..i], olderThan, faults)
      {
        PruneNext(settings, before, metas, olderThan, faults, i);
        if metas[i].recordedAt < olderThan {
          var error := Delete(metas[i].hash, faults(metas[i].hash));
          if error.None? { count := count + 1; }
        }
      }
      assert metas[..|metas|] == metas;
    }
  }
}
