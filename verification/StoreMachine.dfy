/** The cassette store as a machine of single file-system and index steps (pkg/store/store.go).

    Save is: write a temporary file, rename it onto its target, update the index. Delete is: remove the
    file, update the index. RebuildIndex visits files one by one, holds no lock, and runs on every open; it
    stops when an index update fails, and then an open fails. A crash may fall after any step. The machine
    is proved to behave as a plain map from hash to cassette that changes only at renames and removals. */
module StoreMachine {
  import opened Wrappers
  import opened Paths
  import opened Cassettes
  import opened Index

  /** The fields of a DiskStore that never change. */
  datatype Settings = Settings(base: Path, format: Format, codecs: Codecs)

  /** Settings together with the namespace that each hash stands for, which only the proofs need. */
  datatype Config = Config(settings: Settings, namespaceOf: string -> string)

  datatype Phase =
    | Idle
    | Staged(c: Cassette, tmp: Path)
    | Renamed(c: Cassette)
    | Removed(hash: string)
    | Down
    | Opening

  datatype Scan =
    | NoScan
    | Visiting(todo: seq<Path>)
    | Found(hash: string, namespace: string, rel: Path, todo: seq<Path>)

  datatype State = State(files: map<Path, Bytes>, index: IndexState, phase: Phase, scan: Scan)

  /** Temporary-file writes, renames, removals, index transactions, crashes and reopenings. */
  datatype Step =
    | BeginSave(c: Cassette, stamp: string)
    | WriteTemp(written: nat)
    | Commit(c: Cassette)
    | AbandonSave(removeTemp: bool)
    | IndexSave
    | IndexSaveFails(c: Cassette)
    | Remove(hash: string)
    | RemoveFails(hash: string)
    | IndexDelete
    | IndexDeleteFails
    | Crash
    | Reopen(walk: seq<Path>, indexLost: bool)
    | BeginRebuild(walk: seq<Path>)
    | Visit
    | Record
    | RecordFails
    | EndRebuild

  function Rel(cfg: Config, hash: string): Path {
    RelativePath(cfg.namespaceOf(hash), hash, Extension(cfg.settings.format))
  }

  function PathOf(cfg: Config, hash: string): Path {
    Full(cfg.settings.base, Rel(cfg, hash))
  }

  /** A nonempty hash without separator whose file stays under the base directory. */
  predicate Admissible(cfg: Config, hash: string) {
    hash != "" && '/' !in hash && !Climbs(Rel(cfg, hash))
  }

  /** The two hypotheses about what is saved: its hash determines its namespace, and the store's one
      format reads back what it wrote. */
  ghost predicate Legal(cfg: Config, c: Cassette) {
    Admissible(cfg, c.hash) && c.namespace == cfg.namespaceOf(c.hash)
      && cfg.settings.codecs.RoundTrips(cfg.settings.format, c)
  }

  predicate Below(base: Path, p: Path) {
    |base| < |p| && p[..|base|] == base
  }

  function Name(p: Path): string {
    if |p| == 0 then "" else p[|p| - 1]
  }

  /** ReadFile and Unmarshal, with the serializer chosen by extension. */
  function Read(st: Settings, files: map<Path, Bytes>, p: Path): Option<Cassette> {
    if p in files then st.codecs.unmarshal(FormatOf(Name(p)), files[p]) else None
  }

  /** What a walk makes of a path: the cassette of a readable cassette file. */
  function Scanned(st: Settings, files: map<Path, Bytes>, p: Path): Option<Cassette> {
    if IsCassetteName(Name(p)) then Read(st, files, p) else None
  }

  /** LoadByHash. */
  function Load(st: Settings, s: State, hash: string): Option<Cassette> {
    if hash in s.index.paths then Read(st, s.files, Full(st.base, s.index.paths[hash])) else None
  }

  /** The bytes Save writes for `c`. */
  function Payload(st: Settings, c: Cassette): Bytes {
    var data := st.codecs.marshal(st.format, c);
    if data.Some? then data.value else []
  }

  function TargetOf(st: Settings, c: Cassette): Path {
    Full(st.base, RelativePath(c.namespace, c.hash, Extension(st.format)))
  }

  function TempOf(target: Path, stamp: string): Path {
    if |target| == 0 then [] else target[..|target| - 1] + [TempName(Name(target), stamp)]
  }

  ghost predicate WalkBelow(cfg: Config, walk: seq<Path>) {
    forall p | p in walk :: Below(cfg.settings.base, p)
  }

  ghost predicate Enabled(cfg: Config, s: State, step: Step) {
    match step
    case BeginSave(c, stamp) => s.phase.Idle? && Legal(cfg, c) && '.' !in stamp
    case WriteTemp(n) => s.phase.Staged? && n <= |Payload(cfg.settings, s.phase.c)|
    case Commit(c) =>
      && s.phase.Staged? && s.phase.c == c
      && s.phase.tmp in s.files && s.files[s.phase.tmp] == Payload(cfg.settings, c)
    case AbandonSave(_) => s.phase.Staged?
    case IndexSave => s.phase.Renamed?
    case IndexSaveFails(c) => s.phase == Renamed(c)
    case Remove(hash) => s.phase.Idle? && hash in s.index.paths
    case RemoveFails(hash) => s.phase.Idle? && hash in s.index.paths
    case IndexDelete => s.phase.Removed?
    case IndexDeleteFails => s.phase.Removed?
    case Crash => true
    case Reopen(walk, _) => s.phase.Down? && WalkBelow(cfg, walk)
      && forall p | p in s.files && Below(cfg.settings.base, p) :: p in walk
    case BeginRebuild(walk) => s.phase != Down && s.phase != Opening && s.scan.NoScan? && WalkBelow(cfg, walk)
    case Visit => s.scan.Visiting? && |s.scan.todo| > 0 && Below(cfg.settings.base, s.scan.todo[0])
    case Record => s.scan.Found?
    case RecordFails => s.scan.Found?
    case EndRebuild => s.scan == Visiting([])
  }

  ghost function Apply(cfg: Config, s: State, step: Step): State
    requires Enabled(cfg, s, step)
  {
    match step
    case BeginSave(c, stamp) => s.(phase := Staged(c, TempOf(TargetOf(cfg.settings, c), stamp)))
    case WriteTemp(n) => s.(files := s.files[s.phase.tmp := Payload(cfg.settings, s.phase.c)[..n]])
    case Commit(c) =>
      s.(files := (s.files - {s.phase.tmp})[TargetOf(cfg.settings, c) := s.files[s.phase.tmp]], phase := Renamed(c))
    case AbandonSave(removeTemp) =>
      s.(files := if removeTemp then s.files - {s.phase.tmp} else s.files, phase := Idle)
    case IndexSave =>
      var c := s.phase.c;
      s.(index := WithEntry(s.index, c.hash, c.namespace,
        RelativePath(c.namespace, c.hash, Extension(cfg.settings.format))),
         phase := Idle)
    case IndexSaveFails(_) => s.(phase := Idle)
    case Remove(hash) => s.(files := s.files - {Full(cfg.settings.base, s.index.paths[hash])}, phase := Removed(hash))
    case RemoveFails(hash) => s.(phase := Removed(hash))
    case IndexDelete => s.(index := WithoutEntry(s.index, s.phase.hash, ""), phase := Idle)
    case IndexDeleteFails => s.(phase := Idle)
    case Crash => s.(phase := Down, scan := NoScan)
    case Reopen(walk, indexLost) =>
      s.(index := if indexLost then EmptyIndex else s.index, phase := Opening, scan := Visiting(walk))
    case BeginRebuild(walk) => s.(scan := Visiting(walk))
    case Visit =>
      var p, rest := s.scan.todo[0], s.scan.todo[1..];
      (match Scanned(cfg.settings, s.files, p)
       case Some(c) =>
         s.(scan := if c.hash == "" then Visiting(rest) else Found(c.hash, c.namespace, p[|cfg.settings.base|..], rest))
       case None => s.(scan := Visiting(rest)))
    case Record =>
      s.(index := WithEntry(s.index, s.scan.hash, s.scan.namespace, s.scan.rel), scan := Visiting(s.scan.todo))
    case RecordFails => s.(phase := if s.phase.Opening? then Down else s.phase, scan := NoScan)
    case EndRebuild => s.(phase := if s.phase.Opening? then Idle else s.phase, scan := NoScan)
  }

  /** The state after a run of steps, if each of them was possible when it was taken. */
  ghost function Run(cfg: Config, s: State, steps: seq<Step>): Option<State> {
    if |steps| == 0 then Some(s)
    else
      match Run(cfg, s, steps[..|steps| - 1])
      case None => None
      case Some(m) => var step := steps[|steps| - 1]; if Enabled(cfg, m, step) then Some(Apply(cfg, m, step)) else None
  }

  function LiveAfter(m: map<string, Cassette>, step: Step): map<string, Cassette> {
    match step
    case Commit(c) => m[c.hash := c]
    case Remove(hash) => m - {hash}
    case _ => m
  }

  /** The plain map a store stands for: renames add, removals delete, nothing else counts. */
  function Live(m: map<string, Cassette>, steps: seq<Step>): map<string, Cassette> {
    if |steps| == 0 then m else LiveAfter(Live(m, steps[..|steps| - 1]), steps[|steps| - 1])
  }

  function HiddenAfter(hidden: set<string>, step: Step): set<string> {
    match step
    case Commit(c) => hidden - {c.hash}
    case IndexSaveFails(c) => hidden + {c.hash}
    case RemoveFails(hash) => hidden + {hash}
    case Reopen(_, _) => {}
    case _ => hidden
  }

  /** Hashes whose index entry may be missing: since the last reopening, and since they were last renamed
      into place, their index update failed or their file could not be removed. */
  function Unindexed(steps: seq<Step>): set<string> {
    if |steps| == 0 then {} else HiddenAfter(Unindexed(steps[..|steps| - 1]), steps[|steps| - 1])
  }

  function Lookup(m: map<string, Cassette>, hash: string): Option<Cassette> {
    if hash in m then Some(m[hash]) else None
  }

  // The invariant that ties a state to the map it stands for.

  /** Index entries point at the one path of their hash and are listed under their namespace. */
  ghost predicate IndexSound(cfg: Config, x: IndexState) {
    && (forall h | h in x.paths ::
          Admissible(cfg, h) && Full(cfg.settings.base, x.paths[h]) == PathOf(cfg, h)
          && (cfg.namespaceOf(h) == "" || h in Listed(x, cfg.namespaceOf(h))))
    && (forall ns | ns in x.lists :: ns != "" && NoDuplicates(x.lists[ns]))
    && (forall ns, h | ns in x.lists && h in x.lists[ns] :: cfg.namespaceOf(h) == ns)
  }

  /** The live hash `h` has its cassette at its path. */
  ghost predicate LiveOnDisk(cfg: Config, files: map<Path, Bytes>, m: map<string, Cassette>, h: string) {
    && h in m && Admissible(cfg, h) && m[h].hash == h && m[h].namespace == cfg.namespaceOf(h)
    && Read(cfg.settings, files, PathOf(cfg, h)) == Some(m[h])
  }

  /** What a walk finds at `p` is a live hash's own file. */
  ghost predicate FileIsLive(cfg: Config, files: map<Path, Bytes>, m: map<string, Cassette>, p: Path) {
    var c := Scanned(cfg.settings, files, p);
    c.Some? && c.value.hash in m && p == PathOf(cfg, c.value.hash)
  }

  /** Live hashes have their cassette at their path; cassette files are live hashes' files. */
  ghost predicate FilesSound(cfg: Config, files: map<Path, Bytes>, m: map<string, Cassette>) {
    && (forall h | h in m :: LiveOnDisk(cfg, files, m, h))
    && (forall p | p in files && Below(cfg.settings.base, p) && IsCassetteName(Name(p)) :: FileIsLive(cfg, files, m, p))
  }

  ghost predicate PhaseSound(cfg: Config, phase: Phase) {
    match phase
    case Staged(c, tmp) => Legal(cfg, c) && exists stamp ::
      '.' !in stamp && tmp == TempOf(TargetOf(cfg.settings, c), stamp)
    case Renamed(c) => Legal(cfg, c)
    case _ => true
  }

  ghost predicate ScanSound(cfg: Config, scan: Scan) {
    match scan
    case NoScan => true
    case Visiting(todo) => WalkBelow(cfg, todo)
    case Found(hash, ns, rel, todo) =>
      WalkBelow(cfg, todo) && Admissible(cfg, hash) && Full(cfg.settings.base, rel) == PathOf(cfg, hash)
        && ns == cfg.namespaceOf(hash)
  }

  /** The live hash `h` will be found: it is indexed, excused, or about to be indexed. */
  ghost predicate Covered(cfg: Config, s: State, hidden: set<string>, h: string) {
    || h in s.index.paths
    || s.phase.Down?
    || h in hidden
    || (s.phase.Renamed? && s.phase.c.hash == h)
    || (s.phase.Opening? && s.scan.Visiting? && PathOf(cfg, h) in s.scan.todo)
    || (s.phase.Opening? && s.scan.Found? && (s.scan.hash == h || PathOf(cfg, h) in s.scan.todo))
  }

  ghost predicate Inv(cfg: Config, s: State, m: map<string, Cassette>, hidden: set<string>) {
    && IndexSound(cfg, s.index)
    && FilesSound(cfg, s.files, m)
    && PhaseSound(cfg, s.phase)
    && ScanSound(cfg, s.scan)
    && (forall h | h in m :: Covered(cfg, s, hidden, h))
  }

  // Paths of admissible hashes.

  lemma PathFacts(cfg: Config, hash: string)
    requires Admissible(cfg, hash)
    ensures Name(PathOf(cfg, hash)) == hash + Extension(cfg.settings.format)
    ensures Below(cfg.settings.base, PathOf(cfg, hash)) && IsCassetteName(Name(PathOf(cfg, hash)))
    ensures FormatOf(Name(PathOf(cfg, hash))) == cfg.settings.format
    ensures PathOf(cfg, hash)[|cfg.settings.base|..] == Rel(cfg, hash)
  {
    FileNameProperties(hash, cfg.settings.format);
    var dir := FileName(cfg.settings.base, cfg.namespaceOf(hash), hash, Extension(cfg.settings.format));
    var rel := FileName([], cfg.namespaceOf(hash), hash, Extension(cfg.settings.format));
    StaysInside(cfg.settings.base, cfg.namespaceOf(hash), hash, Extension(cfg.settings.format));
    StaysInside([], cfg.namespaceOf(hash), hash, Extension(cfg.settings.format));
    assert [] + Rel(cfg, hash) == Rel(cfg, hash);
  }

  lemma OnePathEach(cfg: Config, h1: string, h2: string)
    requires Admissible(cfg, h1) && Admissible(cfg, h2) && PathOf(cfg, h1) == PathOf(cfg, h2)
    ensures h1 == h2
  {
    FileNameProperties(h1, cfg.settings.format);
    FileNameProperties(h2, cfg.settings.format);
    DistinctHashesDistinctPaths(cfg.settings.base, cfg.namespaceOf(h1),
      h1, cfg.namespaceOf(h2), h2, Extension(cfg.settings.format));
  }

  lemma TempFacts(cfg: Config, c: Cassette, stamp: string)
    requires Admissible(cfg, c.hash) && c.namespace == cfg.namespaceOf(c.hash) && '.' !in stamp
    ensures !IsCassetteName(Name(TempOf(TargetOf(cfg.settings, c), stamp)))
  {
    PathFacts(cfg, c.hash);
    TempIsIgnored(Name(TargetOf(cfg.settings, c)), stamp);
  }

  // Every step keeps the invariant.

  /** Files that no walk looks at and no hash owns may come and go. */
  lemma TempFilesDoNotMatter(cfg: Config, files: map<Path, Bytes>,
      files': map<Path, Bytes>, tmp: Path, m: map<string, Cassette>)
    requires FilesSound(cfg, files, m) && !IsCassetteName(Name(tmp))
    requires files' - {tmp} == files - {tmp}
    ensures FilesSound(cfg, files', m)
  {
    forall p | p != tmp ensures (p in files <==> p in files') && (p in files ==> files[p] == files'[p]) {
      assert p in files' <==> p in files' - {tmp};
      assert p in files <==> p in files - {tmp};
      if p in files { assert files[p] == (files - {tmp})[p]; assert files'[p] == (files' - {tmp})[p]; }
    }
    forall h | h in m ensures LiveOnDisk(cfg, files', m, h) {
      assert LiveOnDisk(cfg, files, m, h);
      PathFacts(cfg, h);
    }
    forall p | p in files' && Below(cfg.settings.base, p) && IsCassetteName(Name(p))
        ensures FileIsLive(cfg, files', m, p) {
      assert FileIsLive(cfg, files, m, p);
    }
  }

  lemma CommitKeepsLive(cfg: Config, files: map<Path, Bytes>, c: Cassette, m: map<string, Cassette>, h: string)
    requires h == c.hash || LiveOnDisk(cfg, files, m, h)
    requires Legal(cfg, c)
    ensures LiveOnDisk(cfg, files[TargetOf(cfg.settings, c) := Payload(cfg.settings, c)], m[c.hash := c], h)
  {
    PathFacts(cfg, c.hash);
    if h != c.hash && PathOf(cfg, h) == TargetOf(cfg.settings, c) { OnePathEach(cfg, h, c.hash); }
  }

  lemma CommitKeepsFiles(cfg: Config, files: map<Path, Bytes>, c: Cassette, m: map<string, Cassette>)
    requires FilesSound(cfg, files, m) && Legal(cfg, c)
    ensures FilesSound(cfg, files[TargetOf(cfg.settings, c) := Payload(cfg.settings, c)], m[c.hash := c])
  {
    PathFacts(cfg, c.hash);
    var target := TargetOf(cfg.settings, c);
    var files', m' := files[target := Payload(cfg.settings, c)], m[c.hash := c];
    forall h | h in m' ensures LiveOnDisk(cfg, files', m', h) { CommitKeepsLive(cfg, files, c, m, h); }
    forall p | p in files' && Below(cfg.settings.base, p) && IsCassetteName(Name(p))
        ensures FileIsLive(cfg, files', m', p) {
      if p == target { assert LiveOnDisk(cfg, files', m', c.hash); }
      else { assert FileIsLive(cfg, files, m, p); }
    }
  }

  lemma RemoveKeepsLive(cfg: Config, files: map<Path, Bytes>, hash: string, m: map<string, Cassette>, h: string)
    requires LiveOnDisk(cfg, files, m, h) && Admissible(cfg, hash) && h != hash
    ensures LiveOnDisk(cfg, files - {PathOf(cfg, hash)}, m - {hash}, h)
  {
    if PathOf(cfg, h) == PathOf(cfg, hash) { OnePathEach(cfg, h, hash); }
  }

  lemma RemoveKeepsFiles(cfg: Config, files: map<Path, Bytes>, hash: string, m: map<string, Cassette>)
    requires FilesSound(cfg, files, m) && Admissible(cfg, hash)
    ensures FilesSound(cfg, files - {PathOf(cfg, hash)}, m - {hash})
  {
    var files', m' := files - {PathOf(cfg, hash)}, m - {hash};
    forall h | h in m' ensures LiveOnDisk(cfg, files', m', h) { RemoveKeepsLive(cfg, files, hash, m, h); }
    forall p | p in files' && Below(cfg.settings.base, p) && IsCassetteName(Name(p))
        ensures FileIsLive(cfg, files', m', p) {
      assert FileIsLive(cfg, files, m, p);
    }
  }

  lemma ListedAfterEntry(x: IndexState, hash: string, ns: string, rel: Path, other: string, h: string)
    requires h in Listed(x, other) || (h == hash && other == ns && ns != "")
    ensures h in Listed(WithEntry(x, hash, ns, rel), other)
  {
    if ns != "" && hash !in Listed(x, ns) { assert (Listed(x, ns) + [hash])[|Listed(x, ns)|] == hash; }
  }

  lemma EntryKeepsIndex(cfg: Config, x: IndexState, hash: string, rel: Path)
    requires IndexSound(cfg, x) && Admissible(cfg, hash) && Full(cfg.settings.base, rel) == PathOf(cfg, hash)
    ensures IndexSound(cfg, WithEntry(x, hash, cfg.namespaceOf(hash), rel))
  {
    var ns := cfg.namespaceOf(hash);
    var y := WithEntry(x, hash, ns, rel);
    forall h | h in y.paths && cfg.namespaceOf(h) != "" ensures h in Listed(y, cfg.namespaceOf(h)) {
      ListedAfterEntry(x, hash, ns, rel, cfg.namespaceOf(h), h);
    }
    forall other | other in y.lists ensures other != "" && NoDuplicates(y.lists[other]) {
      if other == ns { assert y.lists[other] == Listed(x, ns) || y.lists[other] == Listed(x, ns) + [hash]; }
    }
    forall other, h | other in y.lists && h in y.lists[other] ensures cfg.namespaceOf(h) == other {
      assert h in Listed(x, other) || h == hash;
    }
  }

  /** A file that a walk finds is the file of its own live hash. */
  lemma ScannedIsLive(cfg: Config, files: map<Path, Bytes>, m: map<string, Cassette>, p: Path)
    requires FilesSound(cfg, files, m) && Below(cfg.settings.base, p)
    ensures var c := Scanned(cfg.settings, files, p);
            c.Some? ==>
              && LiveOnDisk(cfg, files, m, c.value.hash)
              && m[c.value.hash] == c.value && p == PathOf(cfg, c.value.hash)
  {
    if Scanned(cfg.settings, files, p).Some? { assert FileIsLive(cfg, files, m, p); }
  }

  lemma LiveIsScanned(cfg: Config, files: map<Path, Bytes>, m: map<string, Cassette>, h: string)
    requires FilesSound(cfg, files, m) && h in m
    ensures LiveOnDisk(cfg, files, m, h) && Scanned(cfg.settings, files, PathOf(cfg, h)) == Some(m[h])
  {
    assert LiveOnDisk(cfg, files, m, h);
    PathFacts(cfg, h);
  }

  lemma VisitKeepsCovered(cfg: Config, s: State, m: map<string, Cassette>, hidden: set<string>, h: string)
    requires FilesSound(cfg, s.files, m) && Enabled(cfg, s, Visit) && h in m && Covered(cfg, s, hidden, h)
    ensures Covered(cfg, Apply(cfg, s, Visit), hidden, h)
  {
    var p, rest := s.scan.todo[0], s.scan.todo[1..];
    assert s.scan.todo == [p] + rest;
    LiveIsScanned(cfg, s.files, m, h);
    ScannedIsLive(cfg, s.files, m, p);
  }

  lemma VisitKeepsScan(cfg: Config, s: State, m: map<string, Cassette>)
    requires FilesSound(cfg, s.files, m) && ScanSound(cfg, s.scan) && Enabled(cfg, s, Visit)
    ensures ScanSound(cfg, Apply(cfg, s, Visit).scan)
  {
    var p := s.scan.todo[0];
    ScannedIsLive(cfg, s.files, m, p);
    var c := Scanned(cfg.settings, s.files, p);
    if c.Some? { PathFacts(cfg, c.value.hash); }
  }

  lemma VisitStep(cfg: Config, s: State, m: map<string, Cassette>, hidden: set<string>)
    requires Inv(cfg, s, m, hidden) && Enabled(cfg, s, Visit)
    ensures Inv(cfg, Apply(cfg, s, Visit), m, hidden)
  {
    VisitKeepsScan(cfg, s, m);
    forall h | h in m ensures Covered(cfg, Apply(cfg, s, Visit), hidden, h) { VisitKeepsCovered(cfg, s, m, hidden, h); }
  }

  lemma StagedTemp(cfg: Config, phase: Phase)
    requires PhaseSound(cfg, phase) && phase.Staged?
    ensures !IsCassetteName(Name(phase.tmp))
  {
    var stamp :| '.' !in stamp && phase.tmp == TempOf(TargetOf(cfg.settings, phase.c), stamp);
    TempFacts(cfg, phase.c, stamp);
  }

  /** As far as finding hashes goes, only index, phase and scan count. */
  lemma CoveredAlike(cfg: Config, s: State, s': State, hidden: set<string>, h: string)
    requires Covered(cfg, s, hidden, h) && s'.index == s.index && s'.scan == s.scan
    requires s'.phase.Down? == s.phase.Down? && s'.phase.Opening? == s.phase.Opening?
    requires s.phase.Renamed? && s.phase.c.hash == h ==> s'.phase.Renamed? && s'.phase.c.hash == h
    ensures Covered(cfg, s', hidden, h)
  {
  }

  lemma TempStep(cfg: Config, s: State, step: Step, m: map<string, Cassette>, hidden: set<string>)
    requires Inv(cfg, s, m, hidden) && Enabled(cfg, s, step)
    requires step.WriteTemp? || step.AbandonSave?
    ensures Inv(cfg, Apply(cfg, s, step), m, hidden)
  {
    var tmp, s' := s.phase.tmp, Apply(cfg, s, step);
    StagedTemp(cfg, s.phase);
    TempFilesDoNotMatter(cfg, s.files, s'.files, tmp, m);
    forall h | h in m ensures Covered(cfg, s', hidden, h) { CoveredAlike(cfg, s, s', hidden, h); }
  }

  lemma CommitStep(cfg: Config, s: State, c: Cassette, m: map<string, Cassette>, hidden: set<string>)
    requires Inv(cfg, s, m, hidden) && Enabled(cfg, s, Commit(c))
    ensures Inv(cfg, Apply(cfg, s, Commit(c)), m[c.hash := c], hidden - {c.hash})
  {
    var tmp, s' := s.phase.tmp, Apply(cfg, s, Commit(c));
    StagedTemp(cfg, s.phase);
    TempFilesDoNotMatter(cfg, s.files, s.files - {tmp}, tmp, m);
    CommitKeepsFiles(cfg, s.files - {tmp}, c, m);
    forall h | h in m[c.hash := c] ensures Covered(cfg, s', hidden - {c.hash}, h) {
      if h != c.hash { CoveredAlike(cfg, s, s', hidden, h); }
    }
  }

  lemma RemoveStep(cfg: Config, s: State, hash: string, m: map<string, Cassette>, hidden: set<string>)
    requires Inv(cfg, s, m, hidden) && Enabled(cfg, s, Remove(hash))
    ensures Inv(cfg, Apply(cfg, s, Remove(hash)), m - {hash}, hidden)
  {
    RemoveKeepsFiles(cfg, s.files, hash, m);
    var s' := Apply(cfg, s, Remove(hash));
    forall h | h in m - {hash} ensures Covered(cfg, s', hidden, h) { CoveredAlike(cfg, s, s', hidden, h); }
  }

  lemma QuietStep(cfg: Config, s: State, step: Step, m: map<string, Cassette>,
      hidden: set<string>, hidden': set<string>)
    requires Inv(cfg, s, m, hidden) && Enabled(cfg, s, step) && hidden <= hidden'
    requires step.BeginSave? || step.IndexSaveFails? || step.RemoveFails? || step.IndexDeleteFails?
    requires step.IndexSaveFails? ==> step.c.hash in hidden'
    ensures Inv(cfg, Apply(cfg, s, step), m, hidden')
  {
    var s' := Apply(cfg, s, step);
    forall h | h in m ensures Covered(cfg, s', hidden', h) { assert Covered(cfg, s, hidden, h); }
  }

  lemma IndexSaveStep(cfg: Config, s: State, m: map<string, Cassette>, hidden: set<string>)
    requires Inv(cfg, s, m, hidden) && Enabled(cfg, s, IndexSave)
    ensures Inv(cfg, Apply(cfg, s, IndexSave), m, hidden)
  {
    EntryKeepsIndex(cfg, s.index, s.phase.c.hash, Rel(cfg, s.phase.c.hash));
    forall h | h in m ensures Covered(cfg, Apply(cfg, s, IndexSave), hidden, h) { assert Covered(cfg, s, hidden, h); }
  }

  lemma RecordStep(cfg: Config, s: State, m: map<string, Cassette>, hidden: set<string>)
    requires Inv(cfg, s, m, hidden) && Enabled(cfg, s, Record)
    ensures Inv(cfg, Apply(cfg, s, Record), m, hidden)
  {
    EntryKeepsIndex(cfg, s.index, s.scan.hash, s.scan.rel);
    forall h | h in m ensures Covered(cfg, Apply(cfg, s, Record), hidden, h) { assert Covered(cfg, s, hidden, h); }
  }

  lemma IndexDeleteStep(cfg: Config, s: State, m: map<string, Cassette>, hidden: set<string>)
    requires Inv(cfg, s, m, hidden) && Enabled(cfg, s, IndexDelete) && (s.phase.hash !in m || s.phase.hash in hidden)
    ensures Inv(cfg, Apply(cfg, s, IndexDelete), m, hidden)
  {
    StoreDeleteLeavesDeadHashes(s.index, s.phase.hash);
    var s' := Apply(cfg, s, IndexDelete);
    assert forall ns :: Listed(s'.index, ns) == Listed(s.index, ns);
    forall h | h in m ensures Covered(cfg, s', hidden, h) { assert Covered(cfg, s, hidden, h); }
  }

  lemma ControlSteps(cfg: Config, s: State, step: Step, m: map<string, Cassette>, hidden: set<string>)
    requires Inv(cfg, s, m, hidden) && Enabled(cfg, s, step)
    requires step.Crash? || step.BeginRebuild? || step.EndRebuild? || step.RecordFails?
    ensures Inv(cfg, Apply(cfg, s, step), m, hidden)
  {
    var s' := Apply(cfg, s, step);
    forall h | h in m ensures Covered(cfg, s', hidden, h) { assert Covered(cfg, s, hidden, h); }
  }

  lemma ReopenStep(cfg: Config, s: State, step: Step, m: map<string, Cassette>, hidden: set<string>)
    requires Inv(cfg, s, m, hidden) && Enabled(cfg, s, step) && step.Reopen?
    ensures Inv(cfg, Apply(cfg, s, step), m, {})
  {
    var s' := Apply(cfg, s, step);
    forall h | h in m ensures Covered(cfg, s', {}, h) {
      PathFacts(cfg, h);
      assert PathOf(cfg, h) in step.walk;
    }
  }

  /** A removed hash is no longer live, unless its file could not be removed. */
  ghost predicate RemovalSound(s: State, m: map<string, Cassette>, hidden: set<string>) {
    s.phase.Removed? ==> s.phase.hash !in m || s.phase.hash in hidden
  }

  lemma StepKeepsInv(cfg: Config, s: State, step: Step, m: map<string, Cassette>, hidden: set<string>)
    requires Inv(cfg, s, m, hidden) && RemovalSound(s, m, hidden) && Enabled(cfg, s, step)
    ensures Inv(cfg, Apply(cfg, s, step), LiveAfter(m, step), HiddenAfter(hidden, step))
    ensures RemovalSound(Apply(cfg, s, step), LiveAfter(m, step), HiddenAfter(hidden, step))
  {
    match step {
      case WriteTemp(_) => TempStep(cfg, s, step, m, hidden);
      case AbandonSave(_) => TempStep(cfg, s, step, m, hidden);
      case Commit(c) => CommitStep(cfg, s, c, m, hidden);
      case Remove(hash) => RemoveStep(cfg, s, hash, m, hidden);
      case IndexSave => IndexSaveStep(cfg, s, m, hidden);
      case IndexDelete => IndexDeleteStep(cfg, s, m, hidden);
      case Record => RecordStep(cfg, s, m, hidden);
      case Visit => VisitStep(cfg, s, m, hidden);
      case Crash => ControlSteps(cfg, s, step, m, hidden);
      case Reopen(_, _) => ReopenStep(cfg, s, step, m, hidden);
      case BeginRebuild(_) => ControlSteps(cfg, s, step, m, hidden);
      case EndRebuild => ControlSteps(cfg, s, step, m, hidden);
      case RecordFails => ControlSteps(cfg, s, step, m, hidden);
      case _ => QuietStep(cfg, s, step, m, hidden, HiddenAfter(hidden, step));
    }
  }

  lemma {:induction false} RunKeepsInv(cfg: Config, s: State, m: map<string, Cassette>, steps: seq<Step>)
    requires Inv(cfg, s, m, {}) && RemovalSound(s, m, {})
    requires Run(cfg, s, steps).Some?
    ensures Inv(cfg, Run(cfg, s, steps).value, Live(m, steps), Unindexed(steps))
    ensures RemovalSound(Run(cfg, s, steps).value, Live(m, steps), Unindexed(steps))
  {
    if |steps| > 0 {
      var front, last := steps[..|steps| - 1], steps[|steps| - 1];
      RunKeepsInv(cfg, s, m, front);
      StepKeepsInv(cfg, Run(cfg, s, front).value, last, Live(m, front), Unindexed(front));
    }
  }
}
