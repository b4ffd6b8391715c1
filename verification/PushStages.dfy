/** One push as decisions over what it observed: which prior it compares with, what it
    filters, freezes, holds, proves absent, uploads and finally publishes. Every read is
    an arbitrary observation. */
module PushStages {
  import opened Manifests
  import opened MergeCopies
  import opened RemoteFetch

  const RETIRED: set<string> := {"grok", "opencode"}
  const INTERNAL: set<string> := {"mm-events"}

  // ---- configuration ----------------------------------------------------

  /** Foreign functions: content digest, ISO parsing of `deleted_at` and of `mtime`, and
      the hash that breaks timestamp ties between conflict copies. */
  datatype Library = Library(
    digest: Bytes -> string,
    instant: string -> Option<int>,
    mtimeOf: string -> Option<int>,
    contentHash: ContentHash)

  /** Path tests built into the program: conflict-copy basenames, selection markers
      (`.git` in any case, `.extend-root`, empty and `.` segments), the walker's own junk
      list, and validity of a relative path. */
  datatype PathRules = PathRules(
    conflictNamed: string -> bool,
    marker: string -> bool,
    junk: string -> bool,
    valid: string -> bool)

  /** Per-source selection. What its walk can name at all - below its include directories and
      files, or in the layout of its type - and the directories at which it can meet a
      checkout; then skip prefixes, exclude globs, and the allowlist (true everywhere when
      there is none). */
  datatype SourceCfg = SourceCfg(
    reaches: string -> bool,
    meets: string -> bool,
    prefixes: set<string>,
    patterns: string -> bool,
    allowed: string -> bool)

  datatype Config = Config(
    device: string,
    deviceName: string,
    selected: set<string>,
    available: map<string, SourceCfg>,
    skippedInternal: bool,
    paths: PathRules,
    lib: Library)

  predicate Scoped(cfg: Config, name: string, path: string) {
    name in cfg.available ==>
      !UnderPrefix(path, cfg.available[name].prefixes) && !cfg.available[name].patterns(path)
      && cfg.available[name].allowed(path)
  }

  /** The consumer-boundary exclusion applied to prior manifests. */
  predicate ConsumerExcluded(cfg: Config, name: string, path: string) {
    cfg.paths.conflictNamed(path) || cfg.paths.marker(path) || !Scoped(cfg, name, path)
  }

  /** The walker's exclusion, also used when a held file is resolved. */
  predicate WalkExcluded(cfg: Config, name: string, path: string) {
    cfg.paths.conflictNamed(path) || cfg.paths.junk(path) || !Scoped(cfg, name, path)
  }

  /** A walk of the source may report this file, read or held. */
  predicate MaySee(cfg: Config, name: string, path: string) {
    name in cfg.available && cfg.available[name].reaches(path) && !WalkExcluded(cfg, name, path)
  }

  /** A checkout the walk may report covers the path. */
  ghost predicate Coverable(cfg: Config, name: string, path: string) {
    name in cfg.available && exists r :: MayMeet(cfg, name, r) && UnderPrefix(path, {r})
  }

  /** A walk reports checkouts strictly below the source root. */
  predicate MayMeet(cfg: Config, name: string, root: string) {
    name in cfg.available && root != "." && cfg.available[name].meets(root)
  }

  /** The exclusion inside the absence proof: no skip prefixes. */
  predicate ProofExcluded(cfg: Config, name: string, path: string) {
    cfg.paths.conflictNamed(path) || cfg.paths.junk(path)
    || (name in cfg.available
        && (cfg.available[name].patterns(path) || !cfg.available[name].allowed(path)))
  }

  // ---- observations -------------------------------------------------------

  datatype Reason = Changed | Vanished | Grew

  /** One source as a strict walk saw it. */
  datatype SourceScan = SourceScan(
    basePath: string,
    files: map<string, Entry>,
    held: set<string>,
    candidates: set<string>,
    roots: set<string>)

  datatype Scan = Incomplete | Scanned(sources: map<string, SourceScan>)

  datatype Probe = Gone | Link | Regular | OtherKind | Unreadable

  /** One open-file revision, a transient, a stable oversize, or a refusal. */
  datatype Reading = Revision(data: Bytes, mtime: string) | Transient(reason: Reason) | TooLarge | Refusal

  type PathTest = (string, string) -> bool
  type PathProbe = (string, string) -> Probe
  type PathReading = (string, string) -> Reading

  datatype Observations = Observations(
    fetch: Fetch,
    sidecarReadable: bool,
    peers: map<string, Tombstone>,
    scan: Scan,
    linkProbeFails: bool,
    linkedFile: PathTest,
    linkedTombstone: PathTest,
    candidate: PathProbe,
    omitted: PathProbe,
    root: string -> bool,
    catchupPending: bool,
    rescan: Scan,
    candidateAgain: PathProbe,
    omittedAgain: PathProbe,
    rootAgain: string -> bool,
    first: PathReading,
    second: PathReading,
    rootAfter: string -> bool,
    newerAtEnd: bool,
    sidecarWrites: bool,
    clocks: (Clock, Clock, Clock),
    timestamp: string)

  /** What survives between commands: stored blobs by digest, the canonical manifest and
      the local sidecar. */
  datatype Store = Store(blobs: map<string, Bytes>, own: Option<Manifest>, sidecar: Option<Manifest>)

  /** What one walk reports of a source: files and holds it selects, candidates it can name,
      and checkouts it can meet. */
  predicate Walks(cfg: Config, scan: Scan, n: string) {
    scan.Scanned? && n in scan.sources ==>
      && (forall p | p in scan.sources[n].files.Keys + scan.sources[n].held :: MaySee(cfg, n, p))
      && (forall c | c in scan.sources[n].candidates :: n in cfg.available && cfg.available[n].reaches(c))
      && (forall r | r in scan.sources[n].roots :: MayMeet(cfg, n, r))
  }

  predicate LoadedPath(cfg: Config, m: Manifest, n: string, p: string) {
    p in Files(m.sources, n) ==> cfg.paths.valid(p)
  }

  predicate LoadedKey(cfg: Config, m: Manifest, k: string) {
    k in m.tombstones && ':' in k ==> KeyOwner(k).1 == "" || cfg.paths.valid(KeyOwner(k).1)
  }

  /** What loading guarantees of a fetched manifest: valid paths, also in its tombstones. */
  predicate Loaded(cfg: Config, m: Manifest) {
    && (forall n, p {:trigger LoadedPath(cfg, m, n, p)} | n in m.sources && p in m.sources[n].files ::
          LoadedPath(cfg, m, n, p))
    && (forall k {:trigger LoadedKey(cfg, m, k)} | k in m.tombstones :: LoadedKey(cfg, m, k))
  }

  /** A fetch result has a manifest, a loaded one, exactly when it is ok; a scan names exactly
      the sources it was asked to walk, with what their walks can report. */
  predicate WellFormed(cfg: Config, o: Observations) {
    && (o.fetch.status == Ok <==> o.fetch.manifest.Some?)
    && (o.fetch.manifest.Some? ==> Loaded(cfg, o.fetch.manifest.value))
    && (o.scan.Scanned? ==> o.scan.sources.Keys == cfg.available.Keys)
    && (o.rescan.Scanned? ==> o.rescan.sources.Keys == cfg.available.Keys * INTERNAL)
    && (forall n {:trigger Walks(cfg, o.scan, n)} | n in cfg.available :: Walks(cfg, o.scan, n))
    && (forall n {:trigger Walks(cfg, o.rescan, n)} | n in cfg.available :: Walks(cfg, o.rescan, n))
  }

  // ---- the prior ------------------------------------------------------------

  function SidecarRead(cfg: Config, s: Store, o: Observations): Option<Manifest> {
    if o.sidecarReadable && s.sidecar.Some? && s.sidecar.value.device == cfg.device then s.sidecar else None
  }

  function PriorOf(cfg: Config, s: Store, o: Observations): Recovered {
    RecoverPrior(cfg.lib.contentHash, o.fetch, cfg.device, SidecarRead(cfg, s, o), o.peers)
  }

  predicate Recovering(o: Observations) {
    o.fetch.status == Corrupt || o.fetch.conflictCopiesOnly || o.fetch.vanished
  }

  /** Only the fetched manifest drives the byte diff. */
  function RemoteSources(o: Observations): map<string, Source> {
    if o.fetch.manifest.Some? then o.fetch.manifest.value.sources else map[]
  }

  function RemoteTombstones(o: Observations): map<string, Tombstone> {
    if o.fetch.manifest.Some? then o.fetch.manifest.value.tombstones else map[]
  }

  function Intended(cfg: Config): set<string> {
    cfg.selected + cfg.available.Keys
  }

  /** A selected source that is unavailable but was published with files. */
  predicate LostSource(cfg: Config, prior: Recovered) {
    exists n | n in cfg.selected :: n !in cfg.available && prior.Prior? && Files(prior.manifest.sources, n) != map[]
  }

  function FilterUnselected(m: Manifest, intended: set<string>): Manifest {
    m.(sources := map n | n in m.sources && n in intended && n !in RETIRED :: m.sources[n])
  }

  /** The other direction of the same filter, used by readers. */
  function FilterDisabled(m: Manifest, disabled: set<string>): Manifest {
    m.(sources := map n | n in m.sources && n !in disabled && n !in RETIRED :: m.sources[n])
  }

  function FilterExcluded(cfg: Config, m: Manifest): Manifest {
    m.(sources := map n | n in m.sources ::
         Source(m.sources[n].basePath,
                map p | p in m.sources[n].files && !ConsumerExcluded(cfg, n, p) :: m.sources[n].files[p]),
       tombstones := map k | k in m.tombstones && !ConsumerExcluded(cfg, KeyOwner(k).0, KeyOwner(k).1) ::
         m.tombstones[k])
  }

  // ---- freezing nested checkouts ----------------------------------------------

  function Paths(perSource: PathsBySource, name: string): set<string> {
    if name in perSource then perSource[name] else {}
  }

  function ScanRoots(scan: Scan): PathsBySource {
    if scan.Scanned? then map n | n in scan.sources :: scan.sources[n].roots else map[]
  }

  predicate Keeps(stored: Option<set<string>>, e: Entry) {
    stored.None? || e.sha in stored.value
  }

  /** A published path below a checkout root that the walk no longer sees and that is
      neither tombstoned nor, in recovery, without a stored blob. */
  predicate Freezes(
    name: string, files: map<string, Entry>, e: Entry, roots: set<string>, tombstones: map<string, Tombstone>,
    stored: Option<set<string>>, p: string)
  {
    p !in files && UnderPrefix(p, roots) && !IsTombstoned(name, p, tombstones) && Keeps(stored, e)
  }

  type PathsBySource = map<string, set<string>>

  function FrozenPaths(
    n: string, files: map<string, Entry>, prior: Manifest, roots: PathsBySource, stored: Option<set<string>>)
    : set<string>
  {
    set p | p in Files(prior.sources, n)
            && Freezes(n, files, Files(prior.sources, n)[p], Paths(roots, n), prior.tombstones, stored, p)
  }

  /** `files` with the prior's entries put back for `paths`. */
  function Restore(files: map<string, Entry>, prior: map<string, Entry>, paths: set<string>): map<string, Entry> {
    files + map p | p in paths && p in prior :: prior[p]
  }

  function FrozenSource(
    n: string, src: Source, prior: Manifest, roots: PathsBySource, stored: Option<set<string>>): Source
  {
    Source(src.basePath, Restore(src.files, Files(prior.sources, n), FrozenPaths(n, src.files, prior, roots, stored)))
  }

  function FreezeSources(
    local: map<string, Source>, prior: Manifest, roots: PathsBySource, stored: Option<set<string>>): map<string, Source>
  {
    map n | n in local :: FrozenSource(n, local[n], prior, roots, stored)
  }

  function FrozenMap(
    local: map<string, Source>, prior: Manifest, roots: PathsBySource, stored: Option<set<string>>): PathsBySource
  {
    map n | n in local :: FrozenPaths(n, local[n].files, prior, roots, stored)
  }

  function DropUnfrozen(m: Manifest, roots: PathsBySource, frozen: PathsBySource): Manifest {
    m.(sources := map n | n in m.sources ::
         Source(m.sources[n].basePath,
                map p | p in m.sources[n].files && (p in Paths(frozen, n) || !UnderPrefix(p, Paths(roots, n))) ::
                  m.sources[n].files[p]))
  }

  predicate Symlinked(cfg: Config, roots: PathsBySource, linked: PathTest, n: string, p: string) {
    n in cfg.available && !UnderPrefix(p, Paths(roots, n)) && cfg.paths.valid(p) && linked(n, p)
  }

  function FilterSymlinked(cfg: Config, m: Manifest, roots: PathsBySource, o: Observations): Manifest {
    m.(sources := map n | n in m.sources ::
         Source(m.sources[n].basePath,
                map p | p in m.sources[n].files && !Symlinked(cfg, roots, o.linkedFile, n, p) :: m.sources[n].files[p]),
       tombstones := map k | k in m.tombstones
                             && !(':' in k && Symlinked(cfg, roots, o.linkedTombstone, KeyOwner(k).0, KeyOwner(k).1)) ::
         m.tombstones[k])
  }

  // ---- held files -----------------------------------------------------------------

  function HeldOf(scan: Scan, n: string): set<string> {
    if scan.Scanned? && n in scan.sources then scan.sources[n].held else {}
  }

  function CandidatesOf(scan: Scan, n: string): set<string> {
    if scan.Scanned? && n in scan.sources then scan.sources[n].candidates else {}
  }

  /** Some published path lies below `path`, so the prior knew it as a directory. */
  predicate WasDirectory(path: string, prior: map<string, Entry>) {
    exists f | f in prior :: path + "/" <= f
  }

  predicate CandidateProven(prior: map<string, Entry>, probe: Probe, path: string) {
    probe == Gone && !WasDirectory(path, prior)
  }

  function PriorSources(prior: Option<Manifest>): map<string, Source> {
    if prior.Some? then prior.value.sources else map[]
  }

  function PriorTombstones(prior: Option<Manifest>): map<string, Tombstone> {
    if prior.Some? then prior.value.tombstones else map[]
  }

  /** Candidates the program must validate for source `n`. */
  function Unsettled(cfg: Config, scan: Scan, n: string): set<string> {
    set c | c in CandidatesOf(scan, n) && c !in HeldOf(scan, n) && !WalkExcluded(cfg, n, c)
  }

  predicate SourceCandidatesProven(cfg: Config, prior: map<string, Entry>, scan: Scan, probe: PathProbe, n: string) {
    forall c | c in Unsettled(cfg, scan, n) :: CandidateProven(prior, probe(n, c), c)
  }

  predicate CandidatesProven(
    cfg: Config, local: map<string, Source>, prior: Option<Manifest>, scan: Scan, probe: PathProbe)
  {
    forall n | n in local :: SourceCandidatesProven(cfg, Files(PriorSources(prior), n), scan, probe, n)
  }

  function HeldBefore(cfg: Config, scan: Scan, n: string): set<string> {
    HeldOf(scan, n) + Unsettled(cfg, scan, n)
  }

  predicate Waits(
    cfg: Config, n: string, files: map<string, Entry>, frozen: set<string>, tombstones: map<string, Tombstone>,
    p: string)
  {
    p !in files && p !in frozen && !WalkExcluded(cfg, n, p) && !IsTombstoned(n, p, tombstones)
  }

  /** Held paths that really wait: not scanned, frozen, excluded or tombstoned. */
  function Surviving(
    cfg: Config, n: string, files: map<string, Entry>, prior: Option<Manifest>, scan: Scan, frozen: PathsBySource)
    : set<string>
  {
    set p | p in HeldBefore(cfg, scan, n) && Waits(cfg, n, files, Paths(frozen, n), PriorTombstones(prior), p)
  }

  function InjectedSource(
    cfg: Config, n: string, src: Source, prior: Option<Manifest>, scan: Scan, frozen: PathsBySource): Source
  {
    Source(src.basePath,
           Restore(src.files, Files(PriorSources(prior), n), Surviving(cfg, n, src.files, prior, scan, frozen)))
  }

  function InjectSources(
    cfg: Config, local: map<string, Source>, prior: Option<Manifest>, scan: Scan, frozen: PathsBySource)
    : map<string, Source>
  {
    map n | n in local :: InjectedSource(cfg, n, local[n], prior, scan, frozen)
  }

  function SurvivingMap(
    cfg: Config, local: map<string, Source>, prior: Option<Manifest>, scan: Scan, frozen: PathsBySource): PathsBySource
  {
    map n | n in local :: Surviving(cfg, n, local[n].files, prior, scan, frozen)
  }

  // ---- the absence proof ------------------------------------------------------------

  predicate Absent(probe: Probe) {
    probe == Gone || probe == Link || probe == OtherKind
  }

  /** A prior path the local manifest omits and the proof has to probe. */
  predicate MustProbe(cfg: Config, local: map<string, Source>, prior: Manifest, n: string, p: string) {
    n in cfg.available && p in Files(prior.sources, n) && p !in Files(local, n)
    && cfg.paths.valid(p) && !ProofExcluded(cfg, n, p)
  }

  predicate AbsenceProven(
    cfg: Config, local: map<string, Source>, prior: Manifest, probe: PathProbe, root: string -> bool)
  {
    && (forall n | n in prior.sources && n in cfg.available && prior.sources[n].files != map[] :: root(n))
    && (forall n | n in prior.sources :: forall p | p in prior.sources[n].files ::
          MustProbe(cfg, local, prior, n, p) ==> Absent(probe(n, p)))
  }

  // ---- the draft up to the substantive-change gate -------------------------------------

  datatype Draft = Draft(
    sources: map<string, Source>,
    prior: Option<Manifest>,
    frozen: PathsBySource,
    held: PathsBySource,
    tombstones: map<string, Tombstone>)

  function ScannedSources(scan: Scan): map<string, Source>
    requires scan.Scanned?
  {
    map n | n in scan.sources :: Source(scan.sources[n].basePath, scan.sources[n].files)
  }

  /** A push without an accepted prior collects no holds: a transient refuses its scan. */
  predicate Settled(scan: Scan) {
    scan.Scanned? && forall n | n in scan.sources ::
      scan.sources[n].held == {} && scan.sources[n].candidates == {}
  }

  predicate ScanAccepted(scan: Scan, recovering: bool) {
    scan.Scanned? && (recovering ==> Settled(scan))
  }

  function StoredFilter(s: Store, o: Observations): Option<set<string>> {
    if o.fetch.status == Ok && !o.fetch.conflictCopiesOnly then None else Some(s.blobs.Keys)
  }

  /** The prior once disabled sources and out-of-scope paths are gone. */
  function ScopedPrior(cfg: Config, m: Manifest): Manifest {
    FilterExcluded(cfg, FilterUnselected(m, Intended(cfg)))
  }

  function FrozenBy(cfg: Config, s: Store, o: Observations, m: Manifest): PathsBySource
    requires o.scan.Scanned?
  {
    FrozenMap(ScannedSources(o.scan), ScopedPrior(cfg, m), ScanRoots(o.scan), StoredFilter(s, o))
  }

  /** The prior the push compares with: scoped, unfrozen checkout entries dropped, and
      locally symlinked paths dropped. */
  function ComparedPrior(cfg: Config, s: Store, o: Observations, m: Manifest): Manifest
    requires o.scan.Scanned?
  {
    FilterSymlinked(cfg, DropUnfrozen(ScopedPrior(cfg, m), ScanRoots(o.scan), FrozenBy(cfg, s, o, m)),
                    ScanRoots(o.scan), o)
  }

  function DraftWithPrior(cfg: Config, s: Store, o: Observations, m: Manifest): Option<Draft>
    requires o.scan.Scanned?
  {
    var scoped := ScopedPrior(cfg, m);
    var frozen := FrozenBy(cfg, s, o, m);
    var local := FreezeSources(ScannedSources(o.scan), scoped, ScanRoots(o.scan), StoredFilter(s, o));
    var prior := ComparedPrior(cfg, s, o, m);
    var injected := InjectSources(cfg, local, Some(prior), o.scan, frozen);
    if o.linkProbeFails
       || !CandidatesProven(cfg, local, Some(prior), o.scan, o.candidate)
       || !AbsenceProven(cfg, injected, prior, o.omitted, o.root)
    then None
    else
      Some(Draft(injected, Some(prior), frozen, SurvivingMap(cfg, local, Some(prior), o.scan, frozen),
                 GenerateTombstones(cfg.lib.instant, injected, Some(prior), o.clocks.0, cfg.device)))
  }

  function DraftWithoutPrior(cfg: Config, o: Observations): Option<Draft>
    requires o.scan.Scanned?
  {
    var local := ScannedSources(o.scan);
    if !CandidatesProven(cfg, local, None, o.scan, o.candidate) then None
    else Some(Draft(InjectSources(cfg, local, None, o.scan, map[]), None, map[],
                    SurvivingMap(cfg, local, None, o.scan, map[]), map[]))
  }

  /** Refusals before any file is read. */
  predicate RefusesEarly(cfg: Config, s: Store, o: Observations) {
    var prior := PriorOf(cfg, s, o);
    o.fetch.newerVersion.Some? || prior.Abort? || LostSource(cfg, prior)
  }

  /** The local manifest, prior, frozen and held sets when tombstones are first generated,
      or None when the push refuses before that. */
  function Prepare(cfg: Config, s: Store, o: Observations): Option<Draft> {
    var prior := PriorOf(cfg, s, o);
    if RefusesEarly(cfg, s, o) || !ScanAccepted(o.scan, Recovering(o)) then None
    else if prior.Prior? then DraftWithPrior(cfg, s, o, prior.manifest)
    else DraftWithoutPrior(cfg, o)
  }

  // ---- the gate ------------------------------------------------------------------------

  /** Same bytes, strictly newer local mtime; an mtime that does not parse never counts. */
  predicate NewerMtime(lib: Library, local: Entry, remote: Entry) {
    && local.sha == remote.sha && local.mtime.Some? && remote.mtime.Some?
    && lib.mtimeOf(local.mtime.value).Some? && lib.mtimeOf(remote.mtime.value).Some?
    && lib.mtimeOf(local.mtime.value).value > lib.mtimeOf(remote.mtime.value).value
  }

  predicate MtimeDrift(lib: Library, local: map<string, Source>, remote: map<string, Source>) {
    exists n | n in local :: exists p | p in local[n].files ::
      p in Files(remote, n) && NewerMtime(lib, local[n].files[p], Files(remote, n)[p])
  }

  function Advertised(prior: Recovered): set<string> {
    if prior.Prior? then prior.manifest.sources.Keys else {}
  }

  /** Something to publish: bytes, mtimes, recovery, selection, or a pending catch-up. */
  predicate Substantive(cfg: Config, s: Store, o: Observations, d: Draft) {
    || AnySourceChanged(d.sources, RemoteSources(o))
    || MtimeDrift(cfg.lib, d.sources, RemoteSources(o))
    || Recovering(o)
    || d.sources.Keys != Advertised(PriorOf(cfg, s, o))
    || o.catchupPending
  }

  // ---- the mm-events rescan ----------------------------------------------------------------

  function BothRoots(o: Observations, n: string): set<string> {
    Paths(ScanRoots(o.scan), n) + Paths(ScanRoots(o.rescan), n)
  }

  /** The frozen paths the rescan did not read, with the entries they already had. */
  function CarryFrozen(rescanned: map<string, Entry>, previous: map<string, Entry>, frozen: set<string>)
    : map<string, Entry>
  {
    rescanned + map p | p in frozen && p !in rescanned && p in previous :: previous[p]
  }

  /** Paths the first scan held that a checkout found by the rescan now covers. */
  function NewlyFrozen(
    rescanned: map<string, Entry>, previous: map<string, Entry>, frozen: set<string>, held: set<string>,
    roots: set<string>)
    : set<string>
  {
    set p | p in held && p !in CarryFrozen(rescanned, previous, frozen) && UnderPrefix(p, roots) && p in previous
  }

  function CarryHeld(
    rescanned: map<string, Entry>, previous: map<string, Entry>, frozen: set<string>, held: set<string>,
    roots: set<string>)
    : map<string, Entry>
  {
    CarryFrozen(rescanned, previous, frozen)
    + map p | p in NewlyFrozen(rescanned, previous, frozen, held, roots) && p in previous :: previous[p]
  }

  function RescannedFiles(o: Observations, d: Draft, n: string): map<string, Entry>
    requires o.rescan.Scanned? && n in o.rescan.sources
  {
    CarryHeld(o.rescan.sources[n].files, Files(d.sources, n), Paths(d.frozen, n), Paths(d.held, n), BothRoots(o, n))
  }

  function RescannedFrozen(o: Observations, d: Draft, n: string): set<string>
    requires o.rescan.Scanned? && n in o.rescan.sources
  {
    var rescanned := o.rescan.sources[n].files;
    var frozen := Paths(d.frozen, n);
    (frozen - rescanned.Keys)
    + NewlyFrozen(rescanned, Files(d.sources, n), frozen, Paths(d.held, n), BothRoots(o, n))
  }

  function RescannedSources(o: Observations, d: Draft): map<string, Source>
    requires o.rescan.Scanned?
  {
    map n | n in o.rescan.sources :: Source(o.rescan.sources[n].basePath, RescannedFiles(o, d, n))
  }

  function FrozenAfter(o: Observations, d: Draft): PathsBySource
    requires o.rescan.Scanned?
  {
    map n | n in d.frozen.Keys + o.rescan.sources.Keys ::
      if n in o.rescan.sources then RescannedFrozen(o, d, n) else d.frozen[n]
  }

  function HeldAfter(cfg: Config, o: Observations, d: Draft): PathsBySource
    requires o.rescan.Scanned?
  {
    (map n | n in d.held && n !in o.rescan.sources :: d.held[n])
    + SurvivingMap(cfg, RescannedSources(o, d), d.prior, o.rescan, FrozenAfter(o, d))
  }

  /** The rescan replaces the internal sources, keeps their frozen and held entries at the
      prior, proves omissions again and regenerates tombstones. */
  function Rescanned(cfg: Config, o: Observations, d: Draft): Option<Draft> {
    if cfg.available.Keys * INTERNAL == {} then Some(d)
    else if !ScanAccepted(o.rescan, Recovering(o)) then None
    else
      var frozen := FrozenAfter(o, d);
      var events := RescannedSources(o, d);
      var local := d.sources + InjectSources(cfg, events, d.prior, o.rescan, frozen);
      if !CandidatesProven(cfg, events, d.prior, o.rescan, o.candidateAgain)
         || (d.prior.Some? && !AbsenceProven(cfg, local, d.prior.value, o.omittedAgain, o.rootAgain))
      then None
      else
        Some(Draft(local, d.prior, frozen, HeldAfter(cfg, o, d),
                   GenerateTombstones(cfg.lib.instant, local, d.prior, o.clocks.1, cfg.device)))
  }

  // ---- the two-pass upload --------------------------------------------------------------------

  /** What the upload loop must read: changed bytes, neither frozen nor held. */
  function ToUpload(o: Observations, d: Draft, n: string): map<string, Entry> {
    map p | p in ChangedPaths(Files(d.sources, n), Files(RemoteSources(o), n))
            && p !in Paths(d.frozen, n) && p !in Paths(d.held, n) ::
      Files(d.sources, n)[p]
  }

  /** At upload a stably oversized file is one that grew after the scan. */
  function ReadOnce(r: Reading): Reading {
    if r.TooLarge? then Transient(Grew) else r
  }

  predicate MatchesScan(lib: Library, r: Reading, info: Entry)
    requires r.Revision?
  {
    && info.mtime.Some?
    && (r.mtime == info.mtime.value
        || (lib.mtimeOf(r.mtime).Some? && lib.mtimeOf(r.mtime) == lib.mtimeOf(info.mtime.value)))
    && lib.digest(r.data) == info.sha
    && |r.data| == info.size
  }

  /** What happens to one file: stored as scanned, patched to its settled second read,
      held, or fatal to the push. */
  datatype Upload = AsScanned(data: Bytes) | Patched(data: Bytes, entry: Entry) | HeldBack(reason: Reason) | Fatal

  function EntryOf(lib: Library, r: Reading): Entry
    requires r.Revision?
  {
    Entry(lib.digest(r.data), |r.data|, Some(r.mtime))
  }

  predicate Deferred(lib: Library, info: Entry, first: Reading) {
    ReadOnce(first).Transient? || (first.Revision? && !MatchesScan(lib, first, info))
  }

  function UploadOne(lib: Library, allowHold: bool, info: Entry, first: Reading, second: Reading): Upload {
    match ReadOnce(first)
    case Refusal => Fatal
    case Revision(data, _) =>
      if MatchesScan(lib, first, info) then AsScanned(data) else SecondRead(lib, allowHold, second)
    case _ => SecondRead(lib, allowHold, second)
  }

  function SecondRead(lib: Library, allowHold: bool, second: Reading): Upload {
    match ReadOnce(second)
    case Revision(data, _) => Patched(data, EntryOf(lib, second))
    case Transient(reason) => if allowHold then HeldBack(reason) else Fatal
    case _ => Fatal
  }

  /** One source's upload, path by path. */
  datatype Batch = Batch(
    files: map<string, Entry>,
    first: string -> Reading,
    second: string -> Reading,
    allowHold: bool)

  function At(lib: Library, b: Batch, p: string): Upload
    requires p in b.files
  {
    UploadOne(lib, b.allowHold, b.files[p], b.first(p), b.second(p))
  }

  function DeferredPaths(lib: Library, b: Batch): set<string> {
    set p | p in b.files && Deferred(lib, b.files[p], b.first(p))
  }

  predicate BatchFatal(lib: Library, b: Batch) {
    exists p | p in b.files :: At(lib, b, p).Fatal?
  }

  function Patches(lib: Library, b: Batch): map<string, Entry> {
    map p | p in b.files && At(lib, b, p).Patched? :: At(lib, b, p).entry
  }

  function HeldUploads(lib: Library, b: Batch): map<string, Reason> {
    map p | p in b.files && At(lib, b, p).HeldBack? :: At(lib, b, p).reason
  }

  function Puts(lib: Library, b: Batch): set<Bytes> {
    (set p | p in b.files && At(lib, b, p).AsScanned? :: At(lib, b, p).data)
    + (set p | p in b.files && At(lib, b, p).Patched? :: At(lib, b, p).data)
  }

  function BatchOf(o: Observations, d: Draft, n: string): Batch {
    Batch(ToUpload(o, d, n), p => o.first(n, p), p => o.second(n, p), !Recovering(o))
  }

  /** A held file goes back to the fetched entry, or out; a tombstoned one goes out. */
  function ApplyUpload(
    local: map<string, Entry>, patches: map<string, Entry>, held: set<string>, remote: map<string, Entry>,
    tombstoned: set<string>)
    : map<string, Entry>
  {
    map p | p in local.Keys + patches.Keys + held && (p in held ==> p in remote && p !in tombstoned) ::
      if p in held then remote[p] else if p in patches then patches[p] else local[p]
  }

  function HeldTombstoned(o: Observations, n: string, held: set<string>): set<string> {
    set p | p in held && IsTombstoned(n, p, RemoteTombstones(o))
  }

  function UploadedFiles(cfg: Config, o: Observations, d: Draft, n: string): map<string, Entry> {
    var b := BatchOf(o, d, n);
    var held := HeldUploads(cfg.lib, b).Keys;
    ApplyUpload(Files(d.sources, n), Patches(cfg.lib, b), held, Files(RemoteSources(o), n), HeldTombstoned(o, n, held))
  }

  function UploadedSources(cfg: Config, o: Observations, d: Draft): map<string, Source> {
    map n | n in d.sources :: Source(d.sources[n].basePath, UploadedFiles(cfg, o, d, n))
  }

  /** The upload of source `n` refuses: a fatal read, or a vanished file whose published
      root cannot be confirmed. */
  predicate UploadRefuses(cfg: Config, o: Observations, d: Draft, n: string) {
    var b := BatchOf(o, d, n);
    || BatchFatal(cfg.lib, b)
    || (n in RemoteSources(o) && Vanished in HeldUploads(cfg.lib, b).Values && !o.rootAfter(n))
  }

  predicate AnyUploadRefuses(cfg: Config, o: Observations, d: Draft) {
    exists n | n in d.sources :: UploadRefuses(cfg, o, d, n)
  }

  predicate AnyUploadHeld(cfg: Config, o: Observations, d: Draft) {
    exists n | n in d.sources :: HeldUploads(cfg.lib, BatchOf(o, d, n)) != map[]
  }

  function AllPuts(cfg: Config, o: Observations, d: Draft): set<Bytes> {
    set n, x | n in d.sources && x in Puts(cfg.lib, BatchOf(o, d, n)) :: x
  }

  function FinalTombstones(cfg: Config, o: Observations, d: Draft): map<string, Tombstone> {
    if AnyUploadHeld(cfg, o, d) then
      GenerateTombstones(cfg.lib.instant, UploadedSources(cfg, o, d), d.prior, o.clocks.2, cfg.device)
    else d.tombstones
  }

  function FinalManifest(cfg: Config, o: Observations, d: Draft): Manifest {
    Manifest(cfg.device, cfg.deviceName, o.timestamp, UploadedSources(cfg, o, d), FinalTombstones(cfg, o, d))
  }

  // ---- the whole decision ------------------------------------------------------------------------

  datatype Verdict = Refuses | Idles | Publishes(draft: Draft)

  /** What the push decides when nothing interrupts it. */
  function Decide(cfg: Config, s: Store, o: Observations): Verdict {
    if cfg.available.Keys == {} && !cfg.skippedInternal then
      if cfg.selected != {} && RefusesEarly(cfg, s, o) then Refuses else Idles
    else
      match Prepare(cfg, s, o)
      case None => Refuses
      case Some(d) =>
        if !Substantive(cfg, s, o, d) then Idles
        else
          match Rescanned(cfg, o, d)
          case None => Refuses
          case Some(e) => if AnyUploadRefuses(cfg, o, e) || o.newerAtEnd then Refuses else Publishes(e)
  }

  // ---- stored blobs -------------------------------------------------------------------------------

  /** Every entry's blob is stored and its bytes have the entry's digest. */
  ghost predicate Backed(lib: Library, sources: map<string, Source>, blobs: map<string, Bytes>) {
    forall n, p | n in sources && p in sources[n].files ::
      sources[n].files[p].sha in blobs && lib.digest(blobs[sources[n].files[p].sha]) == sources[n].files[p].sha
  }

  /** `after` is `before` with some of `data` put, each under its own digest. */
  ghost predicate Grown(lib: Library, before: map<string, Bytes>, after: map<string, Bytes>, data: set<Bytes>) {
    && before.Keys <= after.Keys
    && forall k | k in after ::
         (k in before && after[k] == before[k]) || (after[k] in data && lib.digest(after[k]) == k)
  }

  /** Some bytes with this digest are stored under it. */
  ghost predicate HasBlob(lib: Library, blobs: map<string, Bytes>, x: Bytes) {
    lib.digest(x) in blobs && lib.digest(blobs[lib.digest(x)]) == lib.digest(x)
  }

  ghost predicate HasAll(lib: Library, blobs: map<string, Bytes>, data: set<Bytes>) {
    forall x | x in data :: HasBlob(lib, blobs, x)
  }
}
