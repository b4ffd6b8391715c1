/** Accepted pushes built to order. A look says what every walk, probe and read of a push
    finds; whatever the prior came from, a push that finds nothing unaccounted for is
    accepted and publishes what was seen. The exactness theorems use it for the pushes
    that break a property. */
module PushLooks {
  import opened Manifests
  import opened RemoteFetch
  import opened PushStages
  import opened PushSafety
  import opened PushTombstones

  /** Both walks see `seen` and the checkouts `roots`, and hold nothing; the rescan also finds
      `lateRoots`. Every clock says `clock`, and a catch-up is pending. */
  datatype Look = Look(
    seen: map<string, map<string, Entry>>,
    roots: map<string, set<string>>,
    lateRoots: set<string>,
    probe: PathProbe,
    linked: PathTest,
    first: PathReading,
    second: PathReading,
    clock: Clock)

  function SeenIn(l: Look, n: string): map<string, Entry> {
    if n in l.seen then l.seen[n] else map[]
  }

  function LookScan(names: set<string>, l: Look, more: set<string>): Scan {
    Scanned(map n | n in names :: SourceScan("", SeenIn(l, n), {}, {}, Paths(l.roots, n) + more))
  }

  /** The push that recovers its prior as `b` does and then looks. */
  function Looking(cfg: Config, b: Observations, l: Look): Observations {
    Observations(
      b.fetch, b.sidecarReadable, b.peers, LookScan(cfg.available.Keys, l, {}), false, l.linked, l.linked,
      (n, p) => Gone, l.probe, n => true, true, LookScan(cfg.available.Keys * INTERNAL, l, l.lateRoots),
      (n, p) => Gone, l.probe, n => true, l.first, l.second, n => true, false, false, (l.clock, l.clock, l.clock), "")
  }

  /** The fetch and recovery of `b` give the prior `m`, and no early refusal. */
  ghost predicate Starts(cfg: Config, s: Store, b: Observations, m: Manifest) {
    && (b.fetch.status == Ok <==> b.fetch.manifest.Some?)
    && (b.fetch.manifest.Some? ==> Loaded(cfg, b.fetch.manifest.value))
    && PriorOf(cfg, s, b) == Prior(m) && b.fetch.newerVersion.None? && !LostSource(cfg, Prior(m))
  }

  /** Two pushes that fetch and recover from the same. */
  predicate SameStart(o: Observations, b: Observations) {
    o.fetch == b.fetch && o.sidecarReadable == b.sidecarReadable && o.peers == b.peers
  }

  /** What is seen, and every checkout, is something a walk may report. */
  ghost predicate Possible(cfg: Config, l: Look) {
    && (forall x, y :: x in cfg.available && y in SeenIn(l, x) ==> MaySee(cfg, x, y))
    && (forall x, r :: x in cfg.available && r in Paths(l.roots, x) ==> MayMeet(cfg, x, r))
    && forall x, r :: x in cfg.available && x in INTERNAL && r in l.lateRoots ==> MayMeet(cfg, x, r)
  }

  /** Every provable path the look neither sees nor covers is absent or behind a link, and no
      read of what it sees is fatal. */
  ghost predicate Accounted(cfg: Config, b: Observations, m: Manifest, l: Look) {
    && (forall x, y ::
          Deletable(cfg, m, x, y) && y !in SeenIn(l, x) && !Unproven(cfg, y)
          && !UnderPrefix(y, Paths(l.roots, x)) && !l.linked(x, y) ==>
            Absent(l.probe(x, y)))
    && forall x, y :: x in cfg.available && y in SeenIn(l, x) ==>
         !UploadOne(cfg.lib, !Recovering(b), SeenIn(l, x)[y], l.first(x, y), l.second(x, y)).Fatal?
  }

  lemma LookWalks(cfg: Config, b: Observations, l: Look, n: string)
    requires Possible(cfg, l) && n in cfg.available
    ensures Walks(cfg, Looking(cfg, b, l).scan, n) && Walks(cfg, Looking(cfg, b, l).rescan, n)
  {
    hide MaySee, MayMeet, SeenIn;
  }

  lemma LookStarts(cfg: Config, s: Store, b: Observations, m: Manifest, l: Look)
    requires Starts(cfg, s, b, m) && Possible(cfg, l)
    ensures
      var o := Looking(cfg, b, l);
      && WellFormed(cfg, o) && SameStart(o, b) && PriorOf(cfg, s, o) == Prior(m) && o.fetch.newerVersion.None?
      && Recovering(o) == Recovering(b) && o.scan.Scanned? && ScanAccepted(o.scan, Recovering(o)) && !o.linkProbeFails
      && ScanAccepted(o.rescan, Recovering(o)) && LastProbe(cfg, o) == l.probe
      && o.clocks == (l.clock, l.clock, l.clock)
  {
    hide Walks, Possible, Loaded;
    forall n | n in cfg.available
      ensures Walks(cfg, Looking(cfg, b, l).scan, n) && Walks(cfg, Looking(cfg, b, l).rescan, n)
    {
      LookWalks(cfg, b, l, n);
    }
  }

  /** What the first walk's checkouts freeze. */
  function FrozenIn(cfg: Config, s: Store, b: Observations, m: Manifest, l: Look, x: string): set<string> {
    Paths(FrozenBy(cfg, s, Looking(cfg, b, l), m), x)
  }

  /** What a source of the draft holds: what was seen and what was frozen. */
  function Drafted(cfg: Config, s: Store, b: Observations, m: Manifest, l: Look, x: string): map<string, Entry> {
    Restore(SeenIn(l, x), Files(ScopedPrior(cfg, m).sources, x), FrozenIn(cfg, s, b, m, l, x))
  }

  /** Without holds a path is frozen below a root, and set aside below one or behind a link. */
  lemma LookFacts(cfg: Config, s: Store, b: Observations, m: Manifest, l: Look, x: string, y: string)
    requires x in cfg.available
    ensures
      var o := Looking(cfg, b, l);
      var scoped := ScopedPrior(cfg, m);
      var covered := UnderPrefix(y, Paths(l.roots, x));
      && HeldBefore(cfg, o.scan, x) == {} && HeldBefore(cfg, o.rescan, x) == {}
      && (y in FrozenIn(cfg, s, b, m, l, x) <==>
            && y in Files(scoped.sources, x) && y !in SeenIn(l, x) && covered
            && !IsTombstoned(x, y, scoped.tombstones) && Keeps(StoredFilter(s, b), Files(scoped.sources, x)[y]))
      && (OutOfReach(cfg, s, o, m, x, y) <==>
            if covered then y !in FrozenIn(cfg, s, b, m, l, x) else cfg.paths.valid(y) && l.linked(x, y))
  {
    hide InScope, ScopedPrior, Keeps, UnderPrefix, IsTombstoned, FrozenMap, SeenIn;
    var o := Looking(cfg, b, l);
    assert o.scan.sources[x].roots == Paths(l.roots, x) by {
      assert Paths(l.roots, x) + {} == Paths(l.roots, x);
    }
    assert Paths(ScanRoots(o.scan), x) == Paths(l.roots, x);
    assert StoredFilter(s, o) == StoredFilter(s, b);
    FrozenExactly(cfg, s, o, m, x, y);
  }

  /** A source without checkouts of the first walk has nothing frozen. */
  lemma NoRootsNothingFrozen(cfg: Config, s: Store, b: Observations, m: Manifest, l: Look, x: string)
    requires x in cfg.available && Paths(l.roots, x) == {}
    ensures FrozenIn(cfg, s, b, m, l, x) == {} && Drafted(cfg, s, b, m, l, x) == SeenIn(l, x)
  {
    hide FrozenIn, SeenIn, ScopedPrior, StoredFilter, IsTombstoned, Keeps, OutOfReach, HeldBefore, Looking;
    forall y
      ensures y !in FrozenIn(cfg, s, b, m, l, x)
    {
      LookFacts(cfg, s, b, m, l, x, y);
    }
  }

  /** Freezing and injecting: each source holds what its walk saw and what is frozen. */
  lemma LookInjected(cfg: Config, s: Store, b: Observations, m: Manifest, l: Look, x: string)
    requires x in cfg.available
    ensures
      var o := Looking(cfg, b, l);
      var local := FreezeSources(ScannedSources(o.scan), ScopedPrior(cfg, m), ScanRoots(o.scan), StoredFilter(s, o));
      var prior := Some(ComparedPrior(cfg, s, o, m));
      && local.Keys == cfg.available.Keys
      && Paths(SurvivingMap(cfg, local, prior, o.scan, FrozenBy(cfg, s, o, m)), x) == {}
      && Files(InjectSources(cfg, local, prior, o.scan, FrozenBy(cfg, s, o, m)), x) == Drafted(cfg, s, b, m, l, x)
  {
    hide ScopedPrior, ComparedPrior, OutOfReach, FrozenMap, HeldBefore, SeenIn, InjectSources, SurvivingMap,
      StoredFilter, FreezeSources, IsTombstoned, Keeps, UnderPrefix;
    var o := Looking(cfg, b, l);
    var scanned := ScannedSources(o.scan);
    var frozen := FrozenBy(cfg, s, o, m);
    var local := FreezeSources(scanned, ScopedPrior(cfg, m), ScanRoots(o.scan), StoredFilter(s, o));
    FreezeKeys(scanned, ScopedPrior(cfg, m), ScanRoots(o.scan), StoredFilter(s, o));
    var prior := Some(ComparedPrior(cfg, s, o, m));
    var r := Files(InjectSources(cfg, local, prior, o.scan, frozen), x);
    var want := Drafted(cfg, s, b, m, l, x);
    assert scanned[x].files == SeenIn(l, x);
    forall y
      ensures y in r <==> y in want
      ensures y in want ==> r[y] == want[y]
      ensures y !in Paths(SurvivingMap(cfg, local, prior, o.scan, frozen), x)
    {
      LookFacts(cfg, s, b, m, l, x, y);
      FreezeFiles(scanned, ScopedPrior(cfg, m), ScanRoots(o.scan), StoredFilter(s, o), x, y);
      InjectFiles(cfg, local, prior, o.scan, frozen, x, y);
    }
  }

  lemma LookCandidates(cfg: Config, local: map<string, Source>, prior: Option<Manifest>, b: Observations, l: Look)
    ensures
      var o := Looking(cfg, b, l);
      && CandidatesProven(cfg, local, prior, o.scan, o.candidate)
      && CandidatesProven(cfg, local, prior, o.rescan, o.candidateAgain)
  {
    hide WalkExcluded, CandidateProven, SeenIn;
  }

  /** An accounted look proves every omission, at either proof. */
  lemma LookProven(cfg: Config, s: Store, b: Observations, m: Manifest, l: Look, local: map<string, Source>)
    requires Accounted(cfg, b, m, l)
    requires forall x | x in cfg.available :: Files(local, x) == Drafted(cfg, s, b, m, l, x)
    ensures
      var o := Looking(cfg, b, l);
      var prior := ComparedPrior(cfg, s, o, m);
      && AbsenceProven(cfg, local, prior, o.omitted, o.root)
      && AbsenceProven(cfg, local, prior, o.omittedAgain, o.rootAgain)
  {
    hide ComparedPrior, ConsumerExcluded, OutOfReach, Files, SeenIn, ProofExcluded, UploadOne, FrozenIn, IsTombstoned,
      Keeps, StoredFilter, UnderPrefix, ScopedPrior;
    var o := Looking(cfg, b, l);
    var prior := ComparedPrior(cfg, s, o, m);
    forall x, y | MustProbe(cfg, local, prior, x, y)
      ensures Absent(l.probe(x, y))
    {
      LookFacts(cfg, s, b, m, l, x, y);
      ComparedPublishes(cfg, s, o, m, x, y);
      ScopedProofExclusion(cfg, x, y);
      assert Deletable(cfg, m, x, y);
    }
  }

  /** The draft publishes just what was seen and frozen, with nothing held. */
  ghost predicate ShowsSeen(cfg: Config, s: Store, b: Observations, m: Manifest, l: Look, d: Draft) {
    && d.sources.Keys == cfg.available.Keys
    && d.prior == Some(ComparedPrior(cfg, s, Looking(cfg, b, l), m))
    && forall x | x in cfg.available ::
         && d.sources[x].files == Drafted(cfg, s, b, m, l, x)
         && Paths(d.frozen, x) == FrozenIn(cfg, s, b, m, l, x) && Paths(d.held, x) == {}
  }

  lemma LookDraft(cfg: Config, s: Store, b: Observations, m: Manifest, l: Look) returns (d: Draft)
    requires Starts(cfg, s, b, m) && Possible(cfg, l) && Accounted(cfg, b, m, l)
    ensures Prepare(cfg, s, Looking(cfg, b, l)) == Some(d) && ShowsSeen(cfg, s, b, m, l, d)
  {
    hide ScopedPrior, GenerateTombstones, ComparedPrior, FrozenMap, OutOfReach, FreezeSources, InjectSources,
      SurvivingMap, AbsenceProven, CandidatesProven, Looking, PriorOf, LostSource, SeenIn, StoredFilter,
      ScanRoots, ScannedSources, FrozenBy, UnderPrefix, Prepare, WellFormed, ScanAccepted, Accounted, Possible, Drafted;
    var o := Looking(cfg, b, l);
    LookStarts(cfg, s, b, m, l);
    var local := FreezeSources(ScannedSources(o.scan), ScopedPrior(cfg, m), ScanRoots(o.scan), StoredFilter(s, o));
    var prior := ComparedPrior(cfg, s, o, m);
    var injected := InjectSources(cfg, local, Some(prior), o.scan, FrozenBy(cfg, s, o, m));
    InjectedKeys(cfg, local, Some(prior), o.scan, FrozenBy(cfg, s, o, m));
    LookKeys(cfg, s, b, m, l);
    forall x | x in cfg.available
      ensures Paths(SurvivingMap(cfg, local, Some(prior), o.scan, FrozenBy(cfg, s, o, m)), x) == {}
      ensures Files(injected, x) == Drafted(cfg, s, b, m, l, x)
    {
      LookInjected(cfg, s, b, m, l, x);
    }
    LookCandidates(cfg, local, Some(prior), b, l);
    LookProven(cfg, s, b, m, l, injected);
    DraftAccepted(cfg, s, o, m);
    d := Prepare(cfg, s, o).value;
  }

  lemma LookKeys(cfg: Config, s: Store, b: Observations, m: Manifest, l: Look)
    ensures
      var o := Looking(cfg, b, l);
      o.scan.Scanned?
      && FreezeSources(ScannedSources(o.scan), ScopedPrior(cfg, m), ScanRoots(o.scan), StoredFilter(s, o)).Keys
         == cfg.available.Keys
  {
    hide ScopedPrior, StoredFilter, FrozenSource, SeenIn;
  }

  /** One source after the rescan stage: late roots freeze nothing that was not held. */
  lemma LookAfter(cfg: Config, s: Store, b: Observations, m: Manifest, l: Look, d: Draft, x: string)
    requires ShowsSeen(cfg, s, b, m, l, d) && x in cfg.available
    ensures
      var o := Looking(cfg, b, l);
      var events := RescannedSources(o, d);
      var frozen := FrozenAfter(o, d);
      var local := d.sources + InjectSources(cfg, events, d.prior, o.rescan, frozen);
      && local.Keys == cfg.available.Keys
      && local[x].files == Drafted(cfg, s, b, m, l, x)
      && Paths(frozen, x) == FrozenIn(cfg, s, b, m, l, x) && Paths(HeldAfter(cfg, o, d), x) == {}
  {
    hide ComparedPrior, SeenIn, InjectSources, RescannedFiles, RescannedFrozen, RescannedSources, HeldBefore, Drafted,
      FrozenIn, ShowsSeen, Looking, FrozenAfter, HeldAfter;
    var o := Looking(cfg, b, l);
    ShownSource(cfg, s, b, m, l, d, x);
    ShownKeys(cfg, s, b, m, l, d);
    RescanNames(cfg, b, l);
    if x in INTERNAL {
      RescanSees(cfg, b, l, x);
      LookCarried(cfg, s, b, m, l, d, x);
      AfterInside(cfg, o, d, x);
    } else {
      AfterOutside(cfg, o, d, x);
    }
    InjectedKeys(cfg, RescannedSources(o, d), d.prior, o.rescan, FrozenAfter(o, d));
    RescannedKeys(o, d);
  }

  lemma RescanNames(cfg: Config, b: Observations, l: Look)
    ensures
      var o := Looking(cfg, b, l);
      o.rescan.Scanned? && o.rescan.sources.Keys == cfg.available.Keys * INTERNAL
  {
  }

  lemma RescannedKeys(o: Observations, d: Draft)
    requires o.rescan.Scanned?
    ensures RescannedSources(o, d).Keys == o.rescan.sources.Keys
  {
    hide RescannedFiles;
  }

  lemma AfterInside(cfg: Config, o: Observations, d: Draft, x: string)
    requires o.rescan.Scanned? && x in o.rescan.sources && HeldBefore(cfg, o.rescan, x) == {}
    ensures
      var events := RescannedSources(o, d);
      var local := d.sources + InjectSources(cfg, events, d.prior, o.rescan, FrozenAfter(o, d));
      && x in local && local[x].files == RescannedFiles(o, d, x)
      && Paths(FrozenAfter(o, d), x) == RescannedFrozen(o, d, x) && Paths(HeldAfter(cfg, o, d), x) == {}
  {
    hide RescannedFiles, RescannedFrozen, HeldBefore, InjectSources, SurvivingMap;
    var events := RescannedSources(o, d);
    NothingHeldInjects(cfg, events, d.prior, o.rescan, FrozenAfter(o, d), x);
    InjectedKeys(cfg, events, d.prior, o.rescan, FrozenAfter(o, d));
  }

  lemma AfterOutside(cfg: Config, o: Observations, d: Draft, x: string)
    requires o.rescan.Scanned? && x !in o.rescan.sources && x in d.sources
    ensures
      var events := RescannedSources(o, d);
      var local := d.sources + InjectSources(cfg, events, d.prior, o.rescan, FrozenAfter(o, d));
      && local[x] == d.sources[x]
      && Paths(FrozenAfter(o, d), x) == Paths(d.frozen, x) && Paths(HeldAfter(cfg, o, d), x) == Paths(d.held, x)
  {
    hide RescannedFiles, RescannedFrozen, HeldBefore, InjectSources, SurvivingMap;
    var events := RescannedSources(o, d);
    InjectedKeys(cfg, events, d.prior, o.rescan, FrozenAfter(o, d));
  }

  lemma NothingHeldInjects(
    cfg: Config, local: map<string, Source>, prior: Option<Manifest>, scan: Scan, frozen: PathsBySource, x: string)
    requires x in local && HeldBefore(cfg, scan, x) == {}
    ensures Files(InjectSources(cfg, local, prior, scan, frozen), x) == local[x].files
    ensures Paths(SurvivingMap(cfg, local, prior, scan, frozen), x) == {}
  {
    hide HeldBefore, InjectSources, SurvivingMap, IsTombstoned;
    forall y
      ensures y in Files(InjectSources(cfg, local, prior, scan, frozen), x) <==> y in local[x].files
      ensures y in local[x].files ==> Files(InjectSources(cfg, local, prior, scan, frozen), x)[y] == local[x].files[y]
      ensures y !in Paths(SurvivingMap(cfg, local, prior, scan, frozen), x)
    {
      InjectFiles(cfg, local, prior, scan, frozen, x, y);
    }
  }

  lemma LookCarried(cfg: Config, s: Store, b: Observations, m: Manifest, l: Look, d: Draft, x: string)
    requires ShowsSeen(cfg, s, b, m, l, d) && x in cfg.available && x in INTERNAL
    ensures
      var o := Looking(cfg, b, l);
      RescannedFiles(o, d, x) == Drafted(cfg, s, b, m, l, x) && RescannedFrozen(o, d, x) == FrozenIn(cfg, s, b, m, l, x)
  {
    hide Looking, ShowsSeen, SeenIn, FrozenIn, Drafted, RescannedFiles, RescannedFrozen;
    var o := Looking(cfg, b, l);
    ShownSource(cfg, s, b, m, l, d, x);
    FrozenIsUnseen(cfg, s, b, m, l, x);
    RescanSees(cfg, b, l, x);
    FrozenInDrafted(cfg, s, b, m, l, x);
    FrozenIsCarried(o, d, x);
  }

  lemma RescanSees(cfg: Config, b: Observations, l: Look, x: string)
    requires x in cfg.available && x in INTERNAL
    ensures
      var o := Looking(cfg, b, l);
      && o.rescan.Scanned? && x in o.rescan.sources && o.rescan.sources[x].files == SeenIn(l, x)
      && HeldBefore(cfg, o.rescan, x) == {}
  {
    hide SeenIn, WalkExcluded;
  }

  lemma FrozenInDrafted(cfg: Config, s: Store, b: Observations, m: Manifest, l: Look, x: string)
    requires x in cfg.available
    ensures Drafted(cfg, s, b, m, l, x).Keys == SeenIn(l, x).Keys + FrozenIn(cfg, s, b, m, l, x)
    ensures forall y | y in SeenIn(l, x) :: Drafted(cfg, s, b, m, l, x)[y] == SeenIn(l, x)[y]
  {
    hide SeenIn, FrozenIn, ScopedPrior;
    FrozenIsUnseen(cfg, s, b, m, l, x);
  }

  /** With nothing held, a rescan that reads all but the frozen files again changes nothing. */
  lemma FrozenIsCarried(o: Observations, d: Draft, x: string)
    requires o.rescan.Scanned? && x in o.rescan.sources && Paths(d.held, x) == {}
    requires
      var seen := o.rescan.sources[x].files;
      && Files(d.sources, x).Keys == seen.Keys + Paths(d.frozen, x) && seen.Keys !! Paths(d.frozen, x)
      && forall y | y in seen :: Files(d.sources, x)[y] == seen[y]
    ensures RescannedFiles(o, d, x) == Files(d.sources, x) && RescannedFrozen(o, d, x) == Paths(d.frozen, x)
  {
    hide BothRoots, UnderPrefix;
  }

  lemma FrozenIsUnseen(cfg: Config, s: Store, b: Observations, m: Manifest, l: Look, x: string)
    requires x in cfg.available
    ensures FrozenIn(cfg, s, b, m, l, x) !! SeenIn(l, x).Keys
    ensures FrozenIn(cfg, s, b, m, l, x) <= Files(ScopedPrior(cfg, m).sources, x).Keys
  {
    hide FrozenIn, SeenIn, ScopedPrior, OutOfReach, HeldBefore, Looking, UnderPrefix, IsTombstoned, Keeps, StoredFilter;
    forall y | y in FrozenIn(cfg, s, b, m, l, x)
      ensures y !in SeenIn(l, x) && y in Files(ScopedPrior(cfg, m).sources, x)
    {
      LookFacts(cfg, s, b, m, l, x, y);
    }
  }

  /** The rescan sees the same and passes. */
  lemma LookRescan(cfg: Config, s: Store, b: Observations, m: Manifest, l: Look, d: Draft) returns (e: Draft)
    requires Starts(cfg, s, b, m) && Possible(cfg, l) && Accounted(cfg, b, m, l) && ShowsSeen(cfg, s, b, m, l, d)
    ensures Rescanned(cfg, Looking(cfg, b, l), d) == Some(e) && ShowsSeen(cfg, s, b, m, l, e)
  {
    hide ComparedPrior, SeenIn, AbsenceProven, CandidatesProven, GenerateTombstones, InjectSources, RescannedSources,
      FrozenAfter, HeldAfter, Paths, Accounted, PriorOf, LostSource, ScanAccepted, Looking, Drafted, FrozenIn, Possible,
      WellFormed;
    var o := Looking(cfg, b, l);
    if cfg.available.Keys * INTERNAL == {} {
      e := d;
      return;
    }
    LookStarts(cfg, s, b, m, l);
    AcceptedIsScanned(o.rescan, Recovering(o));
    var events := RescannedSources(o, d);
    var local := d.sources + InjectSources(cfg, events, d.prior, o.rescan, FrozenAfter(o, d));
    forall x | x in cfg.available
      ensures local.Keys == cfg.available.Keys && local[x].files == Drafted(cfg, s, b, m, l, x)
      ensures Paths(FrozenAfter(o, d), x) == FrozenIn(cfg, s, b, m, l, x) && Paths(HeldAfter(cfg, o, d), x) == {}
    {
      LookAfter(cfg, s, b, m, l, d, x);
    }
    LookCandidates(cfg, events, d.prior, b, l);
    LookProven(cfg, s, b, m, l, local);
    e := Rescanned(cfg, o, d).value;
  }

  lemma AcceptedIsScanned(scan: Scan, recovering: bool)
    requires ScanAccepted(scan, recovering)
    ensures scan.Scanned?
  {
  }

  /** Only what was seen is read. */
  lemma BatchIsSeen(cfg: Config, s: Store, b: Observations, m: Manifest, l: Look, e: Draft, x: string, y: string)
    requires ShowsSeen(cfg, s, b, m, l, e) && x in cfg.available
    ensures
      var files := BatchOf(Looking(cfg, b, l), e, x).files;
      y in files ==> y in SeenIn(l, x) && files[y] == SeenIn(l, x)[y]
  {
    hide ComparedPrior, SeenIn, FrozenIn, ScopedPrior, LookScan;
    FrozenIsUnseen(cfg, s, b, m, l, x);
  }

  lemma LookUploads(cfg: Config, s: Store, b: Observations, m: Manifest, l: Look, e: Draft, x: string)
    requires Starts(cfg, s, b, m) && Possible(cfg, l) && Accounted(cfg, b, m, l)
    requires ShowsSeen(cfg, s, b, m, l, e) && x in cfg.available
    ensures !UploadRefuses(cfg, Looking(cfg, b, l), e, x)
  {
    hide ComparedPrior, SeenIn, UploadOne, Deletable, Unproven, PriorOf, LostSource, ToUpload, ShowsSeen, LookScan,
      Possible;
    var o := Looking(cfg, b, l);
    var batch := BatchOf(o, e, x);
    assert Recovering(o) == Recovering(b);
    forall y | y in batch.files
      ensures !At(cfg.lib, batch, y).Fatal?
    {
      BatchIsSeen(cfg, s, b, m, l, e, x, y);
    }
  }

  /** The push over a possible, accounted look is accepted. */
  lemma LookPublishes(cfg: Config, s: Store, b: Observations, m: Manifest, l: Look) returns (e: Draft)
    requires cfg.available.Keys != {} || cfg.skippedInternal
    requires Starts(cfg, s, b, m) && Possible(cfg, l) && Accounted(cfg, b, m, l)
    ensures
      var o := Looking(cfg, b, l);
      && WellFormed(cfg, o) && SameStart(o, b) && Decide(cfg, s, o) == Publishes(e) && ShowsSeen(cfg, s, b, m, l, e)
      && PriorOf(cfg, s, o) == Prior(m) && LastProbe(cfg, o) == l.probe && o.scan.Scanned?
  {
    hide Prepare, Rescanned, PriorOf, AnySourceChanged, MtimeDrift, UploadRefuses, ShowsSeen, Accounted, LostSource,
      LookScan, WellFormed, Possible;
    var o := Looking(cfg, b, l);
    LookStarts(cfg, s, b, m, l);
    var d := LookDraft(cfg, s, b, m, l);
    e := LookRescan(cfg, s, b, m, l, d);
    forall x | x in e.sources
      ensures !UploadRefuses(cfg, o, e, x)
    {
      ShownKeys(cfg, s, b, m, l, e);
      LookUploads(cfg, s, b, m, l, e, x);
    }
  }

  lemma ShownSource(cfg: Config, s: Store, b: Observations, m: Manifest, l: Look, e: Draft, x: string)
    requires ShowsSeen(cfg, s, b, m, l, e) && x in cfg.available
    ensures Files(e.sources, x) == Drafted(cfg, s, b, m, l, x)
    ensures Paths(e.frozen, x) == FrozenIn(cfg, s, b, m, l, x) && Paths(e.held, x) == {}
  {
    hide ComparedPrior, Drafted, FrozenIn;
  }

  lemma ShownKeys(cfg: Config, s: Store, b: Observations, m: Manifest, l: Look, e: Draft)
    requires ShowsSeen(cfg, s, b, m, l, e)
    ensures e.sources.Keys == cfg.available.Keys
  {
  }

  /** Of one path: neither seen nor frozen, it is not published; seen and settled, or frozen,
      it is. */
  lemma LookFile(cfg: Config, s: Store, b: Observations, m: Manifest, l: Look, e: Draft, x: string, y: string)
    requires ShowsSeen(cfg, s, b, m, l, e) && x in cfg.available
    ensures
      var final := FinalManifest(cfg, Looking(cfg, b, l), e).sources;
      && (y !in SeenIn(l, x) && y !in FrozenIn(cfg, s, b, m, l, x) ==> y !in Files(final, x))
      && (y in FrozenIn(cfg, s, b, m, l, x) ==> y in Files(final, x))
      && (y in SeenIn(l, x)
          && UploadOne(cfg.lib, !Recovering(b), SeenIn(l, x)[y], l.first(x, y), l.second(x, y)).AsScanned? ==>
            y in Files(final, x))
  {
    hide ComparedPrior, SeenIn, UploadOne, FinalTombstones, ShowsSeen, FrozenIn, ToUpload, LookScan, ScopedPrior;
    var o := Looking(cfg, b, l);
    FrozenIsUnseen(cfg, s, b, m, l, x);
    ShownKeys(cfg, s, b, m, l, e);
    ShownSource(cfg, s, b, m, l, e, x);
    BatchIsSeen(cfg, s, b, m, l, e, x, y);
    assert Recovering(o) == Recovering(b);
  }

  lemma UnseenIsUnpublished(cfg: Config, s: Store, b: Observations, m: Manifest, l: Look, e: Draft, x: string)
    requires ShowsSeen(cfg, s, b, m, l, e) && x in cfg.available && SeenIn(l, x) == map[] && Paths(l.roots, x) == {}
    ensures Files(FinalManifest(cfg, Looking(cfg, b, l), e).sources, x) == map[]
  {
    hide ShowsSeen, FinalManifest, Looking, UploadOne, FrozenIn, Drafted;
    NoRootsNothingFrozen(cfg, s, b, m, l, x);
    forall y
      ensures y !in Files(FinalManifest(cfg, Looking(cfg, b, l), e).sources, x)
    {
      LookFile(cfg, s, b, m, l, e, x, y);
    }
  }

  /** A settled reading of empty bytes, and the entry the walk has for it. */
  function BlankEntry(lib: Library): Entry {
    Entry(lib.digest([]), 0, Some(""))
  }

  function Blank(): Reading {
    Revision([], "")
  }

  lemma BlankSettles(lib: Library, allowHold: bool, second: Reading)
    ensures UploadOne(lib, allowHold, BlankEntry(lib), Blank(), second).AsScanned?
  {
  }

  // ---- tombstones of a look -----------------------------------------------------

  /** A compared path whose key is not live is tombstoned afresh once its old tombstone, if
      any, has expired on the push's clock. */
  lemma DroppedIsMinted(
    cfg: Config, s: Store, o: Observations, e: Draft, m: Manifest, n: string, p: string, clock: Clock)
    requires WellFormed(cfg, o) && Decide(cfg, s, o) == Publishes(e) && PriorOf(cfg, s, o) == Prior(m)
    requires n in cfg.available && o.clocks == (clock, clock, clock)
    requires p in Files(m.sources, n) && InScope(cfg, n, p) && !OutOfReach(cfg, s, o, m, n, p)
    requires Key(n, p) !in LiveKeys(FinalManifest(cfg, o, e).sources)
    requires Key(n, p) in m.tombstones ==>
      && !Active(cfg.lib.instant, m.tombstones[Key(n, p)], clock.now)
      && m.tombstones[Key(n, p)] != Tombstone(clock.iso, cfg.device)
    ensures Minted(m, FinalManifest(cfg, o, e), Key(n, p))
  {
    hide ComparedPrior, GenerateTombstones, Decide, OutOfReach, InScope, LiveKeys, DroppedKeys, PriorOf, Active,
      WellFormed, FinalManifest, LastClock;
    var k := Key(n, p);
    var final := FinalManifest(cfg, o, e);
    PublishedSources(cfg, s, o, e);
    var c := FinalComparison(cfg, s, o, e);
    OneClock(cfg, o, e, clock);
    FinalIsUploaded(cfg, o, e);
    ComparedPublishes(cfg, s, o, m, n, p);
    LiveOfPublished(final.sources, n, p);
    IsDropped(final.sources, e.prior.value.sources, n, p);
    ComparedTombstones(cfg, s, o, m, k);
    GeneratedKeys(cfg.lib.instant, final.sources, e.prior, c, cfg.device, k);
  }

  lemma OneClock(cfg: Config, o: Observations, e: Draft, clock: Clock)
    requires o.clocks == (clock, clock, clock)
    ensures LastClock(cfg, o, e) == clock
  {
    hide AnyUploadHeld;
  }

  lemma FinalIsUploaded(cfg: Config, o: Observations, e: Draft)
    ensures FinalManifest(cfg, o, e).sources == UploadedSources(cfg, o, e)
  {
  }

  /** A clock at which a tombstone has expired and whose stamp it does not carry. */
  function LateClock(cfg: Config, m: Manifest, k: string): Clock {
    if k !in m.tombstones then Clock(0, "")
    else
      var t := m.tombstones[k];
      var at := cfg.lib.instant(t.deletedAt);
      Clock(if at.Some? then at.value + TOMBSTONE_TTL_SECONDS else 0, t.deletedAt + "x")
  }

  lemma LateClockExpires(cfg: Config, m: Manifest, k: string)
    requires k in m.tombstones
    ensures !Active(cfg.lib.instant, m.tombstones[k], LateClock(cfg, m, k).now)
    ensures m.tombstones[k] != Tombstone(LateClock(cfg, m, k).iso, cfg.device)
  {
    var t := m.tombstones[k];
    assert |t.deletedAt + "x"| != |t.deletedAt|;
  }

  /** A look that leaves every source empty mints a key for each path it does not set aside. */
  lemma EmptiedIsMinted(cfg: Config, s: Store, b: Observations, m: Manifest, l: Look, e: Draft, n: string, p: string)
    requires Starts(cfg, s, b, m) && Possible(cfg, l) && Decide(cfg, s, Looking(cfg, b, l)) == Publishes(e)
    requires Deletable(cfg, m, n, p) && !(cfg.paths.valid(p) && l.linked(n, p)) && Paths(l.roots, n) == {}
    requires l.clock == LateClock(cfg, m, Key(n, p))
    requires forall x | x in FinalManifest(cfg, Looking(cfg, b, l), e).sources ::
               FinalManifest(cfg, Looking(cfg, b, l), e).sources[x].files == map[]
    ensures Minted(m, FinalManifest(cfg, Looking(cfg, b, l), e), Key(n, p))
  {
    hide FinalManifest, Decide, PriorOf, LostSource, OutOfReach, LateClock, Active, Minted, LookScan, ConsumerExcluded,
      WellFormed, FrozenIn, Possible, StoredFilter, IsTombstoned, Keeps;
    var o := Looking(cfg, b, l);
    LookStarts(cfg, s, b, m, l);
    LookFacts(cfg, s, b, m, l, n, p);
    if Key(n, p) in m.tombstones {
      LateClockExpires(cfg, m, Key(n, p));
    }
    DroppedIsMinted(cfg, s, o, e, m, n, p, l.clock);
  }

  // ---- exactly which keys can be minted -------------------------------------------

  /** Some accepted push that starts as `b` does mints this key. */
  ghost predicate Mintable(cfg: Config, s: Store, b: Observations, m: Manifest, k: string) {
    exists o: Observations, e: Draft ::
      WellFormed(cfg, o) && SameStart(o, b) && Decide(cfg, s, o) == Publishes(e)
      && Minted(m, FinalManifest(cfg, o, e), k)
  }

  /** Nothing is seen, and the rescan finds these checkouts: a probe finds a directory there
      and nothing elsewhere. */
  function EmptyDisk(cfg: Config, m: Manifest, k: string, lateRoots: set<string>): Look {
    Look(map[], map[], lateRoots, (x, y) => if y in lateRoots then OtherKind else Gone, (x, y) => false,
         (x, y) => Refusal, (x, y) => Refusal, LateClock(cfg, m, k))
  }

  lemma SameStartSamePrior(cfg: Config, s: Store, o: Observations, b: Observations)
    requires SameStart(o, b)
    ensures PriorOf(cfg, s, o) == PriorOf(cfg, s, b) && Recovering(o) == Recovering(b)
    ensures RemoteTombstones(o) == RemoteTombstones(b) && RemoteSources(o) == RemoteSources(b)
    ensures StoredFilter(s, o) == StoredFilter(s, b)
  {
  }

  lemma EmptyIsAccounted(cfg: Config, b: Observations, m: Manifest, k: string, lateRoots: set<string>)
    requires forall x, r | x in cfg.available && x in INTERNAL && r in lateRoots :: MayMeet(cfg, x, r)
    ensures Possible(cfg, EmptyDisk(cfg, m, k, lateRoots)) && Accounted(cfg, b, m, EmptyDisk(cfg, m, k, lateRoots))
  {
    hide Deletable, UploadOne, Unproven, LateClock, MayMeet, MaySee, UnderPrefix;
  }

  lemma EmptyDiskMints(
    cfg: Config, s: Store, b: Observations, m: Manifest, n: string, p: string, lateRoots: set<string>)
    returns (e: Draft)
    requires Starts(cfg, s, b, m) && Deletable(cfg, m, n, p)
    requires forall x, r | x in cfg.available && x in INTERNAL && r in lateRoots :: MayMeet(cfg, x, r)
    ensures
      var o := Looking(cfg, b, EmptyDisk(cfg, m, Key(n, p), lateRoots));
      && WellFormed(cfg, o) && SameStart(o, b) && PriorOf(cfg, s, o) == Prior(m) && Decide(cfg, s, o) == Publishes(e)
      && p !in Files(FinalManifest(cfg, o, e).sources, n) && Minted(m, FinalManifest(cfg, o, e), Key(n, p))
  {
    hide PriorOf, LostSource, Decide, FinalManifest, LateClock, ShowsSeen, WellFormed, ConsumerExcluded, Looking,
      Minted, Accounted, Possible, MayMeet;
    var l := EmptyDisk(cfg, m, Key(n, p), lateRoots);
    var o := Looking(cfg, b, l);
    EmptyIsAccounted(cfg, b, m, Key(n, p), lateRoots);
    e := LookPublishes(cfg, s, b, m, l);
    PublishedSources(cfg, s, o, e);
    forall x | x in FinalManifest(cfg, o, e).sources
      ensures FinalManifest(cfg, o, e).sources[x].files == map[]
    {
      UnseenIsUnpublished(cfg, s, b, m, l, e, x);
    }
    EmptiedIsMinted(cfg, s, b, m, l, e, n, p);
  }

  /** A key can be minted over this prior if and only if it is the key of a path the prior
      published, of an available source, that no exclusion, skip prefix or allowlist
      removes: disabling a source or narrowing its selection mints nothing, and nothing
      less than the selection protects a path. */
  lemma MintableExactly(cfg: Config, s: Store, b: Observations, m: Manifest, k: string)
    requires Starts(cfg, s, b, m)
    ensures Mintable(cfg, s, b, m, k) <==> exists n, p :: k == Key(n, p) && Deletable(cfg, m, n, p)
  {
    hide PriorOf, LostSource, Decide, FinalManifest, WellFormed, Deletable, Minted, Looking, LastProbe,
      HeldOverTombstone,
      Unproven, Key;
    if Mintable(cfg, s, b, m, k) {
      var o: Observations, e: Draft :|
        WellFormed(cfg, o) && SameStart(o, b) && Decide(cfg, s, o) == Publishes(e)
        && Minted(m, FinalManifest(cfg, o, e), k);
      SameStartSamePrior(cfg, s, o, b);
      MintedIsPresent(m, FinalManifest(cfg, o, e), k);
      var n, p := MintedMeaning(cfg, s, o, e, k);
    }
    if n, p :| k == Key(n, p) && Deletable(cfg, m, n, p) {
      var e := EmptyDiskMints(cfg, s, b, m, n, p, {});
    }
  }

  lemma MintedIsPresent(m: Manifest, final: Manifest, k: string)
    requires Minted(m, final, k)
    ensures k in final.tombstones
  {
  }

  // ---- exactly when a published path is conserved -----------------------------------

  /** Every accepted push that starts as `b` does publishes the path or its tombstone,
      unless it sets the path aside. */
  ghost predicate AlwaysConserved(cfg: Config, s: Store, b: Observations, m: Manifest, n: string, p: string) {
    forall o: Observations, e: Draft ::
      WellFormed(cfg, o) && SameStart(o, b) && Decide(cfg, s, o) == Publishes(e) && o.scan.Scanned?
      && !OutOfReach(cfg, s, o, m, n, p) ==>
        (p in Files(FinalManifest(cfg, o, e).sources, n) <==> Key(n, p) !in FinalManifest(cfg, o, e).tombstones)
  }

  /** Only this file is seen. */
  function SeeingLook(cfg: Config, n: string, p: string, clock: Clock): Look {
    Look(map[n := map[p := BlankEntry(cfg.lib)]], map[], {}, (x, y) => Gone, (x, y) => false,
         (x, y) => Blank(), (x, y) => Blank(), clock)
  }

  /** Only the path of source `x` that has the key of `n`'s `p` is seen. */
  function ClaimingLook(cfg: Config, n: string, p: string, x: string, clock: Clock): Look
    requires x + ":" <= Key(n, p)
  {
    SeeingLook(cfg, x, ClaimedBy(x, n, p), clock)
  }

  /** Nothing is seen, but a checkout at `r` in source `x`. */
  function CoveringLook(x: string, r: string, clock: Clock): Look {
    Look(map[], map[x := {r}], {}, (x, y) => Gone, (x, y) => false, (x, y) => Blank(), (x, y) => Blank(), clock)
  }

  /** The accepted push over this look publishes `x`'s path, and so neither `p` nor its
      tombstone, although nothing sets `p` aside. */
  ghost predicate Hides(
    cfg: Config, s: Store, b: Observations, m: Manifest, o: Observations, e: Draft, n: string, p: string, clock: Clock)
  {
    && WellFormed(cfg, o) && SameStart(o, b) && Decide(cfg, s, o) == Publishes(e) && o.scan.Scanned?
    && o.clocks == (clock, clock, clock)
    && (n in cfg.available ==> !OutOfReach(cfg, s, o, m, n, p))
    && p !in Files(FinalManifest(cfg, o, e).sources, n) && Key(n, p) !in FinalManifest(cfg, o, e).tombstones
  }

  lemma RivalHides(
    cfg: Config, s: Store, b: Observations, m: Manifest, l: Look, e: Draft, n: string, p: string, x: string)
    requires Starts(cfg, s, b, m) && Possible(cfg, l) && ShowsSeen(cfg, s, b, m, l, e)
    requires Decide(cfg, s, Looking(cfg, b, l)) == Publishes(e)
    requires n != x && x in cfg.available && x + ":" <= Key(n, p)
    requires ClaimedBy(x, n, p) in Files(FinalManifest(cfg, Looking(cfg, b, l), e).sources, x)
    requires p !in SeenIn(l, n) && Paths(l.roots, n) == {} && !l.linked(n, p)
    ensures Hides(cfg, s, b, m, Looking(cfg, b, l), e, n, p, l.clock)
  {
    hide PriorOf, LostSource, Decide, FinalManifest, WellFormed, NoLiveTombstone, OutOfReach, UploadOne, ShowsSeen,
      LiveKeys, ClaimedBy, SeenIn, FrozenIn, Drafted, Possible, StoredFilter, IsTombstoned, Keeps;
    var o := Looking(cfg, b, l);
    LookStarts(cfg, s, b, m, l);
    PublishedSources(cfg, s, o, e);
    if n in cfg.available {
      NoRootsNothingFrozen(cfg, s, b, m, l, n);
      LookFile(cfg, s, b, m, l, e, n, p);
      LookFacts(cfg, s, b, m, l, n, p);
    }
    LiveOfPublished(FinalManifest(cfg, o, e).sources, x, ClaimedBy(x, n, p));
    NothingLiveTombstoned(cfg, s, o, e);
    LiveIsNotTombstoned(FinalManifest(cfg, o, e), Key(n, p));
  }

  /** Another source's live path with the same key hides the loss of this one. */
  lemma ClaimedIsLost(
    cfg: Config, s: Store, b: Observations, m: Manifest, n: string, p: string, x: string, clock: Clock)
    returns (e: Draft)
    requires Starts(cfg, s, b, m) && n != x && x + ":" <= Key(n, p) && MaySee(cfg, x, ClaimedBy(x, n, p))
    ensures Hides(cfg, s, b, m, Looking(cfg, b, ClaimingLook(cfg, n, p, x, clock)), e, n, p, clock)
  {
    hide PriorOf, LostSource, Decide, FinalManifest, WellFormed, UploadOne, ShowsSeen, Accounted, Recovering, ClaimedBy,
      SeeingLook, Looking, BlankEntry, Blank, Possible, Hides, WalkExcluded, SeenIn, FrozenIn;
    var l := ClaimingLook(cfg, n, p, x, clock);
    var y := ClaimedBy(x, n, p);
    BlankSettles(cfg.lib, !Recovering(b), Blank());
    SeeingIsAccounted(cfg, b, m, x, y, clock);
    e := LookPublishes(cfg, s, b, m, l);
    ClaimingSees(cfg, n, p, x, clock);
    LookFile(cfg, s, b, m, l, e, x, y);
    RivalHides(cfg, s, b, m, l, e, n, p, x);
  }

  lemma ClaimingSees(cfg: Config, n: string, p: string, x: string, clock: Clock)
    requires n != x && x + ":" <= Key(n, p)
    ensures
      var l := ClaimingLook(cfg, n, p, x, clock);
      var y := ClaimedBy(x, n, p);
      && l.clock == clock && y in SeenIn(l, x) && SeenIn(l, x)[y] == BlankEntry(cfg.lib)
      && l.first(x, y) == l.second(x, y) == Blank()
      && SeenIn(l, n) == map[] && Paths(l.roots, n) == {} && !l.linked(n, p)
  {
    hide ClaimedBy, BlankEntry, Blank;
  }

  lemma SeeingIsAccounted(cfg: Config, b: Observations, m: Manifest, n: string, p: string, clock: Clock)
    requires MaySee(cfg, n, p)
    ensures Accounted(cfg, b, m, SeeingLook(cfg, n, p, clock)) && Possible(cfg, SeeingLook(cfg, n, p, clock))
  {
    hide Deletable, UploadOne, Unproven, Recovering, MaySee, MayMeet, UnderPrefix;
    BlankSettles(cfg.lib, !Recovering(b), Blank());
  }

  /** So does another source's entry that a checkout keeps. */
  lemma CoveredIsLost(
    cfg: Config, s: Store, b: Observations, m: Manifest, n: string, p: string, x: string, clock: Clock)
    returns (o: Observations, e: Draft)
    requires Starts(cfg, s, b, m) && n != x && x + ":" <= Key(n, p)
    requires Freezable(cfg, s, b, m, x, ClaimedBy(x, n, p))
    ensures Hides(cfg, s, b, m, o, e, n, p, clock)
  {
    hide PriorOf, LostSource, Decide, FinalManifest, WellFormed, UploadOne, ShowsSeen, Accounted, ClaimedBy, Looking,
      Possible, Hides, InScope, IsTombstoned, Keeps, ScopedPrior, StoredFilter, UnderPrefix, MayMeet, FrozenIn;
    var y := ClaimedBy(x, n, p);
    var r :| MayMeet(cfg, x, r) && UnderPrefix(y, {r});
    var l := CoveringLook(x, r, clock);
    o := Looking(cfg, b, l);
    CoveringIsAccounted(cfg, b, m, x, r, clock);
    e := LookPublishes(cfg, s, b, m, l);
    LookFacts(cfg, s, b, m, l, x, y);
    ScopedPublishes(cfg, m, x, y);
    LookFile(cfg, s, b, m, l, e, x, y);
    RivalHides(cfg, s, b, m, l, e, n, p, x);
  }

  lemma CoveringIsAccounted(cfg: Config, b: Observations, m: Manifest, x: string, r: string, clock: Clock)
    requires MayMeet(cfg, x, r)
    ensures Accounted(cfg, b, m, CoveringLook(x, r, clock)) && Possible(cfg, CoveringLook(x, r, clock))
  {
    hide Deletable, UploadOne, Unproven, MaySee, MayMeet, UnderPrefix;
  }

  lemma LiveIsNotTombstoned(m: Manifest, k: string)
    requires NoLiveTombstone(m) && k in LiveKeys(m.sources)
    ensures k !in m.tombstones
  {
  }

  /** Where another source may publish a path with this key, some accepted push loses this
      path. */
  lemma RivalLoses(cfg: Config, s: Store, b: Observations, m: Manifest, n: string, p: string, clock: Clock)
    returns (o: Observations, e: Draft)
    requires Starts(cfg, s, b, m) && !Unrivalled(cfg, s, b, m, n, p)
    ensures Hides(cfg, s, b, m, o, e, n, p, clock)
  {
    hide Starts, MaySee, Freezable, Hides, ClaimedBy, ClaimingLook, Looking;
    var x :| x in cfg.available && x + ":" <= Key(n, p) && x != n && MayPublish(cfg, s, b, m, x, ClaimedBy(x, n, p));
    if MaySee(cfg, x, ClaimedBy(x, n, p)) {
      e := ClaimedIsLost(cfg, s, b, m, n, p, x, clock);
      o := Looking(cfg, b, ClaimingLook(cfg, n, p, x, clock));
    } else {
      o, e := CoveredIsLost(cfg, s, b, m, n, p, x, clock);
    }
  }

  lemma SameStartSameRivals(
    cfg: Config, s: Store, o: Observations, b: Observations, m: Manifest, n: string, p: string)
    requires SameStart(o, b) && Unrivalled(cfg, s, b, m, n, p)
    ensures Unrivalled(cfg, s, o, m, n, p)
  {
    hide MayPublish, SameStart, ClaimedBy;
    forall x | x in cfg.available && x + ":" <= Key(n, p)
      ensures x == n || !MayPublish(cfg, s, o, m, x, ClaimedBy(x, n, p))
    {
      SameStartMayPublish(cfg, s, o, b, m, x, ClaimedBy(x, n, p));
    }
  }

  /** Conservation, exactly: every accepted push publishes a prior path or its tombstone if
      and only if no other available source may publish a path with the same key. */
  lemma ConservedExactly(cfg: Config, s: Store, b: Observations, m: Manifest, n: string, p: string)
    requires Starts(cfg, s, b, m) && Deletable(cfg, m, n, p)
    ensures AlwaysConserved(cfg, s, b, m, n, p) <==> Unrivalled(cfg, s, b, m, n, p)
  {
    hide PriorOf, LostSource, Decide, FinalManifest, WellFormed, OutOfReach, ConsumerExcluded, NoLiveTombstone,
      Unrivalled;
    if Unrivalled(cfg, s, b, m, n, p) {
      forall o: Observations, e: Draft |
        WellFormed(cfg, o) && SameStart(o, b) && Decide(cfg, s, o) == Publishes(e) && o.scan.Scanned?
        && !OutOfReach(cfg, s, o, m, n, p)
        ensures p in Files(FinalManifest(cfg, o, e).sources, n) <==> Key(n, p) !in FinalManifest(cfg, o, e).tombstones
      {
        SameStartSamePrior(cfg, s, o, b);
        SameStartSameRivals(cfg, s, o, b, m, n, p);
        Conserved(cfg, s, o, e, n, p);
      }
    } else {
      var o, e := RivalLoses(cfg, s, b, m, n, p, Clock(0, ""));
    }
  }

  // ---- exactly what can be published ------------------------------------------------

  /** Some accepted push that starts as `b` does publishes the path. */
  ghost predicate Publishable(cfg: Config, s: Store, b: Observations, n: string, p: string) {
    exists o: Observations, e: Draft ::
      WellFormed(cfg, o) && SameStart(o, b) && Decide(cfg, s, o) == Publishes(e)
      && p in Files(FinalManifest(cfg, o, e).sources, n)
  }

  lemma SeenIsPublishable(cfg: Config, s: Store, b: Observations, m: Manifest, n: string, p: string)
    requires Starts(cfg, s, b, m) && MaySee(cfg, n, p)
    ensures Publishable(cfg, s, b, n, p)
  {
    hide PriorOf, LostSource, Decide, FinalManifest, WellFormed, UploadOne, ShowsSeen, Accounted, Recovering, Looking,
      BlankEntry, Blank, Possible, WalkExcluded, FrozenIn;
    var l := SeeingLook(cfg, n, p, Clock(0, ""));
    BlankSettles(cfg.lib, !Recovering(b), Blank());
    SeeingIsAccounted(cfg, b, m, n, p, Clock(0, ""));
    var e := LookPublishes(cfg, s, b, m, l);
    LookFile(cfg, s, b, m, l, e, n, p);
  }

  lemma FreezableIsPublishable(cfg: Config, s: Store, b: Observations, m: Manifest, n: string, p: string)
    requires Starts(cfg, s, b, m) && n in cfg.available && Freezable(cfg, s, b, m, n, p)
    ensures Publishable(cfg, s, b, n, p)
  {
    hide PriorOf, LostSource, Decide, FinalManifest, WellFormed, UploadOne, ShowsSeen, Accounted, Looking, Possible,
      InScope, IsTombstoned, Keeps, ScopedPrior, StoredFilter, UnderPrefix, MayMeet, FrozenIn;
    var r :| MayMeet(cfg, n, r) && UnderPrefix(p, {r});
    var l := CoveringLook(n, r, Clock(0, ""));
    CoveringIsAccounted(cfg, b, m, n, r, Clock(0, ""));
    var e := LookPublishes(cfg, s, b, m, l);
    LookFacts(cfg, s, b, m, l, n, p);
    ScopedPublishes(cfg, m, n, p);
    LookFile(cfg, s, b, m, l, e, n, p);
  }

  /** A path can be published over this prior if and only if a walk may report it or a
      checkout keep it: a walk publishes whatever it may see, valid to a loader or not. */
  lemma PublishableExactly(cfg: Config, s: Store, b: Observations, m: Manifest, n: string, p: string)
    requires Starts(cfg, s, b, m)
    ensures Publishable(cfg, s, b, n, p) <==> MayPublish(cfg, s, b, m, n, p)
  {
    hide Starts, Decide, FinalManifest, WellFormed, MaySee, Freezable, PriorOf;
    if Publishable(cfg, s, b, n, p) {
      var o: Observations, e: Draft :|
        WellFormed(cfg, o) && SameStart(o, b) && Decide(cfg, s, o) == Publishes(e)
        && p in Files(FinalManifest(cfg, o, e).sources, n);
      SameStartSamePrior(cfg, s, o, b);
      StartsPrior(cfg, s, b, m);
      PublishedMayPublish(cfg, s, o, m, e, n, p);
      SameStartMayPublish(cfg, s, o, b, m, n, p);
    } else if MayPublish(cfg, s, b, m, n, p) {
      if MaySee(cfg, n, p) {
        SeenIsPublishable(cfg, s, b, m, n, p);
      } else {
        FreezableIsPublishable(cfg, s, b, m, n, p);
      }
    }
  }

  lemma StartsPrior(cfg: Config, s: Store, b: Observations, m: Manifest)
    requires Starts(cfg, s, b, m)
    ensures PriorOf(cfg, s, b) == Prior(m)
  {
  }

  lemma SameStartMayPublish(
    cfg: Config, s: Store, o: Observations, b: Observations, m: Manifest, n: string, p: string)
    requires SameStart(o, b)
    ensures MayPublish(cfg, s, o, m, n, p) <==> MayPublish(cfg, s, b, m, n, p)
  {
    hide MaySee, PriorOf, InScope, Coverable, IsTombstoned, Keeps, StoredFilter, ScopedPrior;
    SameStartSamePrior(cfg, s, o, b);
  }

  /** Every accepted push that starts as `b` does publishes only paths that a fetch will load. */
  ghost predicate AlwaysLoadable(cfg: Config, s: Store, b: Observations) {
    forall o: Observations, e: Draft, n: string, p: string ::
      WellFormed(cfg, o) && SameStart(o, b) && Decide(cfg, s, o) == Publishes(e)
      && p in Files(FinalManifest(cfg, o, e).sources, n) ==>
        cfg.paths.valid(p)
  }

  /** Loading refuses a manifest with an invalid path; every push over this prior publishes
      only valid ones if and only if no walk may report, and no checkout keep, another. */
  lemma LoadableExactly(cfg: Config, s: Store, b: Observations, m: Manifest)
    requires Starts(cfg, s, b, m)
    ensures AlwaysLoadable(cfg, s, b) <==> forall n, p :: MayPublish(cfg, s, b, m, n, p) ==> cfg.paths.valid(p)
  {
    hide Starts, Decide, FinalManifest, WellFormed, MayPublish, SameStart, Files;
    if forall n, p :: MayPublish(cfg, s, b, m, n, p) ==> cfg.paths.valid(p) {
      forall o: Observations, e: Draft, n: string, p: string |
        WellFormed(cfg, o) && SameStart(o, b) && Decide(cfg, s, o) == Publishes(e)
        && p in Files(FinalManifest(cfg, o, e).sources, n)
        ensures cfg.paths.valid(p)
      {
        assert Publishable(cfg, s, b, n, p);
        PublishableExactly(cfg, s, b, m, n, p);
      }
    } else {
      var n, p :| MayPublish(cfg, s, b, m, n, p) && !cfg.paths.valid(p);
      PublishableExactly(cfg, s, b, m, n, p);
    }
  }
}
