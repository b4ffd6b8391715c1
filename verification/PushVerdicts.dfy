/** When a push refuses, in terms of the fields of its reads alone: what each stage demands
    of the fetch, the walks, the probes and the two reads of every uploaded file. */
module PushVerdicts {
  import opened Manifests
  import opened RemoteFetch
  import opened PushStages
  import opened PushSafety
  import opened PushTombstones

  // ---- the prior a push compares with ------------------------------------------

  /** One of the directories is the path, holds it, or is the source root. */
  ghost predicate Within(roots: set<string>, p: string) {
    exists r | r in roots :: r == "." || p == r || r + "/" <= p
  }

  /** The prior filter lets the path through: no conflict copy, no selection marker, and
      selected where the source is available. */
  ghost predicate PassesFilter(cfg: Config, n: string, p: string) {
    && !cfg.paths.conflictNamed(p) && !cfg.paths.marker(p)
    && (n in cfg.available ==>
          !Within(cfg.available[n].prefixes, p) && !cfg.available[n].patterns(p) && cfg.available[n].allowed(p))
  }

  lemma FilterExactly(cfg: Config, n: string, p: string)
    ensures PassesFilter(cfg, n, p) <==> !ConsumerExcluded(cfg, n, p)
  {
  }

  /** Reached through a symlink outside the checkouts of an available source. */
  ghost predicate BehindLink(cfg: Config, o: Observations, linked: PathTest, n: string, p: string)
    requires o.scan.Scanned?
  {
    n in cfg.available && cfg.paths.valid(p) && linked(n, p)
    && !(n in o.scan.sources && Within(o.scan.sources[n].roots, p))
  }

  /** A path is frozen exactly when the prior published it, the filters let it through, the
      walk found a checkout over it and did not read it, it is not tombstoned, and, unless
      the canonical manifest was read, its blob is stored. */
  lemma FrozenPathsExactly(cfg: Config, s: Store, o: Observations, m: Manifest, n: string, p: string)
    requires o.scan.Scanned? && n in o.scan.sources
    ensures
      var key := Key(n, p);
      p in Paths(FrozenBy(cfg, s, o, m), n) <==>
        && n in m.sources && p in m.sources[n].files
        && n in cfg.selected + cfg.available.Keys && n !in RETIRED && PassesFilter(cfg, n, p)
        && Within(o.scan.sources[n].roots, p) && p !in o.scan.sources[n].files
        && !(key in m.tombstones && PassesFilter(cfg, KeyOwner(key).0, KeyOwner(key).1))
        && ((o.fetch.status == Ok && !o.fetch.conflictCopiesOnly) || m.sources[n].files[p].sha in s.blobs)
  {
    hide ConsumerExcluded, PassesFilter, UnderPrefix, Within, KeyOwner;
    var owner := KeyOwner(Key(n, p));
    FilterExactly(cfg, n, p);
    FilterExactly(cfg, owner.0, owner.1);
    WithinExactly(o.scan.sources[n].roots, p);
    FrozenExactly(cfg, s, o, m, n, p);
  }

  lemma WithinExactly(roots: set<string>, p: string)
    ensures UnderPrefix(p, roots) <==> Within(roots, p)
  {
  }

  /** The prior the push compares with publishes a path exactly when the recovered one does,
      the filters let it through, it is not behind a link, and no checkout is over it unless
      it is frozen; with the entry it had. */
  lemma PriorPathsExactly(cfg: Config, s: Store, o: Observations, m: Manifest, n: string, p: string)
    requires o.scan.Scanned?
    ensures
      var compared := ComparedPrior(cfg, s, o, m).sources;
      && (p in Files(compared, n) <==>
            && n in m.sources && p in m.sources[n].files
            && n in cfg.selected + cfg.available.Keys && n !in RETIRED && PassesFilter(cfg, n, p)
            && !BehindLink(cfg, o, o.linkedFile, n, p)
            && (n in o.scan.sources && Within(o.scan.sources[n].roots, p) ==> p in Paths(FrozenBy(cfg, s, o, m), n)))
      && (p in Files(compared, n) ==> compared[n].files[p] == m.sources[n].files[p])
  {
    hide ConsumerExcluded, PassesFilter, UnderPrefix, Within, FrozenBy, ComparedPrior;
    FilterExactly(cfg, n, p);
    if n in o.scan.sources {
      WithinExactly(o.scan.sources[n].roots, p);
    }
    WithinExactly({}, p);
    NothingWithin(p);
    ComparedPublishes(cfg, s, o, m, n, p);
    if p in Files(ComparedPrior(cfg, s, o, m).sources, n) {
      ComparedPriorShrinks(cfg, s, o, m, n, p);
    }
  }

  lemma NothingWithin(p: string)
    ensures !Within({}, p)
  {
  }

  /** It carries a tombstone exactly when the recovered one does and the path its key names
      passes the filter and is not behind a link; unchanged. */
  lemma PriorTombstonesExactly(cfg: Config, s: Store, o: Observations, m: Manifest, k: string)
    requires o.scan.Scanned?
    ensures
      var owner := KeyOwner(k);
      var compared := ComparedPrior(cfg, s, o, m).tombstones;
      && (k in compared <==>
            && k in m.tombstones && PassesFilter(cfg, owner.0, owner.1)
            && !(':' in k && BehindLink(cfg, o, o.linkedTombstone, owner.0, owner.1)))
      && (k in compared ==> compared[k] == m.tombstones[k])
  {
    hide ConsumerExcluded, PassesFilter, UnderPrefix, Within, ComparedPrior, KeyOwner;
    var owner := KeyOwner(k);
    FilterExactly(cfg, owner.0, owner.1);
    if owner.0 in o.scan.sources {
      WithinExactly(o.scan.sources[owner.0].roots, owner.1);
    }
    WithinExactly({}, owner.1);
    NothingWithin(owner.1);
    ComparedTombstones(cfg, s, o, m, k);
  }

  // ---- candidates, roots and losses ------------------------------------------

  /** Not what the walk of an available source selects. */
  ghost predicate OutsideWalk(cfg: Config, n: string, p: string)
    requires n in cfg.available
  {
    var src := cfg.available[n];
    cfg.paths.conflictNamed(p) || cfg.paths.junk(p) || src.patterns(p) || !src.allowed(p) || Within(src.prefixes, p)
  }

  /** Not what the absence proof probes: it looks below skip prefixes too. */
  ghost predicate OutsideProof(cfg: Config, n: string, p: string)
    requires n in cfg.available
  {
    var src := cfg.available[n];
    !cfg.paths.valid(p) || cfg.paths.conflictNamed(p) || cfg.paths.junk(p) || src.patterns(p) || !src.allowed(p)
  }

  /** Of every candidate the walk selects and does not hold, nothing is left, and the prior
      published nothing below it. */
  ghost predicate CandidatesClear(cfg: Config, scan: Scan, prior: map<string, Source>, probe: PathProbe) {
    scan.Scanned? && scan.sources.Keys <= cfg.available.Keys
    && forall n, c | n in scan.sources && c in scan.sources[n].candidates ::
         || c in scan.sources[n].held || OutsideWalk(cfg, n, c)
         || (probe(n, c) == Gone && forall f | f in Files(prior, n) :: !(c + "/" <= f))
  }

  ghost predicate RootsThere(cfg: Config, prior: map<string, Source>, root: string -> bool) {
    forall n | n in prior && n in cfg.available && prior[n].files != map[] :: root(n)
  }

  /** No regular file and no failed probe where the prior has a path that is not kept. */
  ghost predicate LossesProbed(cfg: Config, prior: map<string, Source>, kept: PathTest, probe: PathProbe) {
    forall n, p | n in prior && n in cfg.available && p in prior[n].files ::
      kept(n, p) || OutsideProof(cfg, n, p) || (probe(n, p) != Regular && probe(n, p) != Unreadable)
  }

  /** The walk ended, and settled when the prior had to be recovered. */
  ghost predicate WalkSuffices(o: Observations, scan: Scan) {
    && scan.Scanned?
    && (o.fetch.status == Corrupt || o.fetch.conflictCopiesOnly || o.fetch.vanished ==>
          forall n | n in scan.sources :: scan.sources[n].held == {} && scan.sources[n].candidates == {})
  }

  lemma WalkExclusion(cfg: Config, n: string, p: string)
    requires n in cfg.available
    ensures WalkExcluded(cfg, n, p) <==> OutsideWalk(cfg, n, p)
    ensures !cfg.paths.valid(p) || ProofExcluded(cfg, n, p) <==> OutsideProof(cfg, n, p)
  {
  }

  lemma CandidatesAreClear(
    cfg: Config, local: map<string, Source>, prior: Option<Manifest>, scan: Scan, probe: PathProbe)
    requires scan.Scanned? && local.Keys == scan.sources.Keys <= cfg.available.Keys
    ensures CandidatesProven(cfg, local, prior, scan, probe) <==>
            CandidatesClear(cfg, scan, PriorSources(prior), probe)
  {
    hide WalkExcluded, OutsideWalk, Files;
    forall n, c | n in scan.sources && c in scan.sources[n].candidates
      ensures WalkExcluded(cfg, n, c) <==> OutsideWalk(cfg, n, c)
    {
      WalkExclusion(cfg, n, c);
    }
    if CandidatesProven(cfg, local, prior, scan, probe) {
      forall n, c | n in scan.sources && c in scan.sources[n].candidates
        ensures
          || c in scan.sources[n].held || OutsideWalk(cfg, n, c)
          || (probe(n, c) == Gone && forall f | f in Files(PriorSources(prior), n) :: !(c + "/" <= f))
      {
        assert SourceCandidatesProven(cfg, Files(PriorSources(prior), n), scan, probe, n);
        assert c in Unsettled(cfg, scan, n) || c in scan.sources[n].held || OutsideWalk(cfg, n, c);
      }
    }
  }

  lemma LossesAreProbed(
    cfg: Config, local: map<string, Source>, prior: Manifest, probe: PathProbe, root: string -> bool, kept: PathTest)
    requires forall n, p | n in prior.sources && n in cfg.available && p in prior.sources[n].files ::
               kept(n, p) <==> p in Files(local, n)
    ensures AbsenceProven(cfg, local, prior, probe, root) <==>
            RootsThere(cfg, prior.sources, root) && LossesProbed(cfg, prior.sources, kept, probe)
  {
    hide ProofExcluded, OutsideProof;
    forall n, p | n in prior.sources && n in cfg.available && p in prior.sources[n].files
      ensures !cfg.paths.valid(p) || ProofExcluded(cfg, n, p) <==> OutsideProof(cfg, n, p)
    {
      WalkExclusion(cfg, n, p);
    }
  }

  // ---- the draft -----------------------------------------------------------------

  /** The first walk accounts for a path of the compared prior: it read it, a checkout froze
      it, or it waits for a file the walk held or named a candidate. */
  ghost predicate Accounted(cfg: Config, s: Store, o: Observations, m: Manifest, n: string, p: string)
    requires o.scan.Scanned? && n in o.scan.sources && n in cfg.available
  {
    var walk := o.scan.sources[n];
    || p in walk.files || p in Paths(FrozenBy(cfg, s, o, m), n)
    || (p in walk.held + walk.candidates && !OutsideWalk(cfg, n, p)
        && Key(n, p) !in ComparedPrior(cfg, s, o, m).tombstones)
  }

  lemma InjectedIsAccounted(cfg: Config, s: Store, o: Observations, m: Manifest, n: string, p: string)
    requires o.scan.Scanned? && n in o.scan.sources && n in cfg.available
    requires p in Files(ComparedPrior(cfg, s, o, m).sources, n)
    ensures
      var local := FreezeSources(ScannedSources(o.scan), ScopedPrior(cfg, m), ScanRoots(o.scan), StoredFilter(s, o));
      var injected :=
        InjectSources(cfg, local, Some(ComparedPrior(cfg, s, o, m)), o.scan, FrozenBy(cfg, s, o, m));
      p in Files(injected, n) <==> Accounted(cfg, s, o, m, n, p)
  {
    hide ComparedPrior, ScopedPrior, WalkExcluded, OutsideWalk, StoredFilter, FrozenSource, FrozenPaths;
    var local := FreezeSources(ScannedSources(o.scan), ScopedPrior(cfg, m), ScanRoots(o.scan), StoredFilter(s, o));
    FreezeFiles(ScannedSources(o.scan), ScopedPrior(cfg, m), ScanRoots(o.scan), StoredFilter(s, o), n, p);
    WalkExclusion(cfg, n, p);
  }

  ghost function AccountedFor(cfg: Config, s: Store, o: Observations, m: Manifest): PathTest {
    (n, p) => o.scan.Scanned? && n in o.scan.sources && n in cfg.available && Accounted(cfg, s, o, m, n, p)
  }

  /** A push with a prior gets to its draft exactly when nothing newer was fetched, no
      selected source that published files is gone, the walk suffices, symlinks could be
      probed, its candidates are clear, the roots of published sources are there, and every
      loss of the compared prior is probed. */
  lemma PreparesExactly(cfg: Config, s: Store, o: Observations, m: Manifest)
    requires WellFormed(cfg, o) && PriorOf(cfg, s, o) == Prior(m)
    ensures Prepare(cfg, s, o).Some? <==>
      && o.fetch.newerVersion.None? && !o.linkProbeFails
      && (forall n | n in cfg.selected && n !in cfg.available && n in m.sources :: m.sources[n].files == map[])
      && WalkSuffices(o, o.scan)
      && CandidatesClear(cfg, o.scan, ComparedPrior(cfg, s, o, m).sources, o.candidate)
      && RootsThere(cfg, ComparedPrior(cfg, s, o, m).sources, o.root)
      && LossesProbed(cfg, ComparedPrior(cfg, s, o, m).sources, AccountedFor(cfg, s, o, m), o.omitted)
  {
    hide CandidatesProven, AbsenceProven, CandidatesClear, RootsThere, LossesProbed, Accounted, ComparedPrior,
      FreezeSources, ScopedPrior, ScanRoots, StoredFilter, InjectSources, FrozenBy, SurvivingMap, GenerateTombstones,
      PriorOf, OutsideWalk, Walks, Loaded;
    if o.scan.Scanned? {
      var prior := ComparedPrior(cfg, s, o, m);
      var local := FreezeSources(ScannedSources(o.scan), ScopedPrior(cfg, m), ScanRoots(o.scan), StoredFilter(s, o));
      var injected := InjectSources(cfg, local, Some(prior), o.scan, FrozenBy(cfg, s, o, m));
      FreezeKeys(ScannedSources(o.scan), ScopedPrior(cfg, m), ScanRoots(o.scan), StoredFilter(s, o));
      CandidatesAreClear(cfg, local, Some(prior), o.scan, o.candidate);
      forall n, p | n in prior.sources && n in cfg.available && p in prior.sources[n].files
        ensures AccountedFor(cfg, s, o, m)(n, p) <==> p in Files(injected, n)
      {
        InjectedIsAccounted(cfg, s, o, m, n, p);
      }
      LossesAreProbed(cfg, injected, prior, o.omitted, o.root, AccountedFor(cfg, s, o, m));
    }
  }

  /** A first push compares with nothing: only the fetch, the walk and its candidates can
      refuse it. */
  lemma FirstPreparesExactly(cfg: Config, s: Store, o: Observations)
    requires WellFormed(cfg, o) && PriorOf(cfg, s, o) == NoPrior
    ensures Prepare(cfg, s, o).Some? <==>
      o.fetch.newerVersion.None? && WalkSuffices(o, o.scan) && CandidatesClear(cfg, o.scan, map[], o.candidate)
  {
    hide CandidatesProven, CandidatesClear, InjectSources, SurvivingMap, PriorOf, Walks, Loaded;
    if o.scan.Scanned? {
      CandidatesAreClear(cfg, ScannedSources(o.scan), None, o.scan, o.candidate);
    }
  }

  lemma SurvivesExactly(
    cfg: Config, local: map<string, Source>, prior: Option<Manifest>, scan: Scan, frozen: PathsBySource, n: string,
    p: string)
    requires n in local && scan.Scanned? && n in scan.sources
    ensures p in Paths(SurvivingMap(cfg, local, prior, scan, frozen), n) <==>
      && p in scan.sources[n].held + scan.sources[n].candidates && !WalkExcluded(cfg, n, p)
      && p !in local[n].files && p !in Paths(frozen, n) && !IsTombstoned(n, p, PriorTombstones(prior))
  {
    hide WalkExcluded, IsTombstoned;
  }

  /** The draft holds a path exactly when the walk held it or named it a candidate, selects
      it and did not read it, and it is neither frozen nor tombstoned. */
  lemma HeldPathsExactly(cfg: Config, s: Store, o: Observations, d: Draft, n: string, p: string)
    requires WellFormed(cfg, o) && Prepare(cfg, s, o) == Some(d) && n in cfg.available
    ensures o.scan.Scanned? && n in o.scan.sources
    ensures p in Paths(d.held, n) <==>
      && p in o.scan.sources[n].held + o.scan.sources[n].candidates && !OutsideWalk(cfg, n, p)
      && p !in o.scan.sources[n].files && p !in Paths(d.frozen, n)
      && (d.prior.Some? ==> Key(n, p) !in d.prior.value.tombstones)
  {
    hide PriorOf, DraftWithPrior, DraftWithoutPrior, RefusesEarly, OutsideWalk, WalkExcluded;
    WalkExclusion(cfg, n, p);
    if PriorOf(cfg, s, o).Prior? {
      HeldWithPrior(cfg, s, o, PriorOf(cfg, s, o).manifest, d, n, p);
    } else {
      HeldWithoutPrior(cfg, o, d, n, p);
    }
  }

  lemma HeldWithPrior(cfg: Config, s: Store, o: Observations, m: Manifest, d: Draft, n: string, p: string)
    requires o.scan.Scanned? && n in o.scan.sources && DraftWithPrior(cfg, s, o, m) == Some(d)
    ensures d.prior == Some(ComparedPrior(cfg, s, o, m))
    ensures p in Paths(d.held, n) <==>
      && p in o.scan.sources[n].held + o.scan.sources[n].candidates && !WalkExcluded(cfg, n, p)
      && p !in o.scan.sources[n].files && p !in Paths(d.frozen, n) && Key(n, p) !in d.prior.value.tombstones
  {
    hide ScopedPrior, AbsenceProven, CandidatesProven, GenerateTombstones, WalkExcluded, FreezeSources, FrozenMap,
      InjectSources, SurvivingMap, ComparedPrior, FrozenBy;
    var scanned := ScannedSources(o.scan);
    var scoped, roots, stored := ScopedPrior(cfg, m), ScanRoots(o.scan), StoredFilter(s, o);
    var local := FreezeSources(scanned, scoped, roots, stored);
    FreezeKeys(scanned, scoped, roots, stored);
    FreezeFiles(scanned, scoped, roots, stored, n, p);
    SurvivesExactly(cfg, local, d.prior, o.scan, d.frozen, n, p);
    assert d.frozen == FrozenMap(scanned, scoped, roots, stored) by {
      FrozenIsMap(cfg, s, o, m);
    }
  }

  lemma FrozenIsMap(cfg: Config, s: Store, o: Observations, m: Manifest)
    requires o.scan.Scanned?
    ensures FrozenBy(cfg, s, o, m)
            == FrozenMap(ScannedSources(o.scan), ScopedPrior(cfg, m), ScanRoots(o.scan), StoredFilter(s, o))
  {
    hide FrozenMap;
  }

  lemma HeldWithoutPrior(cfg: Config, o: Observations, d: Draft, n: string, p: string)
    requires o.scan.Scanned? && n in o.scan.sources && DraftWithoutPrior(cfg, o) == Some(d)
    ensures d.prior == None
    ensures p in Paths(d.held, n) <==>
      && p in o.scan.sources[n].held + o.scan.sources[n].candidates && !WalkExcluded(cfg, n, p)
      && p !in o.scan.sources[n].files && p !in Paths(d.frozen, n)
  {
    hide CandidatesProven, WalkExcluded, InjectSources, SurvivingMap;
    SurvivesExactly(cfg, ScannedSources(o.scan), None, o.scan, map[], n, p);
  }

  // ---- the rescan ------------------------------------------------------------------

  /** After the rescan: an untouched source keeps its draft; an internal one keeps what the
      rescan read, what it carried, and what waits for a file it held or named. */
  ghost predicate AccountedAgain(cfg: Config, o: Observations, d: Draft, n: string, p: string)
    requires o.rescan.Scanned? && n in cfg.available && d.prior.Some?
  {
    if n !in o.rescan.sources then p in Files(d.sources, n)
    else
      var walk := o.rescan.sources[n];
      || p in walk.files
      || (p in Files(d.sources, n)
          && (p in Paths(d.frozen, n) || (p in Paths(d.held, n) && CheckedOut(o, n, p))))
      || (p in walk.held + walk.candidates && !OutsideWalk(cfg, n, p) && Key(n, p) !in d.prior.value.tombstones)
  }

  /** Below a checkout that either walk found. */
  ghost predicate CheckedOut(o: Observations, n: string, p: string) {
    || (o.scan.Scanned? && n in o.scan.sources && Within(o.scan.sources[n].roots, p))
    || (o.rescan.Scanned? && n in o.rescan.sources && Within(o.rescan.sources[n].roots, p))
  }

  lemma CheckedOutExactly(o: Observations, n: string, p: string)
    ensures CheckedOut(o, n, p) <==> UnderPrefix(p, BothRoots(o, n))
  {
    var one, two := Paths(ScanRoots(o.scan), n), Paths(ScanRoots(o.rescan), n);
    assert Within(one + two, p) <==> Within(one, p) || Within(two, p);
    WithinExactly(one + two, p);
    NothingWithin(p);
  }

  ghost function AccountedForAgain(cfg: Config, o: Observations, d: Draft): PathTest {
    (n, p) => o.rescan.Scanned? && n in cfg.available && d.prior.Some? && AccountedAgain(cfg, o, d, n, p)
  }

  lemma FrozenIsDrafted(cfg: Config, s: Store, o: Observations, d: Draft, n: string, p: string)
    requires Prepare(cfg, s, o) == Some(d) && n in cfg.available && WellFormed(cfg, o)
    requires p in Paths(d.frozen, n)
    ensures p in Files(d.sources, n)
  {
    hide PriorOf, DraftWithPrior, RefusesEarly, ComparedPrior, ScopedPrior, FrozenMap, HeldBefore, CandidatesProven;
    var prior := PriorOf(cfg, s, o);
    if prior.Prior? {
      DraftFiles(cfg, s, o, prior.manifest, d, n, p);
    }
  }

  lemma RescannedIsCarried(o: Observations, d: Draft, n: string, p: string)
    requires o.rescan.Scanned? && n in o.rescan.sources
    requires p in Paths(d.frozen, n) ==> p in Files(d.sources, n)
    ensures p in RescannedFiles(o, d, n) <==>
      || p in o.rescan.sources[n].files
      || (p in Files(d.sources, n)
          && (p in Paths(d.frozen, n) || (p in Paths(d.held, n) && UnderPrefix(p, BothRoots(o, n)))))
    ensures p in RescannedFrozen(o, d, n) ==> p in RescannedFiles(o, d, n)
  {
    hide UnderPrefix;
  }

  lemma RescannedIsAccounted(cfg: Config, s: Store, o: Observations, d: Draft, n: string, p: string)
    requires WellFormed(cfg, o) && Prepare(cfg, s, o) == Some(d) && d.prior.Some?
    requires o.rescan.Scanned? && n in cfg.available && p in Files(d.prior.value.sources, n)
    ensures
      var local := d.sources
                   + InjectSources(cfg, RescannedSources(o, d), d.prior, o.rescan, FrozenAfter(o, d));
      p in Files(local, n) <==> AccountedAgain(cfg, o, d, n, p)
  {
    hide Prepare, WalkExcluded, OutsideWalk, UnderPrefix, InjectSources, SurvivingMap, RescannedFiles, RescannedFrozen,
      Walks, Loaded;
    var events, frozen := RescannedSources(o, d), FrozenAfter(o, d);
    InjectedKeys(cfg, events, d.prior, o.rescan, frozen);
    if n in o.rescan.sources {
      InjectFiles(cfg, events, d.prior, o.rescan, frozen, n, p);
      WalkExclusion(cfg, n, p);
      CheckedOutExactly(o, n, p);
      if p in Paths(d.frozen, n) {
        FrozenIsDrafted(cfg, s, o, d, n, p);
      }
      RescannedIsCarried(o, d, n, p);
      SurvivesExactly(cfg, events, d.prior, o.rescan, frozen, n, p);
    }
  }

  lemma RescanStages(cfg: Config, o: Observations, d: Draft)
    requires cfg.available.Keys * INTERNAL != {}
    ensures Rescanned(cfg, o, d).Some? <==>
      && ScanAccepted(o.rescan, Recovering(o))
      && CandidatesProven(cfg, RescannedSources(o, d), d.prior, o.rescan, o.candidateAgain)
      && var local := d.sources + InjectSources(cfg, RescannedSources(o, d), d.prior, o.rescan, FrozenAfter(o, d));
      (d.prior.Some? ==> AbsenceProven(cfg, local, d.prior.value, o.omittedAgain, o.rootAgain))
  {
    hide CandidatesProven, AbsenceProven, RescannedFiles, FrozenAfter, InjectSources, SurvivingMap, GenerateTombstones,
      HeldAfter, Settled;
  }

  lemma RescanIsClear(cfg: Config, s: Store, o: Observations, d: Draft)
    requires WellFormed(cfg, o) && Prepare(cfg, s, o) == Some(d) && o.rescan.Scanned?
    ensures
      var events := RescannedSources(o, d);
      var local := d.sources + InjectSources(cfg, events, d.prior, o.rescan, FrozenAfter(o, d));
      && (CandidatesProven(cfg, events, d.prior, o.rescan, o.candidateAgain) <==>
            CandidatesClear(cfg, o.rescan, PriorSources(d.prior), o.candidateAgain))
      && (d.prior.Some? ==>
            (AbsenceProven(cfg, local, d.prior.value, o.omittedAgain, o.rootAgain) <==>
               && RootsThere(cfg, d.prior.value.sources, o.rootAgain)
               && LossesProbed(cfg, d.prior.value.sources, AccountedForAgain(cfg, o, d), o.omittedAgain)))
  {
    hide Prepare, CandidatesProven, AbsenceProven, CandidatesClear, RootsThere, LossesProbed, AccountedAgain,
      RescannedFiles, FrozenAfter, InjectSources, Walks, Loaded;
    var events := RescannedSources(o, d);
    var local := d.sources + InjectSources(cfg, events, d.prior, o.rescan, FrozenAfter(o, d));
    CandidatesAreClear(cfg, events, d.prior, o.rescan, o.candidateAgain);
    if d.prior.Some? {
      forall n, p | n in d.prior.value.sources && n in cfg.available && p in d.prior.value.sources[n].files
        ensures AccountedForAgain(cfg, o, d)(n, p) <==> p in Files(local, n)
      {
        RescannedIsAccounted(cfg, s, o, d, n, p);
      }
      LossesAreProbed(cfg, local, d.prior.value, o.omittedAgain, o.rootAgain, AccountedForAgain(cfg, o, d));
    }
  }

  /** The rescan of the internal sources goes on under the same demands, on its own walk,
      probes and roots. */
  lemma RescansExactly(cfg: Config, s: Store, o: Observations, d: Draft)
    requires WellFormed(cfg, o) && Prepare(cfg, s, o) == Some(d)
    ensures cfg.available.Keys * INTERNAL == {} ==> Rescanned(cfg, o, d) == Some(d)
    ensures cfg.available.Keys * INTERNAL != {} ==>
      (Rescanned(cfg, o, d).Some? <==>
         && WalkSuffices(o, o.rescan)
         && CandidatesClear(cfg, o.rescan, PriorSources(d.prior), o.candidateAgain)
         && (d.prior.Some? ==>
               && RootsThere(cfg, d.prior.value.sources, o.rootAgain)
               && LossesProbed(cfg, d.prior.value.sources, AccountedForAgain(cfg, o, d), o.omittedAgain)))
  {
    hide Prepare, CandidatesProven, AbsenceProven, CandidatesClear, RootsThere, LossesProbed, AccountedForAgain,
      Rescanned, RescannedSources, InjectSources, FrozenAfter, PriorSources;
    if cfg.available.Keys * INTERNAL == {} {
      NoRescan(cfg, o, d);
    } else {
      RescanStages(cfg, o, d);
      if o.rescan.Scanned? {
        RescanIsClear(cfg, s, o, d);
      }
    }
  }

  // ---- the uploads -----------------------------------------------------------------

  /** What the upload reads: a drafted file the fetched manifest does not publish with the
      same digest, neither frozen nor held. */
  ghost predicate MustUpload(o: Observations, e: Draft, n: string, p: string) {
    && p in Files(e.sources, n) && p !in Paths(e.frozen, n) && p !in Paths(e.held, n)
    && (p in Files(RemoteSources(o), n) ==> Files(RemoteSources(o), n)[p].sha != Files(e.sources, n)[p].sha)
  }

  /** One file stops the push: its reads fail, or it vanished from a source that was
      published and whose root is gone. */
  ghost predicate Stops(cfg: Config, o: Observations, e: Draft, n: string, p: string)
    requires p in Files(e.sources, n)
  {
    var hold := !(o.fetch.status == Corrupt || o.fetch.conflictCopiesOnly || o.fetch.vanished);
    var info := Files(e.sources, n)[p];
    || ReadsFail(cfg.lib, hold, info, o.first(n, p), o.second(n, p))
    || (!ReadAsScanned(cfg.lib, o.first(n, p), info) && o.second(n, p) == Transient(Vanished)
        && n in RemoteSources(o) && !o.rootAfter(n))
  }

  lemma UploadRefusesExactly(cfg: Config, o: Observations, e: Draft, n: string)
    requires n in e.sources
    ensures UploadRefuses(cfg, o, e, n) <==> exists p | MustUpload(o, e, n, p) :: Stops(cfg, o, e, n, p)
  {
    hide ReadsFail, ReadAsScanned, At, HeldUploads, BatchFatal;
    var b := BatchOf(o, e, n);
    assert forall p :: MustUpload(o, e, n, p) <==> p in b.files;
    FatalExactly(cfg.lib, b);
    if BatchFatal(cfg.lib, b) {
      var p :| p in b.files && ReadsFail(cfg.lib, b.allowHold, b.files[p], b.first(p), b.second(p));
      assert MustUpload(o, e, n, p) && Stops(cfg, o, e, n, p);
    } else {
      VanishedExactly(cfg.lib, b);
      if UploadRefuses(cfg, o, e, n) {
        var p :| p in b.files && !ReadAsScanned(cfg.lib, b.first(p), b.files[p])
                 && b.second(p) == Transient(Vanished);
        assert MustUpload(o, e, n, p) && Stops(cfg, o, e, n, p);
      }
      if p :| MustUpload(o, e, n, p) && Stops(cfg, o, e, n, p) {
        assert !ReadsFail(cfg.lib, b.allowHold, b.files[p], b.first(p), b.second(p));
      }
    }
  }

  /** A file is held as vanished exactly when it did not read as scanned and then was gone. */
  lemma VanishedExactly(lib: Library, b: Batch)
    requires !BatchFatal(lib, b)
    ensures Vanished in HeldUploads(lib, b).Values <==>
      exists p | p in b.files :: !ReadAsScanned(lib, b.first(p), b.files[p]) && b.second(p) == Transient(Vanished)
  {
    hide ReadAsScanned, BatchFatal;
    var held := HeldUploads(lib, b);
    if Vanished in held.Values {
      var p :| p in held && held[p] == Vanished;
      UploadSplits(lib, b, p);
    }
    if p :| p in b.files && !ReadAsScanned(lib, b.first(p), b.files[p]) && b.second(p) == Transient(Vanished) {
      UploadSplits(lib, b, p);
      assert held[p] == Vanished;
    }
  }

  /** A push with a draft that has something to publish publishes it exactly when the rescan
      goes on, no uploaded file stops it, and nothing newer came in at the end. */
  lemma PublishesExactly(cfg: Config, s: Store, o: Observations, d: Draft)
    requires cfg.available.Keys != {} || cfg.skippedInternal
    requires Prepare(cfg, s, o) == Some(d) && Substantive(cfg, s, o, d)
    ensures !Decide(cfg, s, o).Idles?
    ensures Decide(cfg, s, o).Publishes? ==> Rescanned(cfg, o, d) == Some(Decide(cfg, s, o).draft)
    ensures Decide(cfg, s, o).Publishes? <==>
      && !o.newerAtEnd && Rescanned(cfg, o, d).Some?
      && var e := Rescanned(cfg, o, d).value;
      forall n, p | n in e.sources && MustUpload(o, e, n, p) :: !Stops(cfg, o, e, n, p)
  {
    hide Prepare, Substantive, Rescanned, UploadRefuses, Stops;
    if Rescanned(cfg, o, d).Some? {
      var e := Rescanned(cfg, o, d).value;
      forall n | n in e.sources
        ensures UploadRefuses(cfg, o, e, n) <==> exists p | MustUpload(o, e, n, p) :: Stops(cfg, o, e, n, p)
      {
        UploadRefusesExactly(cfg, o, e, n);
      }
    }
  }

  // ---- refusals before the uploads ---------------------------------------------------

  /** Without an accepted prior state, or without a draft, the push refuses. With no source
      to push at all it refuses only for what could be lost: a newer format, no prior state
      to recover, or a selected source that published files and is gone. */
  lemma RefusesBeforeUploads(cfg: Config, s: Store, o: Observations)
    ensures PriorOf(cfg, s, o).Abort? ==> Prepare(cfg, s, o).None?
    ensures (cfg.available.Keys != {} || cfg.skippedInternal) && Prepare(cfg, s, o).None? ==>
      Decide(cfg, s, o) == Refuses
    ensures cfg.available.Keys == {} && !cfg.skippedInternal ==>
      var prior := PriorOf(cfg, s, o);
      && !Decide(cfg, s, o).Publishes?
      && (Decide(cfg, s, o).Refuses? <==>
            && cfg.selected != {}
            && (o.fetch.newerVersion.Some? || prior.Abort?
                || (prior.Prior? && exists n ::
                      n in cfg.selected && n in prior.manifest.sources && prior.manifest.sources[n].files != map[])))
  {
    hide PriorOf, DraftWithPrior, DraftWithoutPrior;
  }

  /** A candidate that is not clear makes the push refuse: something is still there, or it
      was a directory with published files. */
  lemma VanishedCandidateRefuses(cfg: Config, s: Store, o: Observations, n: string, c: string)
    requires WellFormed(cfg, o) && o.scan.Scanned? && n in cfg.available
    requires c in o.scan.sources[n].candidates && c !in o.scan.sources[n].held && !OutsideWalk(cfg, n, c)
    requires
      || o.candidate(n, c) != Gone
      || (PriorOf(cfg, s, o).Prior?
          && exists f | f in Files(ComparedPrior(cfg, s, o, PriorOf(cfg, s, o).manifest).sources, n) :: c + "/" <= f)
    ensures Prepare(cfg, s, o).None? && Decide(cfg, s, o) == Refuses
  {
    hide Prepare, PriorOf, ComparedPrior, OutsideWalk, Walks, Loaded, WalkSuffices, RootsThere, LossesProbed;
    RefusesBeforeUploads(cfg, s, o);
    match PriorOf(cfg, s, o)
    case Abort =>
    case NoPrior => FirstPreparesExactly(cfg, s, o);
    case Prior(m) => PreparesExactly(cfg, s, o, m);
  }
}
