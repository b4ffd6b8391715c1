/** Safety of one push: where published entries come from, and that every published
    entry's blob is stored. */
module PushSafety {
  import opened Manifests
  import opened MergeCopies
  import opened RemoteFetch
  import opened PushStages

  // ---- frozen and held entries come from the prior -------------------------

  /** `p` carries the entry the recovered prior has for it. */
  predicate CarriesPrior(cfg: Config, s: Store, o: Observations, files: map<string, Entry>, n: string, p: string) {
    var prior := PriorOf(cfg, s, o);
    && p in files && prior.Prior? && p in Files(prior.manifest.sources, n)
    && files[p] == Files(prior.manifest.sources, n)[p]
  }

  /** In recovery nothing is held and every frozen entry has a stored blob. */
  ghost predicate SetAsideFromPrior(cfg: Config, s: Store, o: Observations, d: Draft) {
    forall n, p | p in Files(d.sources, n) && (p in Paths(d.frozen, n) || p in Paths(d.held, n)) ::
      && CarriesPrior(cfg, s, o, Files(d.sources, n), n, p)
      && Keeps(StoredFilter(s, o), Files(d.sources, n)[p])
  }

  /** The compared prior only ever drops entries of the recovered prior. */
  lemma ComparedPriorShrinks(cfg: Config, s: Store, o: Observations, m: Manifest, n: string, p: string)
    requires o.scan.Scanned?
    requires p in Files(ComparedPrior(cfg, s, o, m).sources, n)
    ensures p in Files(ScopedPrior(cfg, m).sources, n)
    ensures p in Files(m.sources, n)
    ensures Files(ComparedPrior(cfg, s, o, m).sources, n)[p] == Files(m.sources, n)[p]
    ensures Files(ScopedPrior(cfg, m).sources, n)[p] == Files(m.sources, n)[p]
  {
  }

  /** In recovery a push holds nothing: its scan must have settled. */
  lemma PreparedHoldsNothing(cfg: Config, s: Store, o: Observations, n: string)
    requires Prepare(cfg, s, o).Some? && Recovering(o)
    ensures Paths(Prepare(cfg, s, o).value.held, n) == {}
  {
    hide PriorOf, RefusesEarly, ComparedPrior, FrozenMap, WalkExcluded;
    assert HeldBefore(cfg, o.scan, n) == {};
  }

  lemma PreparedSetAside(cfg: Config, s: Store, o: Observations)
    requires WellFormed(cfg, o) && Prepare(cfg, s, o).Some?
    ensures SetAsideFromPrior(cfg, s, o, Prepare(cfg, s, o).value)
  {
    hide Walks, Loaded, DraftWithPrior, RefusesEarly, CarriesPrior, Keeps, StoredFilter, PriorOf;
    var d := Prepare(cfg, s, o).value;
    var prior := PriorOf(cfg, s, o);
    forall n, p | p in Files(d.sources, n) && (p in Paths(d.frozen, n) || p in Paths(d.held, n))
      ensures CarriesPrior(cfg, s, o, Files(d.sources, n), n, p)
      ensures Keeps(StoredFilter(s, o), Files(d.sources, n)[p])
    {
      if prior.Prior? {
        SetAsideOne(cfg, s, o, prior.manifest, d, n, p);
      } else {
        FirstSetsNothingAside(cfg, o, d, n, p);
      }
    }
  }

  /** Without a prior nothing that is published was frozen or held. */
  lemma FirstSetsNothingAside(cfg: Config, o: Observations, d: Draft, n: string, p: string)
    requires o.scan.Scanned? && DraftWithoutPrior(cfg, o) == Some(d) && p in Files(d.sources, n)
    ensures p !in Paths(d.frozen, n) && p !in Paths(d.held, n)
  {
    hide WalkExcluded, HeldBefore, CandidatesProven;
  }

  /** Freezing adds exactly the frozen paths, at the prior's entries. */
  lemma FreezeFiles(
    local: map<string, Source>, prior: Manifest, roots: PathsBySource, stored: Option<set<string>>, n: string,
    p: string)
    requires n in local
    ensures
      var r := Files(FreezeSources(local, prior, roots, stored), n);
      var frozen := Paths(FrozenMap(local, prior, roots, stored), n);
      && (p in r <==> p in local[n].files || p in frozen)
      && (p in local[n].files ==> p !in frozen && r[p] == local[n].files[p])
      && (p in frozen ==>
            && p in Files(prior.sources, n) && r[p] == Files(prior.sources, n)[p] && Keeps(stored, r[p])
            && UnderPrefix(p, Paths(roots, n)) && !IsTombstoned(n, p, prior.tombstones))
  {
    hide UnderPrefix, IsTombstoned;
  }

  /** Injection adds surviving held paths, at the prior's entries, and nothing else. */
  lemma InjectFiles(
    cfg: Config, local: map<string, Source>, prior: Option<Manifest>, scan: Scan, frozen: PathsBySource, n: string,
    p: string)
    requires n in local
    ensures
      var r := Files(InjectSources(cfg, local, prior, scan, frozen), n);
      var held := Paths(SurvivingMap(cfg, local, prior, scan, frozen), n);
      && (p in r <==> p in local[n].files || (p in held && p in Files(PriorSources(prior), n)))
      && (p in local[n].files ==> p !in held && r[p] == local[n].files[p])
      && (p in held ==>
            p !in Paths(frozen, n) && p in HeldBefore(cfg, scan, n) && !IsTombstoned(n, p, PriorTombstones(prior)))
      && (p in held && p in Files(PriorSources(prior), n) ==> r[p] == Files(PriorSources(prior), n)[p])
  {
    hide WalkExcluded, IsTombstoned, HeldBefore;
  }

  lemma SettledHoldsNothing(cfg: Config, scan: Scan, n: string)
    requires Settled(scan)
    ensures HeldBefore(cfg, scan, n) == {}
  {
  }

  /** Outside recovery a prior is the fetched manifest and no blob is demanded of it. */
  lemma NotRecoveringKeepsAll(cfg: Config, s: Store, o: Observations)
    requires WellFormed(cfg, o) && !Recovering(o) && PriorOf(cfg, s, o).Prior?
    ensures StoredFilter(s, o).None? && o.fetch.status == Ok
    ensures PriorOf(cfg, s, o).manifest == o.fetch.manifest.value
  {
  }

  /** The fetch read the canonical manifest `m` and no conflict copy. */
  function CanonicalFetch(m: Manifest): Fetch {
    Fetch(Ok, Some(m), None, false, false)
  }

  lemma CanonicalPrior(cfg: Config, s: Store, o: Observations, m: Manifest)
    requires o.fetch == CanonicalFetch(m)
    ensures PriorOf(cfg, s, o) == Prior(m) && !Recovering(o) && StoredFilter(s, o) == None
    ensures RemoteSources(o) == m.sources && RemoteTombstones(o) == m.tombstones
  {
  }

  /** The device's own record, readable. */
  predicate HasSidecar(cfg: Config, s: Store, o: Observations) {
    o.sidecarReadable && s.sidecar.Some? && s.sidecar.value.device == cfg.device
  }

  /** The push's prior by what its fetch read, the sidecar and the peers. */
  lemma PriorByReads(cfg: Config, s: Store, o: Observations, c: Codec, w: World)
    requires o.fetch == Classify(c, w) && c.hash == cfg.lib.contentHash
    ensures
      var copies := LoadedCopies(c, w);
      var anyCandidate := exists i :: 0 <= i < |w.candidates| && LoadsCandidate(c, w.candidates[i]);
      var anyValidated := exists i :: 0 <= i < |w.candidates| && Validates(c, w.candidates[i].validated);
      if !AnyNewer(Observed(c, w)) && (LoadsCanonical(c, w) || anyCandidate) then
        && copies != []
        && PriorOf(cfg, s, o) == Prior(if LoadsCanonical(c, w) || !HasSidecar(cfg, s, o) then Merge(c.hash, copies)
                                       else Merge(c.hash, [Merge(c.hash, copies), s.sidecar.value]))
      else if !AnyNewer(Observed(c, w)) && !w.canonicalExists && !anyValidated then PriorOf(cfg, s, o) == NoPrior
      else if HasSidecar(cfg, s, o) then PriorOf(cfg, s, o) == Prior(s.sidecar.value)
      else if o.peers != map[] then PriorOf(cfg, s, o) == Prior(Synthetic(cfg.device, o.peers))
      else PriorOf(cfg, s, o) == Abort
  {
    hide Classify, Observed, LoadedCopies, LoadsCanonical, LoadsCandidate, Validates, Merge, AnyNewer, RecoverPrior;
    RecoveryByReads(c, w, cfg.device, SidecarRead(cfg, s, o), o.peers);
  }

  lemma SetAsideOne(cfg: Config, s: Store, o: Observations, m: Manifest, d: Draft, n: string, p: string)
    requires WellFormed(cfg, o) && PriorOf(cfg, s, o) == Prior(m) && o.scan.Scanned?
    requires ScanAccepted(o.scan, Recovering(o))
    requires DraftWithPrior(cfg, s, o, m) == Some(d)
    requires p in Files(d.sources, n) && (p in Paths(d.frozen, n) || p in Paths(d.held, n))
    ensures CarriesPrior(cfg, s, o, Files(d.sources, n), n, p)
    ensures Keeps(StoredFilter(s, o), Files(d.sources, n)[p])
  {
    hide ScopedPrior, FilterSymlinked, DropUnfrozen, AbsenceProven, CandidatesProven, GenerateTombstones, RecoverPrior,
      WalkExcluded, UnderPrefix, FreezeSources, FrozenMap, InjectSources, SurvivingMap, HeldBefore, ScannedSources,
      IsTombstoned, Settled, ComparedPrior;
    var scoped := ScopedPrior(cfg, m);
    var scanned := ScannedSources(o.scan);
    var roots, stored := ScanRoots(o.scan), StoredFilter(s, o);
    var local := FreezeSources(scanned, scoped, roots, stored);
    DraftKeys(cfg, s, o, m, d);
    FreezeFiles(scanned, scoped, roots, stored, n, p);
    InjectFiles(cfg, local, d.prior, o.scan, d.frozen, n, p);
    if p in Paths(d.frozen, n) {
      ScopedPriorShrinks(cfg, m, n, p);
    } else {
      if Recovering(o) {
        SettledHoldsNothing(cfg, o.scan, n);
      }
      NotRecoveringKeepsAll(cfg, s, o);
      ComparedPriorShrinks(cfg, s, o, m, n, p);
    }
  }

  /** When no check refuses, the draft is the compared prior's. */
  lemma DraftAccepted(cfg: Config, s: Store, o: Observations, m: Manifest)
    requires PriorOf(cfg, s, o) == Prior(m) && o.fetch.newerVersion.None? && !LostSource(cfg, Prior(m))
    requires ScanAccepted(o.scan, Recovering(o)) && !o.linkProbeFails
    requires
      var local := FreezeSources(ScannedSources(o.scan), ScopedPrior(cfg, m), ScanRoots(o.scan), StoredFilter(s, o));
      var prior := ComparedPrior(cfg, s, o, m);
      var injected := InjectSources(cfg, local, Some(prior), o.scan, FrozenBy(cfg, s, o, m));
      CandidatesProven(cfg, local, Some(prior), o.scan, o.candidate)
      && AbsenceProven(cfg, injected, prior, o.omitted, o.root)
    ensures Prepare(cfg, s, o).Some?
    ensures
      var d := Prepare(cfg, s, o).value;
      var local := FreezeSources(ScannedSources(o.scan), ScopedPrior(cfg, m), ScanRoots(o.scan), StoredFilter(s, o));
      var prior := ComparedPrior(cfg, s, o, m);
      && d.sources == InjectSources(cfg, local, Some(prior), o.scan, FrozenBy(cfg, s, o, m))
      && d.prior == Some(prior) && d.frozen == FrozenBy(cfg, s, o, m)
      && d.held == SurvivingMap(cfg, local, Some(prior), o.scan, FrozenBy(cfg, s, o, m))
  {
    hide FreezeSources, ScannedSources, ScopedPrior, ScanRoots, StoredFilter, ComparedPrior, InjectSources, FrozenBy,
      CandidatesProven, AbsenceProven, SurvivingMap, GenerateTombstones, PriorOf, LostSource;
  }

  lemma DraftKeys(cfg: Config, s: Store, o: Observations, m: Manifest, d: Draft)
    requires o.scan.Scanned? && DraftWithPrior(cfg, s, o, m) == Some(d)
    ensures d.sources.Keys == o.scan.sources.Keys == ScannedSources(o.scan).Keys
    ensures d.sources.Keys ==
            FreezeSources(ScannedSources(o.scan), ScopedPrior(cfg, m), ScanRoots(o.scan), StoredFilter(s, o)).Keys
  {
    hide ScopedPrior, FilterSymlinked, DropUnfrozen, AbsenceProven, CandidatesProven, GenerateTombstones, ComparedPrior,
      FrozenSource, InjectedSource;
  }

  /** What the draft publishes for one path of a scanned source: the scanned entry, the
      scoped prior's entry when frozen, or the compared prior's entry when held. */
  lemma DraftFiles(cfg: Config, s: Store, o: Observations, m: Manifest, d: Draft, n: string, p: string)
    requires o.scan.Scanned? && DraftWithPrior(cfg, s, o, m) == Some(d) && n in o.scan.sources
    ensures d.frozen == FrozenBy(cfg, s, o, m) && d.prior == Some(ComparedPrior(cfg, s, o, m))
    ensures
      var scanned := o.scan.sources[n].files;
      var scoped := ScopedPrior(cfg, m);
      var r := Files(d.sources, n);
      && (p in r <==> p in scanned || p in Paths(d.frozen, n)
                      || (p in Paths(d.held, n) && p in Files(d.prior.value.sources, n)))
      && (p in scanned ==> p !in Paths(d.frozen, n) && p !in Paths(d.held, n) && r[p] == scanned[p])
      && (p in Paths(d.frozen, n) ==>
            p !in Paths(d.held, n) && p in Files(scoped.sources, n) && r[p] == Files(scoped.sources, n)[p])
      && (p in Paths(d.held, n) ==> p in HeldBefore(cfg, o.scan, n))
      && (p in Paths(d.held, n) && p in Files(d.prior.value.sources, n) ==>
            r[p] == Files(d.prior.value.sources, n)[p])
  {
    hide ScopedPrior, FilterSymlinked, DropUnfrozen, AbsenceProven, CandidatesProven, GenerateTombstones, RecoverPrior,
      WalkExcluded, UnderPrefix, FreezeSources, FrozenMap, InjectSources, SurvivingMap, HeldBefore, IsTombstoned,
      ComparedPrior;
    var scoped := ScopedPrior(cfg, m);
    var scanned := ScannedSources(o.scan);
    var roots, stored := ScanRoots(o.scan), StoredFilter(s, o);
    var local := FreezeSources(scanned, scoped, roots, stored);
    DraftKeys(cfg, s, o, m, d);
    FreezeFiles(scanned, scoped, roots, stored, n, p);
    InjectFiles(cfg, local, d.prior, o.scan, d.frozen, n, p);
  }

  /** Frozen, exactly: published in scope, no longer walked, below a checkout root, not
      tombstoned, and in recovery only with a stored blob. */
  lemma FrozenExactly(cfg: Config, s: Store, o: Observations, m: Manifest, n: string, p: string)
    requires o.scan.Scanned? && n in o.scan.sources
    ensures
      var scoped := ScopedPrior(cfg, m);
      p in Paths(FrozenBy(cfg, s, o, m), n) <==>
        && p in Files(scoped.sources, n)
        && p !in o.scan.sources[n].files && UnderPrefix(p, o.scan.sources[n].roots)
        && !IsTombstoned(n, p, scoped.tombstones) && Keeps(StoredFilter(s, o), Files(scoped.sources, n)[p])
  {
    hide ScopedPrior, UnderPrefix, IsTombstoned, Keeps, StoredFilter;
  }

  lemma ScopedPriorShrinks(cfg: Config, m: Manifest, n: string, p: string)
    requires p in Files(ScopedPrior(cfg, m).sources, n)
    ensures p in Files(m.sources, n) && Files(ScopedPrior(cfg, m).sources, n)[p] == Files(m.sources, n)[p]
    ensures n in Intended(cfg) && n !in RETIRED && !ConsumerExcluded(cfg, n, p)
  {
  }

  lemma RescannedSetAside(cfg: Config, s: Store, o: Observations, d: Draft, e: Draft)
    requires WellFormed(cfg, o) && Prepare(cfg, s, o) == Some(d) && Rescanned(cfg, o, d) == Some(e)
    ensures SetAsideFromPrior(cfg, s, o, e)
  {
    hide Prepare, Rescanned, CarriesPrior, StoredFilter, Keeps, AbsenceProven, WellFormed, GenerateTombstones;
    PreparedSetAside(cfg, s, o);
    if cfg.available.Keys * INTERNAL == {} {
      NoRescan(cfg, o, d);
    } else {
      RescanAccepted(cfg, o, d, e);
      forall n, p | p in Files(e.sources, n) && (p in Paths(e.frozen, n) || p in Paths(e.held, n))
        ensures CarriesPrior(cfg, s, o, Files(e.sources, n), n, p)
        ensures Keeps(StoredFilter(s, o), Files(e.sources, n)[p])
      {
        if n in o.rescan.sources {
          RescannedOne(cfg, s, o, d, e, n, p);
        } else {
          OutsideRescan(cfg, o, d, e, n);
        }
      }
    }
  }

  /** The rescan touches only the internal sources. */
  lemma OutsideRescan(cfg: Config, o: Observations, d: Draft, e: Draft, n: string)
    requires Rescanned(cfg, o, d) == Some(e)
    requires cfg.available.Keys * INTERNAL != {} ==> o.rescan.Scanned? && n !in o.rescan.sources
    ensures Files(e.sources, n) == Files(d.sources, n)
    ensures Paths(e.frozen, n) == Paths(d.frozen, n)
    ensures Paths(e.held, n) == Paths(d.held, n)
  {
    hide AbsenceProven, CandidatesProven, GenerateTombstones, RescannedFiles, RescannedFrozen, Surviving,
      InjectedSource;
  }

  /** What the rescan stage makes of one internal source. */
  lemma InsideRescan(cfg: Config, o: Observations, d: Draft, e: Draft, n: string, p: string)
    requires Rescanned(cfg, o, d) == Some(e)
    requires cfg.available.Keys * INTERNAL != {} && o.rescan.Scanned? && n in o.rescan.sources
    ensures
      var carried := RescannedFiles(o, d, n);
      && Paths(e.frozen, n) == RescannedFrozen(o, d, n)
      && (p in Files(e.sources, n) <==>
            p in carried || (p in Paths(e.held, n) && p in Files(PriorSources(d.prior), n)))
      && (p in carried ==> p !in Paths(e.held, n) && Files(e.sources, n)[p] == carried[p])
      && (p in Paths(e.held, n) ==> p !in Paths(e.frozen, n) && p in HeldBefore(cfg, o.rescan, n))
      && (p in Paths(e.held, n) && p in Files(PriorSources(d.prior), n) ==>
            Files(e.sources, n)[p] == Files(PriorSources(d.prior), n)[p])
  {
    hide AbsenceProven, CandidatesProven, GenerateTombstones, RescannedFiles, RescannedFrozen, Surviving,
      InjectedSource,
      HeldBefore, InjectSources, SurvivingMap;
    var events := RescannedSources(o, d);
    InjectFiles(cfg, events, d.prior, o.rescan, e.frozen, n, p);
    InjectedKeys(cfg, events, d.prior, o.rescan, e.frozen);
  }

  lemma FreezeKeys(local: map<string, Source>, prior: Manifest, roots: PathsBySource, stored: Option<set<string>>)
    ensures FreezeSources(local, prior, roots, stored).Keys == local.Keys
  {
  }

  lemma InjectedKeys(
    cfg: Config, local: map<string, Source>, prior: Option<Manifest>, scan: Scan, frozen: PathsBySource)
    ensures InjectSources(cfg, local, prior, scan, frozen).Keys == local.Keys
    ensures SurvivingMap(cfg, local, prior, scan, frozen).Keys == local.Keys
  {
  }

  /** A frozen path of a rescanned source is not one the rescan read, and keeps its entry. */
  lemma RescanFrozenEntry(o: Observations, d: Draft, n: string, p: string)
    requires o.rescan.Scanned? && n in o.rescan.sources
    requires p in RescannedFrozen(o, d, n) && p in RescannedFiles(o, d, n)
    ensures p !in o.rescan.sources[n].files && p in Files(d.sources, n)
    ensures RescannedFiles(o, d, n)[p] == Files(d.sources, n)[p]
    ensures p in Paths(d.frozen, n) || p in Paths(d.held, n)
  {
    hide UnderPrefix;
  }

  lemma RescannedOne(cfg: Config, s: Store, o: Observations, d: Draft, e: Draft, n: string, p: string)
    requires WellFormed(cfg, o) && Prepare(cfg, s, o) == Some(d) && Rescanned(cfg, o, d) == Some(e)
    requires SetAsideFromPrior(cfg, s, o, d)
    requires cfg.available.Keys * INTERNAL != {} && n in o.rescan.sources
    requires p in Files(e.sources, n) && (p in Paths(e.frozen, n) || p in Paths(e.held, n))
    ensures CarriesPrior(cfg, s, o, Files(e.sources, n), n, p)
    ensures Keeps(StoredFilter(s, o), Files(e.sources, n)[p])
  {
    hide Prepare, Rescanned, RescannedFiles, RescannedFrozen, HeldBefore, ComparedPrior, Settled, PriorOf, Keeps,
      StoredFilter;
    RescanAccepted(cfg, o, d, e);
    InsideRescan(cfg, o, d, e, n, p);
    if p in Paths(e.frozen, n) {
      RescanFrozenEntry(o, d, n, p);
    } else {
      RescannedHeldOne(cfg, s, o, d, e, n, p);
    }
  }

  lemma RescannedHeldOne(cfg: Config, s: Store, o: Observations, d: Draft, e: Draft, n: string, p: string)
    requires WellFormed(cfg, o) && Prepare(cfg, s, o) == Some(d) && Rescanned(cfg, o, d) == Some(e)
    requires cfg.available.Keys * INTERNAL != {} && o.rescan.Scanned? && n in o.rescan.sources
    requires p in Files(e.sources, n) && p in Paths(e.held, n)
    ensures CarriesPrior(cfg, s, o, Files(e.sources, n), n, p)
    ensures Keeps(StoredFilter(s, o), Files(e.sources, n)[p])
  {
    hide Prepare, Rescanned, RescannedFiles, RescannedFrozen, HeldBefore, ComparedPrior, Settled, PriorOf;
    RescanAccepted(cfg, o, d, e);
    InsideRescan(cfg, o, d, e, n, p);
    if Recovering(o) {
      SettledHoldsNothing(cfg, o.rescan, n);
    }
    PreparedPrior(cfg, s, o, d);
    if PriorOf(cfg, s, o).Prior? {
      NotRecoveringKeepsAll(cfg, s, o);
      ComparedPriorShrinks(cfg, s, o, PriorOf(cfg, s, o).manifest, n, p);
    }
  }

  lemma RescanAccepted(cfg: Config, o: Observations, d: Draft, e: Draft)
    requires Rescanned(cfg, o, d) == Some(e) && cfg.available.Keys * INTERNAL != {}
    ensures ScanAccepted(o.rescan, Recovering(o)) && e.prior == d.prior
    ensures e.sources.Keys == d.sources.Keys + o.rescan.sources.Keys
    ensures d.prior.Some? ==> AbsenceProven(cfg, e.sources, d.prior.value, o.omittedAgain, o.rootAgain)
    ensures e.tombstones == GenerateTombstones(cfg.lib.instant, e.sources, d.prior, o.clocks.1, cfg.device)
  {
    hide AbsenceProven, CandidatesProven, GenerateTombstones, RescannedFiles, FrozenAfter, HeldAfter, InjectedSource;
  }

  /** The draft's prior is the compared prior of the recovered one, or none. */
  lemma PreparedPrior(cfg: Config, s: Store, o: Observations, d: Draft)
    requires Prepare(cfg, s, o) == Some(d)
    ensures o.scan.Scanned?
    ensures PriorOf(cfg, s, o).Prior? ==> d.prior == Some(ComparedPrior(cfg, s, o, PriorOf(cfg, s, o).manifest))
    ensures !PriorOf(cfg, s, o).Prior? ==> d.prior == None && PriorOf(cfg, s, o).NoPrior?
    ensures d.sources.Keys == o.scan.sources.Keys
  {
  }

  /** A draft that is published passed both stages. */
  lemma PublishedDraft(cfg: Config, s: Store, o: Observations) returns (d: Draft, e: Draft)
    requires Decide(cfg, s, o).Publishes?
    ensures Prepare(cfg, s, o) == Some(d) && Rescanned(cfg, o, d) == Some(e) && Decide(cfg, s, o) == Publishes(e)
    ensures !AnyUploadRefuses(cfg, o, e) && !o.newerAtEnd
    ensures Substantive(cfg, s, o, d)
  {
    d := Prepare(cfg, s, o).value;
    e := Rescanned(cfg, o, d).value;
  }

  // ---- the three origins of a published entry ---------------------------------

  /** What the last walk of source `n` read: the rescan for an internal source. */
  function LastWalk(cfg: Config, o: Observations, n: string): map<string, Entry> {
    var scan := if n in cfg.available.Keys * INTERNAL then o.rescan else o.scan;
    if scan.Scanned? && n in scan.sources then scan.sources[n].files else map[]
  }

  /** The first draft's files outside its frozen and held sets are exactly the walk's. */
  lemma DraftIsWalked(cfg: Config, s: Store, o: Observations, d: Draft, n: string, p: string)
    requires WellFormed(cfg, o) && Prepare(cfg, s, o) == Some(d) && n in cfg.available
    ensures o.scan.Scanned? && n in o.scan.sources
    ensures p in o.scan.sources[n].files <==>
            p in Files(d.sources, n) && p !in Paths(d.frozen, n) && p !in Paths(d.held, n)
    ensures p in o.scan.sources[n].files ==> Files(d.sources, n)[p] == o.scan.sources[n].files[p]
  {
    hide PriorOf, DraftWithPrior, DraftWithoutPrior, RefusesEarly, ComparedPrior, ScopedPrior, FrozenMap, HeldBefore;
    var prior := PriorOf(cfg, s, o);
    if prior.Prior? {
      DraftFiles(cfg, s, o, prior.manifest, d, n, p);
    } else {
      FirstDraftIsWalked(cfg, o, d, n, p);
    }
  }

  lemma FirstDraftIsWalked(cfg: Config, o: Observations, d: Draft, n: string, p: string)
    requires o.scan.Scanned? && n in o.scan.sources && DraftWithoutPrior(cfg, o) == Some(d)
    ensures p in o.scan.sources[n].files <==>
            p in Files(d.sources, n) && p !in Paths(d.frozen, n) && p !in Paths(d.held, n)
    ensures p in o.scan.sources[n].files ==> Files(d.sources, n)[p] == o.scan.sources[n].files[p]
  {
    hide CandidatesProven, InjectSources, SurvivingMap, HeldBefore, IsTombstoned;
    var local := ScannedSources(o.scan);
    InjectFiles(cfg, local, None, o.scan, map[], n, p);
  }

  /** After the rescan too: outside the frozen and held sets the draft has exactly the
      files of the last walk, each with the entry that walk recorded. */
  lemma DraftIsLastWalk(cfg: Config, s: Store, o: Observations, d: Draft, e: Draft, n: string, p: string)
    requires WellFormed(cfg, o) && Prepare(cfg, s, o) == Some(d) && Rescanned(cfg, o, d) == Some(e)
    requires n in cfg.available
    ensures p in LastWalk(cfg, o, n) <==>
            p in Files(e.sources, n) && p !in Paths(e.frozen, n) && p !in Paths(e.held, n)
    ensures p in LastWalk(cfg, o, n) ==> Files(e.sources, n)[p] == LastWalk(cfg, o, n)[p]
  {
    hide Prepare, Rescanned, RescannedFiles, RescannedFrozen, HeldBefore;
    DraftIsWalked(cfg, s, o, d, n, p);
    if cfg.available.Keys * INTERNAL != {} {
      RescanAccepted(cfg, o, d, e);
    }
    if n in INTERNAL {
      assert n in cfg.available.Keys * INTERNAL;
      InsideRescan(cfg, o, d, e, n, p);
      CarriedIsWalked(o, d, n, p);
    } else {
      OutsideRescan(cfg, o, d, e, n);
    }
  }

  /** What the rescan carries is what it read, or frozen. */
  lemma CarriedIsWalked(o: Observations, d: Draft, n: string, p: string)
    requires o.rescan.Scanned? && n in o.rescan.sources
    ensures
      var walked := o.rescan.sources[n].files;
      && (p in walked <==> p in RescannedFiles(o, d, n) && p !in RescannedFrozen(o, d, n))
      && (p in walked ==> RescannedFiles(o, d, n)[p] == walked[p])
  {
    hide UnderPrefix;
  }

  /** The read is the revision `info` describes: its digest, its size, and its mtime as text
      or as an instant. */
  predicate ReadAsScanned(lib: Library, r: Reading, info: Entry) {
    && r.Revision? && info.mtime.Some?
    && lib.digest(r.data) == info.sha && |r.data| == info.size
    && (r.mtime == info.mtime.value
        || (lib.mtimeOf(r.mtime).Some? && lib.mtimeOf(info.mtime.value) == lib.mtimeOf(r.mtime)))
  }

  /** Published at the entry the last walk of the source recorded, neither frozen nor held;
      if it was uploaded, the read then had that digest, size and mtime, and if not, the
      fetched manifest already had the digest. */
  predicate FromScan(cfg: Config, o: Observations, e: Draft, n: string, p: string, entry: Entry) {
    var b := BatchOf(o, e, n);
    && p in LastWalk(cfg, o, n) && LastWalk(cfg, o, n)[p] == entry
    && p !in Paths(e.frozen, n) && p !in Paths(e.held, n)
    && (if p in b.files then
          ReadAsScanned(cfg.lib, o.first(n, p), entry) && At(cfg.lib, b, p) == AsScanned(o.first(n, p).data)
        else p in Files(RemoteSources(o), n) && Files(RemoteSources(o), n)[p].sha == entry.sha)
  }

  /** A settled second read, put and published under its own digest. */
  predicate FromSecondRead(cfg: Config, o: Observations, e: Draft, n: string, p: string, entry: Entry) {
    var b := BatchOf(o, e, n);
    p in b.files && At(cfg.lib, b, p).Patched? && At(cfg.lib, b, p).entry == entry
    && cfg.lib.digest(At(cfg.lib, b, p).data) == entry.sha
  }

  /** An accepted prior entry: the fetched one, or the recovered one with its blob kept. */
  predicate FromPrior(cfg: Config, s: Store, o: Observations, n: string, p: string, entry: Entry) {
    || (p in Files(RemoteSources(o), n) && Files(RemoteSources(o), n)[p] == entry)
    || (PriorOf(cfg, s, o).Prior? && p in Files(PriorOf(cfg, s, o).manifest.sources, n)
        && Files(PriorOf(cfg, s, o).manifest.sources, n)[p] == entry && Keeps(StoredFilter(s, o), entry))
  }

  /** Every published entry has one of the three origins. */
  lemma PublishedOrigin(cfg: Config, s: Store, o: Observations, e: Draft, n: string, p: string)
    requires WellFormed(cfg, o) && Decide(cfg, s, o) == Publishes(e)
    requires p in Files(FinalManifest(cfg, o, e).sources, n)
    ensures
      var entry := Files(FinalManifest(cfg, o, e).sources, n)[p];
      || FromScan(cfg, o, e, n, p, entry)
      || FromSecondRead(cfg, o, e, n, p, entry)
      || FromPrior(cfg, s, o, n, p, entry)
  {
    var d, e' := PublishedDraft(cfg, s, o);
    PublishedKeys(cfg, s, o, d, e);
    RescannedSetAside(cfg, s, o, d, e);
    DraftIsLastWalk(cfg, s, o, d, e, n, p);
    OriginOfUploaded(cfg, s, o, e, n, p);
  }

  /** A published draft names exactly the available sources. */
  lemma PublishedKeys(cfg: Config, s: Store, o: Observations, d: Draft, e: Draft)
    requires WellFormed(cfg, o) && Prepare(cfg, s, o) == Some(d) && Rescanned(cfg, o, d) == Some(e)
    ensures e.sources.Keys == cfg.available.Keys
  {
    hide Prepare, Rescanned, PriorOf;
    PreparedPrior(cfg, s, o, d);
    if cfg.available.Keys * INTERNAL != {} {
      RescanAccepted(cfg, o, d, e);
    } else {
      NoRescan(cfg, o, d);
    }
  }

  lemma NoRescan(cfg: Config, o: Observations, d: Draft)
    requires cfg.available.Keys * INTERNAL == {}
    ensures Rescanned(cfg, o, d) == Some(d)
  {
  }

  /** One file of the final manifest, by what its upload did. */
  lemma UploadedEntry(cfg: Config, o: Observations, e: Draft, n: string, p: string)
    requires p in UploadedFiles(cfg, o, e, n)
    ensures
      var b := BatchOf(o, e, n);
      var entry := UploadedFiles(cfg, o, e, n)[p];
      if p in b.files && At(cfg.lib, b, p).HeldBack? then
        p in Files(RemoteSources(o), n) && entry == Files(RemoteSources(o), n)[p]
      else if p in b.files && At(cfg.lib, b, p).Patched? then entry == At(cfg.lib, b, p).entry
      else p in Files(e.sources, n) && entry == Files(e.sources, n)[p]
  {
    hide At, ToUpload;
  }

  /** The published files, exactly, by what the upload did with each: a held one goes back
      to the fetched entry or out, a patched one has its second read's entry, every other
      one stays as drafted. */
  lemma UploadedExactly(cfg: Config, o: Observations, e: Draft, n: string, p: string)
    requires !BatchFatal(cfg.lib, BatchOf(o, e, n))
    ensures
      var b := BatchOf(o, e, n);
      var remote := Files(RemoteSources(o), n);
      var r := UploadedFiles(cfg, o, e, n);
      if p in HeldUploads(cfg.lib, b) then
        && (p in r <==> p in remote && !IsTombstoned(n, p, RemoteTombstones(o)))
        && (p in r ==> r[p] == remote[p])
      else if p in Patches(cfg.lib, b) then
        p in r && b.second(p).Revision? && r[p] == EntryOf(cfg.lib, b.second(p))
      else
        (p in r <==> p in Files(e.sources, n)) && (p in r ==> r[p] == Files(e.sources, n)[p])
  {
    hide ToUpload, IsTombstoned, MatchesScan;
    if p in BatchOf(o, e, n).files {
      UploadSplits(cfg.lib, BatchOf(o, e, n), p);
    }
  }

  lemma VerifiedUpload(cfg: Config, o: Observations, e: Draft, n: string, p: string)
    requires p in BatchOf(o, e, n).files && !AnyUploadRefuses(cfg, o, e) && n in e.sources
    ensures
      var b := BatchOf(o, e, n);
      var u := At(cfg.lib, b, p);
      && !u.Fatal?
      && (u.AsScanned? ==> u == AsScanned(b.first(p).data) && ReadAsScanned(cfg.lib, b.first(p), b.files[p]))
      && (u.Patched? ==> cfg.lib.digest(u.data) == u.entry.sha)
  {
    assert !UploadRefuses(cfg, o, e, n);
  }

  lemma OriginOfUploaded(cfg: Config, s: Store, o: Observations, e: Draft, n: string, p: string)
    requires SetAsideFromPrior(cfg, s, o, e) && !AnyUploadRefuses(cfg, o, e)
    requires n in e.sources && p in UploadedFiles(cfg, o, e, n)
    requires p in LastWalk(cfg, o, n) <==>
             p in Files(e.sources, n) && p !in Paths(e.frozen, n) && p !in Paths(e.held, n)
    requires p in LastWalk(cfg, o, n) ==> Files(e.sources, n)[p] == LastWalk(cfg, o, n)[p]
    ensures
      var entry := UploadedFiles(cfg, o, e, n)[p];
      || FromScan(cfg, o, e, n, p, entry)
      || FromSecondRead(cfg, o, e, n, p, entry)
      || FromPrior(cfg, s, o, n, p, entry)
  {
    hide PriorOf, AnyUploadRefuses, At, UploadedFiles, StoredFilter, Keeps, LastWalk;
    UploadedEntry(cfg, o, e, n, p);
    if p in BatchOf(o, e, n).files {
      VerifiedUpload(cfg, o, e, n, p);
    } else if p in Paths(e.frozen, n) || p in Paths(e.held, n) {
      assert CarriesPrior(cfg, s, o, Files(e.sources, n), n, p);
    }
  }

  /** The reads of one file end its push: an error at either read, or bytes that do not
      settle when nothing may be held. */
  predicate ReadsFail(lib: Library, allowHold: bool, info: Entry, first: Reading, second: Reading) {
    || first.Refusal?
    || (!ReadAsScanned(lib, first, info)
        && (second.Refusal? || (!allowHold && (second.Transient? || second.TooLarge?))))
  }

  /** The upload refuses exactly when some file's reads fail. */
  lemma FatalExactly(lib: Library, b: Batch)
    ensures BatchFatal(lib, b) <==>
      exists p | p in b.files :: ReadsFail(lib, b.allowHold, b.files[p], b.first(p), b.second(p))
  {
    if BatchFatal(lib, b) {
      var p :| p in b.files && At(lib, b, p).Fatal?;
      assert ReadsFail(lib, b.allowHold, b.files[p], b.first(p), b.second(p));
    }
    if p :| p in b.files && ReadsFail(lib, b.allowHold, b.files[p], b.first(p), b.second(p)) {
      assert At(lib, b, p).Fatal?;
    }
  }

  /** Otherwise it splits its input in three by the reads: stored as scanned, patched to a
      settled second read, and held because neither read settled. */
  lemma UploadSplits(lib: Library, b: Batch, p: string)
    requires !BatchFatal(lib, b) && p in b.files
    ensures p in Patches(lib, b) ==> p !in HeldUploads(lib, b)
    ensures p !in Patches(lib, b) && p !in HeldUploads(lib, b) <==> ReadAsScanned(lib, b.first(p), b.files[p])
    ensures ReadAsScanned(lib, b.first(p), b.files[p]) ==> At(lib, b, p) == AsScanned(b.first(p).data)
    ensures p in DeferredPaths(lib, b) <==> !ReadAsScanned(lib, b.first(p), b.files[p])
    ensures p in Patches(lib, b) ==>
      var r := b.second(p);
      r.Revision? && Patches(lib, b)[p] == Entry(lib.digest(r.data), |r.data|, Some(r.mtime))
      && At(lib, b, p) == Patched(r.data, Patches(lib, b)[p])
    ensures p in HeldUploads(lib, b) ==>
      && b.allowHold && (b.second(p).Transient? || b.second(p).TooLarge?)
      && HeldUploads(lib, b)[p] == if b.second(p).TooLarge? then Grew else b.second(p).reason
  {
    assert !At(lib, b, p).Fatal?;
  }

  /** `x` is the verified revision that file `q` is published at. */
  predicate PutFor(lib: Library, b: Batch, q: string, x: Bytes) {
    && q in b.files && q !in HeldUploads(lib, b)
    && (if q in Patches(lib, b)
        then b.second(q).Revision? && b.second(q).data == x && lib.digest(x) == Patches(lib, b)[q].sha
        else b.first(q).Revision? && b.first(q).data == x && lib.digest(x) == b.files[q].sha)
  }

  /** Every byte string the upload puts is such a revision; nothing is put for a held file. */
  lemma PutsAreVerified(lib: Library, b: Batch, x: Bytes) returns (q: string)
    requires !BatchFatal(lib, b) && x in Puts(lib, b)
    ensures PutFor(lib, b, q, x)
  {
    q :| q in b.files && (At(lib, b, q).AsScanned? || At(lib, b, q).Patched?) && At(lib, b, q).data == x;
    UploadSplits(lib, b, q);
  }

  // ---- every published entry is stored ------------------------------------------

  /** Every stored blob has the digest it is stored under. */
  ghost predicate WellKeyed(lib: Library, blobs: map<string, Bytes>) {
    forall k | k in blobs :: lib.digest(blobs[k]) == k
  }

  lemma GrownStaysWellKeyed(lib: Library, before: map<string, Bytes>, after: map<string, Bytes>, data: set<Bytes>)
    requires WellKeyed(lib, before) && Grown(lib, before, after, data)
    ensures WellKeyed(lib, after)
    ensures forall sources :: Backed(lib, sources, before) ==> Backed(lib, sources, after)
  {
  }

  /** If every fetched entry has its blob, so has every entry the push publishes. */
  lemma PublishedIsBacked(cfg: Config, s: Store, o: Observations, e: Draft, blobs: map<string, Bytes>)
    requires WellFormed(cfg, o) && Decide(cfg, s, o) == Publishes(e)
    requires WellKeyed(cfg.lib, s.blobs)
    requires Backed(cfg.lib, RemoteSources(o), s.blobs)
    requires Grown(cfg.lib, s.blobs, blobs, AllPuts(cfg, o, e)) && HasAll(cfg.lib, blobs, AllPuts(cfg, o, e))
    ensures Backed(cfg.lib, FinalManifest(cfg, o, e).sources, blobs)
  {
    var final := FinalManifest(cfg, o, e).sources;
    forall n, p | n in final && p in final[n].files
      ensures final[n].files[p].sha in blobs && cfg.lib.digest(blobs[final[n].files[p].sha]) == final[n].files[p].sha
    {
      assert p in Files(final, n);
      PublishedOrigin(cfg, s, o, e, n, p);
      OriginIsStored(cfg, s, o, e, n, p, final[n].files[p], blobs);
    }
  }

  lemma OriginIsStored(
    cfg: Config, s: Store, o: Observations, e: Draft, n: string, p: string, entry: Entry, blobs: map<string, Bytes>)
    requires WellFormed(cfg, o) && n in e.sources
    requires WellKeyed(cfg.lib, s.blobs)
    requires Backed(cfg.lib, RemoteSources(o), s.blobs)
    requires Grown(cfg.lib, s.blobs, blobs, AllPuts(cfg, o, e)) && HasAll(cfg.lib, blobs, AllPuts(cfg, o, e))
    requires
      || FromScan(cfg, o, e, n, p, entry)
      || FromSecondRead(cfg, o, e, n, p, entry)
      || FromPrior(cfg, s, o, n, p, entry)
    ensures entry.sha in blobs && cfg.lib.digest(blobs[entry.sha]) == entry.sha
  {
    var b := BatchOf(o, e, n);
    if p in b.files && (At(cfg.lib, b, p).AsScanned? || At(cfg.lib, b, p).Patched?) {
      var data := At(cfg.lib, b, p).data;
      assert data in Puts(cfg.lib, b);
      assert data in AllPuts(cfg, o, e);
      assert HasBlob(cfg.lib, blobs, data);
    }
    FetchedOrKept(cfg, s, o, n, p, entry);
  }

  lemma FetchedOrKept(cfg: Config, s: Store, o: Observations, n: string, p: string, entry: Entry)
    requires WellFormed(cfg, o)
    requires WellKeyed(cfg.lib, s.blobs)
    requires Backed(cfg.lib, RemoteSources(o), s.blobs)
    ensures FromPrior(cfg, s, o, n, p, entry) ==>
      entry.sha in s.blobs && cfg.lib.digest(s.blobs[entry.sha]) == entry.sha
    ensures p in Files(RemoteSources(o), n) ==>
      Files(RemoteSources(o), n)[p].sha in s.blobs
      && cfg.lib.digest(s.blobs[Files(RemoteSources(o), n)[p].sha]) == Files(RemoteSources(o), n)[p].sha
  {
    if FromPrior(cfg, s, o, n, p, entry) && StoredFilter(s, o).None? {
      assert PriorOf(cfg, s, o) == Prior(o.fetch.manifest.value);
    }
  }
}
