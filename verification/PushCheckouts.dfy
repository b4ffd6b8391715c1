/** Nested checkouts: entries below a checkout root stay published exactly as they were
    while the checkout covers them, and are tombstoned once it is gone. */
module PushCheckouts {
  import opened Manifests
  import opened RemoteFetch
  import opened PushStages
  import opened PushSafety
  import opened PushTombstones
  import opened PushRun
  import opened PushLooks

  /** Neither walk read the path. */
  predicate Unread(cfg: Config, o: Observations, n: string, p: string)
    requires WellFormed(cfg, o) && o.scan.Scanned? && n in cfg.available
  {
    && p !in o.scan.sources[n].files
    && (n in INTERNAL && o.rescan.Scanned? ==> p !in o.rescan.sources[n].files)
  }

  /** Published by the prior in scope, below a checkout root of the walk, not tombstoned
      there in scope, and in recovery with its blob stored. */
  predicate Covered(cfg: Config, s: Store, o: Observations, m: Manifest, n: string, p: string)
    requires WellFormed(cfg, o) && o.scan.Scanned? && n in cfg.available
  {
    && p in Files(m.sources, n) && InScope(cfg, n, p)
    && UnderPrefix(p, o.scan.sources[n].roots)
    && !IsTombstoned(n, p, ScopedPrior(cfg, m).tombstones) && Keeps(StoredFilter(s, o), Files(m.sources, n)[p])
  }

  lemma CoveredIsFrozen(cfg: Config, s: Store, o: Observations, m: Manifest, n: string, p: string)
    requires WellFormed(cfg, o) && o.scan.Scanned? && n in cfg.available
    requires p !in o.scan.sources[n].files && UnderPrefix(p, o.scan.sources[n].roots)
    ensures p in Paths(FrozenBy(cfg, s, o, m), n) <==> Covered(cfg, s, o, m, n, p)
  {
    hide ConsumerExcluded, UnderPrefix, Keeps, StoredFilter, InScope, FrozenMap;
    FrozenExactly(cfg, s, o, m, n, p);
    ScopedPublishes(cfg, m, n, p);
  }

  /** The first draft keeps an unread path below a root exactly when it is covered. */
  lemma CoveredInDraft(cfg: Config, s: Store, o: Observations, m: Manifest, d: Draft, n: string, p: string)
    requires WellFormed(cfg, o) && Prepare(cfg, s, o) == Some(d) && PriorOf(cfg, s, o) == Prior(m)
    requires o.scan.Scanned? && n in cfg.available
    requires p !in o.scan.sources[n].files && UnderPrefix(p, o.scan.sources[n].roots)
    ensures d.prior == Some(ComparedPrior(cfg, s, o, m))
    ensures p in Files(d.sources, n) <==> Covered(cfg, s, o, m, n, p)
    ensures p in Paths(d.frozen, n) <==> Covered(cfg, s, o, m, n, p)
    ensures Covered(cfg, s, o, m, n, p) ==> Files(d.sources, n)[p] == Files(m.sources, n)[p]
    ensures !Covered(cfg, s, o, m, n, p) ==> p !in Files(d.prior.value.sources, n)
  {
    hide ConsumerExcluded, UnderPrefix, InScope, ComparedPrior, PriorOf, RefusesEarly, DraftWithPrior, ScopedPrior,
      Covered, FrozenMap, HeldBefore;
    DraftFiles(cfg, s, o, m, d, n, p);
    CoveredIsFrozen(cfg, s, o, m, n, p);
    ComparedPublishes(cfg, s, o, m, n, p);
    ScopedPublishes(cfg, m, n, p);
  }

  lemma CoveredAfterRescan(
    cfg: Config, s: Store, o: Observations, m: Manifest, d: Draft, e: Draft, n: string, p: string)
    requires WellFormed(cfg, o) && Prepare(cfg, s, o) == Some(d) && PriorOf(cfg, s, o) == Prior(m)
    requires Rescanned(cfg, o, d) == Some(e)
    requires o.scan.Scanned? && n in cfg.available && Unread(cfg, o, n, p)
    requires UnderPrefix(p, o.scan.sources[n].roots)
    ensures p in Files(e.sources, n) <==> Covered(cfg, s, o, m, n, p)
    ensures Covered(cfg, s, o, m, n, p) ==>
      p in Paths(e.frozen, n) && Files(e.sources, n)[p] == Files(m.sources, n)[p]
  {
    hide Prepare, PriorOf, Rescanned, ComparedPrior, HeldBefore, UnderPrefix, Covered, ScanAccepted;
    CoveredInDraft(cfg, s, o, m, d, n, p);
    if cfg.available.Keys * INTERNAL != {} {
      RescanAccepted(cfg, o, d, e);
      RescanScanned(o);
    }
    if n in INTERNAL {
      assert n in cfg.available.Keys * INTERNAL;
      InsideRescan(cfg, o, d, e, n, p);
      CarriedUnread(o, d, n, p);
    } else {
      OutsideRescan(cfg, o, d, e, n);
    }
  }

  lemma RescanScanned(o: Observations)
    requires ScanAccepted(o.rescan, Recovering(o))
    ensures o.rescan.Scanned?
  {
  }

  lemma CarriedUnread(o: Observations, d: Draft, n: string, p: string)
    requires o.rescan.Scanned? && n in o.rescan.sources && p !in o.rescan.sources[n].files
    requires p in Files(d.sources, n) <==> p in Paths(d.frozen, n)
    ensures p in RescannedFiles(o, d, n) <==> p in Paths(d.frozen, n)
    ensures p in Paths(d.frozen, n) ==>
      p in RescannedFrozen(o, d, n) && RescannedFiles(o, d, n)[p] == Files(d.sources, n)[p]
  {
    hide UnderPrefix;
  }

  /** While a checkout covers published entries the push republishes exactly those, with
      their old entries, uploads none of them and tombstones none of them. */
  lemma CoveredIsRepublished(cfg: Config, s: Store, o: Observations, m: Manifest, e: Draft, n: string, p: string)
    requires WellFormed(cfg, o) && Decide(cfg, s, o) == Publishes(e) && PriorOf(cfg, s, o) == Prior(m)
    requires n in cfg.available
    requires o.scan.Scanned? && Unread(cfg, o, n, p) && UnderPrefix(p, o.scan.sources[n].roots)
    ensures
      var final := FinalManifest(cfg, o, e);
      && (p in Files(final.sources, n) <==> Covered(cfg, s, o, m, n, p))
      && (Covered(cfg, s, o, m, n, p) ==>
            && Files(final.sources, n)[p] == Files(m.sources, n)[p]
            && p !in ToUpload(o, e, n) && Key(n, p) !in final.tombstones)
  {
    hide Decide, PriorOf, Covered, Unread, UnderPrefix, LiveKeys, GenerateTombstones, FinalTombstones, NoLiveTombstone,
      ChangedPaths;
    var d, e' := PublishedDraft(cfg, s, o);
    CoveredAfterRescan(cfg, s, o, m, d, e, n, p);
    PublishedSources(cfg, s, o, e);
    NotUploaded(cfg, o, e, n, p);
    NothingLiveTombstoned(cfg, s, o, e);
    if Covered(cfg, s, o, m, n, p) {
      NotTombstoned(FinalManifest(cfg, o, e), n, p);
    }
  }

  /** The upload leaves a frozen or held path alone and invents none. */
  lemma NotUploaded(cfg: Config, o: Observations, e: Draft, n: string, p: string)
    requires p in Paths(e.frozen, n) || p in Paths(e.held, n) || p !in Files(e.sources, n)
    ensures p !in ToUpload(o, e, n)
    ensures p in UploadedFiles(cfg, o, e, n) <==> p in Files(e.sources, n)
    ensures p in Files(e.sources, n) ==> UploadedFiles(cfg, o, e, n)[p] == Files(e.sources, n)[p]
  {
    hide At;
  }

  lemma NotTombstoned(m: Manifest, n: string, p: string)
    requires NoLiveTombstone(m) && p in Files(m.sources, n)
    ensures Key(n, p) !in m.tombstones
  {
    assert Key(n, p) in LiveKeys(m.sources);
  }

  // ---- checkouts that only the rescan found --------------------------------------

  /** The rescan of an internal source found a checkout over the path; the first walk did not. */
  predicate LateRoot(cfg: Config, o: Observations, n: string, p: string)
    requires WellFormed(cfg, o) && o.scan.Scanned? && n in cfg.available
  {
    && n in INTERNAL && o.rescan.Scanned? && UnderPrefix(p, o.rescan.sources[n].roots)
    && !UnderPrefix(p, o.scan.sources[n].roots)
  }

  /** The walk held the path, and nothing about it lets it go. */
  predicate WaitsFor(cfg: Config, scan: Scan, prior: Manifest, n: string, p: string) {
    p in HeldBefore(cfg, scan, n) && !WalkExcluded(cfg, n, p) && !IsTombstoned(n, p, prior.tombstones)
  }

  lemma HeldExactly(cfg: Config, s: Store, o: Observations, m: Manifest, d: Draft, n: string, p: string)
    requires Prepare(cfg, s, o) == Some(d) && PriorOf(cfg, s, o) == Prior(m)
    requires o.scan.Scanned? && n in o.scan.sources
    ensures d.prior == Some(ComparedPrior(cfg, s, o, m))
    ensures p in Paths(d.held, n) <==>
      p !in o.scan.sources[n].files && p !in Paths(d.frozen, n) && WaitsFor(cfg, o.scan, d.prior.value, n, p)
  {
    hide PriorOf, Prepare, ScopedPrior, ComparedPrior, FrozenMap, FreezeSources, InjectSources, HeldBefore,
      WalkExcluded,
      IsTombstoned, AbsenceProven, CandidatesProven, GenerateTombstones, StoredFilter;
    PreparedWithPrior(cfg, s, o, m, d);
    DraftKeys(cfg, s, o, m, d);
    FreezeFiles(ScannedSources(o.scan), ScopedPrior(cfg, m), ScanRoots(o.scan), StoredFilter(s, o), n, p);
  }

  lemma HeldAgainExactly(cfg: Config, o: Observations, d: Draft, e: Draft, n: string, p: string)
    requires Rescanned(cfg, o, d) == Some(e) && d.prior.Some?
    requires cfg.available.Keys * INTERNAL != {} && o.rescan.Scanned? && n in o.rescan.sources
    ensures p in Paths(e.held, n) <==>
      p !in RescannedFiles(o, d, n) && p !in RescannedFrozen(o, d, n) && WaitsFor(cfg, o.rescan, d.prior.value, n, p)
  {
    hide AbsenceProven, CandidatesProven, GenerateTombstones, RescannedFiles, RescannedFrozen, InjectSources,
      HeldBefore,
      WalkExcluded, IsTombstoned;
  }

  /** A late root keeps what the first stage held and published, and nothing else. */
  lemma LateRootCarries(o: Observations, d: Draft, n: string, p: string)
    requires o.rescan.Scanned? && n in o.rescan.sources && p !in o.rescan.sources[n].files
    requires p !in Paths(d.frozen, n) && UnderPrefix(p, o.rescan.sources[n].roots)
    ensures p in RescannedFiles(o, d, n) <==> p in Paths(d.held, n) && p in Files(d.sources, n)
    ensures p in RescannedFrozen(o, d, n) <==> p in RescannedFiles(o, d, n)
    ensures p in RescannedFiles(o, d, n) ==> RescannedFiles(o, d, n)[p] == Files(d.sources, n)[p]
  {
    assert UnderPrefix(p, BothRoots(o, n)) by {
      var r :| r in o.rescan.sources[n].roots && (r == "." || p == r || r + "/" <= p);
      assert r in BothRoots(o, n);
    }
    hide UnderPrefix;
  }

  /** What the draft after the rescan has for an unread path below a late root. */
  lemma LateRootDraft(cfg: Config, s: Store, o: Observations, m: Manifest, d: Draft, e: Draft, n: string, p: string)
    requires WellFormed(cfg, o) && PriorOf(cfg, s, o) == Prior(m)
    requires Prepare(cfg, s, o) == Some(d) && Rescanned(cfg, o, d) == Some(e)
    requires o.scan.Scanned? && n in cfg.available && Unread(cfg, o, n, p) && LateRoot(cfg, o, n, p)
    ensures
      var prior := ComparedPrior(cfg, s, o, m);
      && (p in Files(e.sources, n) <==>
            && p in Files(prior.sources, n)
            && (WaitsFor(cfg, o.scan, prior, n, p) || WaitsFor(cfg, o.rescan, prior, n, p)))
      && (p in Files(e.sources, n) ==>
            (p in Paths(e.frozen, n) || p in Paths(e.held, n)) && Files(e.sources, n)[p] == Files(prior.sources, n)[p])
  {
    hide Prepare, Rescanned, PriorOf, ComparedPrior, ScopedPrior, FrozenMap, UnderPrefix, HeldBefore, WaitsFor,
      RescannedFiles, RescannedFrozen, StoredFilter, Keeps, IsTombstoned;
    assert n in cfg.available.Keys * INTERNAL;
    PreparedWithPrior(cfg, s, o, m, d);
    DraftFiles(cfg, s, o, m, d, n, p);
    FrozenExactly(cfg, s, o, m, n, p);
    HeldExactly(cfg, s, o, m, d, n, p);
    LateRootCarries(o, d, n, p);
    InsideRescan(cfg, o, d, e, n, p);
    HeldAgainExactly(cfg, o, d, e, n, p);
  }

  /** An unread path below a late root is published if and only if the compared prior has it
      and one of the walks held it: a checkout that only the rescan found freezes nothing
      else. It is then published with its old entry, not uploaded and not tombstoned; and a
      compared path that is not published has its key tombstoned unless it is live. */
  lemma LateRootExactly(cfg: Config, s: Store, o: Observations, m: Manifest, e: Draft, n: string, p: string)
    requires WellFormed(cfg, o) && Decide(cfg, s, o) == Publishes(e) && PriorOf(cfg, s, o) == Prior(m)
    requires n in cfg.available && o.scan.Scanned? && Unread(cfg, o, n, p) && LateRoot(cfg, o, n, p)
    ensures
      var prior := ComparedPrior(cfg, s, o, m);
      var final := FinalManifest(cfg, o, e);
      && (p in Files(final.sources, n) <==>
            && p in Files(prior.sources, n)
            && (WaitsFor(cfg, o.scan, prior, n, p) || WaitsFor(cfg, o.rescan, prior, n, p)))
      && (p in Files(final.sources, n) ==>
            && p in Files(m.sources, n) && Files(final.sources, n)[p] == Files(m.sources, n)[p]
            && p !in ToUpload(o, e, n) && Key(n, p) !in final.tombstones)
      && (p in Files(prior.sources, n) ==>
            (Key(n, p) in final.tombstones <==> Key(n, p) !in LiveKeys(final.sources)))
  {
    hide Decide, PriorOf, LateRoot, Unread, LiveKeys, FinalTombstones, NoLiveTombstone, ComparedPrior, WaitsFor,
      InScope,
      OutOfReach, ToUpload;
    var d, e' := PublishedDraft(cfg, s, o);
    LateRootDraft(cfg, s, o, m, d, e, n, p);
    PublishedSources(cfg, s, o, e);
    NotUploaded(cfg, o, e, n, p);
    NothingLiveTombstoned(cfg, s, o, e);
    KeyConserved(cfg, s, o, e, n, p);
    ComparedPublishes(cfg, s, o, m, n, p);
    if p in Files(ComparedPrior(cfg, s, o, m).sources, n) {
      ComparedPriorShrinks(cfg, s, o, m, n, p);
    }
    if p in Files(FinalManifest(cfg, o, e).sources, n) {
      NotTombstoned(FinalManifest(cfg, o, e), n, p);
    }
  }

  /** So a checkout that appears between the walks does not keep what it covers: for any
      selected entry of an internal source that a checkout can cover there is an accepted
      push whose rescan finds one over it, and which tombstones it afresh. */
  lemma LateRootLosesAnEntry(cfg: Config, s: Store, b: Observations, m: Manifest, n: string, p: string)
    returns (o: Observations, e: Draft)
    requires Starts(cfg, s, b, m) && Deletable(cfg, m, n, p) && n in INTERNAL && Coverable(cfg, n, p)
    ensures WellFormed(cfg, o) && SameStart(o, b) && PriorOf(cfg, s, o) == Prior(m) && Decide(cfg, s, o) == Publishes(e)
    ensures o.scan.Scanned? && Unread(cfg, o, n, p) && LateRoot(cfg, o, n, p)
    ensures p !in Files(FinalManifest(cfg, o, e).sources, n) && Minted(m, FinalManifest(cfg, o, e), Key(n, p))
  {
    hide Starts, Deletable, Minted, Decide, FinalManifest, PriorOf, LateClock, WellFormed, UnderPrefix, MayMeet;
    var r :| MayMeet(cfg, n, r) && UnderPrefix(p, {r});
    o := Looking(cfg, b, EmptyDisk(cfg, m, Key(n, p), {r}));
    e := EmptyDiskMints(cfg, s, b, m, n, p, {r});
    DeletableIsAvailable(cfg, m, n, p);
    NoRootCoversNothing(p);
    assert o.scan.sources[n].roots == {} && o.rescan.sources[n].roots == {r};
  }

  lemma NoRootCoversNothing(p: string)
    ensures !UnderPrefix(p, {})
  {
  }

  // ---- once the checkout is gone ----------------------------------------------

  /** Neither walk read or held the path, or covered it with a root. */
  predicate Forgotten(cfg: Config, scan: Scan, n: string, p: string)
    requires scan.Scanned? && n in scan.sources
  {
    && p !in scan.sources[n].files && p !in HeldBefore(cfg, scan, n)
    && !UnderPrefix(p, scan.sources[n].roots)
  }

  predicate NowGone(cfg: Config, o: Observations, n: string, p: string)
    requires WellFormed(cfg, o) && o.scan.Scanned? && n in cfg.available
  {
    && Forgotten(cfg, o.scan, n, p)
    && (n in INTERNAL && o.rescan.Scanned? ==> Forgotten(cfg, o.rescan, n, p))
  }

  lemma ForgottenIsNotPublished(cfg: Config, s: Store, o: Observations, m: Manifest, e: Draft, n: string, p: string)
    requires WellFormed(cfg, o) && Decide(cfg, s, o) == Publishes(e) && PriorOf(cfg, s, o) == Prior(m)
    requires n in cfg.available && o.scan.Scanned? && NowGone(cfg, o, n, p)
    ensures p !in Files(e.sources, n)
  {
    hide Decide, PriorOf, UnderPrefix, Prepare, Rescanned, HeldBefore, ScanAccepted;
    var d, e' := PublishedDraft(cfg, s, o);
    ForgottenByDraft(cfg, s, o, m, d, n, p);
    if cfg.available.Keys * INTERNAL != {} {
      RescanAccepted(cfg, o, d, e);
      RescanScanned(o);
    }
    if n in INTERNAL {
      assert n in cfg.available.Keys * INTERNAL;
      InsideRescan(cfg, o, d, e, n, p);
      CarriedNothing(o, d, n, p);
    } else {
      OutsideRescan(cfg, o, d, e, n);
    }
  }

  lemma ForgottenByDraft(cfg: Config, s: Store, o: Observations, m: Manifest, d: Draft, n: string, p: string)
    requires Prepare(cfg, s, o) == Some(d) && PriorOf(cfg, s, o) == Prior(m)
    requires o.scan.Scanned? && n in o.scan.sources && Forgotten(cfg, o.scan, n, p)
    ensures p !in Files(d.sources, n)
  {
    hide PriorOf, UnderPrefix, Prepare, HeldBefore, FrozenMap, ScopedPrior, ComparedPrior, StoredFilter, Keeps;
    PreparedWithPrior(cfg, s, o, m, d);
    DraftFiles(cfg, s, o, m, d, n, p);
    FrozenExactly(cfg, s, o, m, n, p);
  }

  lemma CarriedNothing(o: Observations, d: Draft, n: string, p: string)
    requires o.rescan.Scanned? && n in o.rescan.sources
    requires p !in o.rescan.sources[n].files && p !in Files(d.sources, n)
    ensures p !in RescannedFiles(o, d, n)
  {
    hide UnderPrefix;
  }

  /** A published path that is gone, with no checkout over it and no link, is tombstoned. */
  lemma GoneIsTombstoned(cfg: Config, s: Store, o: Observations, m: Manifest, e: Draft, n: string, p: string)
    requires WellFormed(cfg, o) && Decide(cfg, s, o) == Publishes(e) && PriorOf(cfg, s, o) == Prior(m)
    requires Unrivalled(cfg, s, o, m, n, p) && n in cfg.available && o.scan.Scanned? && NowGone(cfg, o, n, p)
    requires p in Files(m.sources, n) && InScope(cfg, n, p)
    requires !Symlinked(cfg, ScanRoots(o.scan), o.linkedFile, n, p)
    ensures Key(n, p) in FinalManifest(cfg, o, e).tombstones && p !in Files(FinalManifest(cfg, o, e).sources, n)
  {
    hide Decide, PriorOf, UnderPrefix, HeldBefore, InScope, Symlinked, FrozenMap, FinalTombstones, LiveKeys, Unrivalled;
    ForgottenIsNotPublished(cfg, s, o, m, e, n, p);
    PublishedSources(cfg, s, o, e);
    NotUploaded(cfg, o, e, n, p);
    Conserved(cfg, s, o, e, n, p);
  }

  /** An accepted push put the final manifest of the draft it decided on. */
  lemma PublishedStep(cfg: Config, o: Observations, s: Store, t: Store, m: Manifest) returns (e: Draft)
    requires PushStep(cfg, o, s, t, Published(m))
    ensures Decide(cfg, s, o) == Publishes(e) && m == FinalManifest(cfg, o, e) && t.own == Some(m)
    ensures t.sidecar == if o.sidecarWrites then Some(m) else s.sidecar
  {
    hide Decide, FinalManifest, Grown, HasAll, AllPuts;
    e := Decide(cfg, s, o).draft;
  }

  lemma StepKeepsCovered(
    cfg: Config, o: Observations, s: Store, t: Store, m: Manifest, final: Manifest, n: string, p: string)
    requires WellFormed(cfg, o) && PushStep(cfg, o, s, t, Published(final)) && PriorOf(cfg, s, o) == Prior(m)
    requires n in cfg.available && o.scan.Scanned?
    requires Unread(cfg, o, n, p) && Covered(cfg, s, o, m, n, p)
    ensures Lists(m.sources, n, p) && Lists(final.sources, n, p)
    ensures Files(final.sources, n)[p] == Files(m.sources, n)[p] && Key(n, p) !in final.tombstones
  {
    hide PushStep, Decide, FinalManifest, PriorOf, Unread, InScope, UnderPrefix, Keeps, StoredFilter, IsTombstoned;
    var e := PublishedStep(cfg, o, s, t, final);
    CoveredIsRepublished(cfg, s, o, m, e, n, p);
  }

  lemma StepTombstonesGone(
    cfg: Config, o: Observations, s: Store, t: Store, m: Manifest, final: Manifest, n: string, p: string)
    requires WellFormed(cfg, o) && PushStep(cfg, o, s, t, Published(final)) && o.fetch == CanonicalFetch(m)
    requires Unrivalled(cfg, s, o, m, n, p) && n in cfg.available && o.scan.Scanned? && NowGone(cfg, o, n, p)
    requires p in Files(m.sources, n) && InScope(cfg, n, p)
    requires !Symlinked(cfg, ScanRoots(o.scan), o.linkedFile, n, p)
    ensures Key(n, p) in final.tombstones && p !in Files(final.sources, n)
  {
    hide PushStep, Decide, FinalManifest, PriorOf, NowGone, InScope, Symlinked;
    var e := PublishedStep(cfg, o, s, t, final);
    CanonicalPrior(cfg, s, o, m);
    GoneIsTombstoned(cfg, s, o, m, e, n, p);
  }

  /** From one push to the next: what the first froze, the second tombstones once the
      checkout and its files are gone. */
  lemma FrozenThenGone(
    one: Config, a: Observations, s: Store, t: Store, m: Manifest, first: Manifest,
    two: Config, b: Observations, u: Store, second: Manifest, n: string, p: string)
    requires WellFormed(one, a) && PushStep(one, a, s, t, Published(first)) && PriorOf(one, s, a) == Prior(m)
    requires n in one.available && a.scan.Scanned?
    requires Unread(one, a, n, p) && Covered(one, s, a, m, n, p)
    requires WellFormed(two, b) && PushStep(two, b, t, u, Published(second)) && b.fetch == CanonicalFetch(first)
    requires Unrivalled(two, t, b, first, n, p) && n in two.available && b.scan.Scanned?
    requires NowGone(two, b, n, p) && InScope(two, n, p) && !Symlinked(two, ScanRoots(b.scan), b.linkedFile, n, p)
    ensures Lists(m.sources, n, p) && Lists(first.sources, n, p)
    ensures Files(first.sources, n)[p] == Files(m.sources, n)[p] && Key(n, p) !in first.tombstones
    ensures Key(n, p) in second.tombstones && p !in Files(second.sources, n)
  {
    hide PushStep, PriorOf, Unread, NowGone, InScope, Symlinked, Covered, ScanRoots, WellFormed;
    StepKeepsCovered(one, a, s, t, m, first, n, p);
    StepTombstonesGone(two, b, t, u, first, second, n, p);
  }
}
