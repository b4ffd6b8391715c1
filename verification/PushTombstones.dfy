/** Which tombstones a push publishes: nothing the prior published is lost silently, a
    new tombstone is justified by an absence probe, and exactly when that justification
    fails. */
module PushTombstones {
  import opened Manifests
  import opened RemoteFetch
  import opened PushStages
  import opened PushSafety

  // ---- the final tombstones are one comparison ------------------------------

  /** Same sources, and the same paths in each. */
  predicate SamePaths(a: map<string, Source>, b: map<string, Source>) {
    a.Keys == b.Keys && forall n | n in a :: a[n].files.Keys == b[n].files.Keys
  }

  /** Generation looks at paths only, never at entries. */
  lemma GenerateSeesPaths(
    parse: string -> Option<int>, a: map<string, Source>, b: map<string, Source>, prior: Option<Manifest>,
    clock: Clock, device: string)
    requires SamePaths(a, b)
    ensures GenerateTombstones(parse, a, prior, clock, device) == GenerateTombstones(parse, b, prior, clock, device)
  {
    assert LiveKeys(a) == LiveKeys(b);
    if prior.Some? {
      assert DroppedKeys(a, prior.value.sources) == DroppedKeys(b, prior.value.sources);
    }
  }

  lemma NothingHeldSamePaths(cfg: Config, o: Observations, e: Draft)
    requires !AnyUploadHeld(cfg, o, e)
    ensures SamePaths(UploadedSources(cfg, o, e), e.sources)
  {
    forall n | n in e.sources
      ensures UploadedFiles(cfg, o, e, n).Keys == e.sources[n].files.Keys
    {
      var b := BatchOf(o, e, n);
      assert HeldUploads(cfg.lib, b) == map[];
      assert Patches(cfg.lib, b).Keys <= e.sources[n].files.Keys;
    }
  }

  lemma DraftTombstones(cfg: Config, s: Store, o: Observations, d: Draft)
    requires Prepare(cfg, s, o) == Some(d)
    ensures d.tombstones == GenerateTombstones(cfg.lib.instant, d.sources, d.prior, o.clocks.0, cfg.device)
  {
    hide GenerateTombstones, InjectSources, FreezeSources, ComparedPrior, FrozenBy, SurvivingMap, CandidatesProven,
      AbsenceProven, RefusesEarly, RecoverPrior;
    if d.prior == None {
      assert GenerateTombstones(cfg.lib.instant, d.sources, d.prior, o.clocks.0, cfg.device) == map[] by {
        NoPriorNoTombstones(cfg, o, d);
      }
    }
  }

  lemma NoPriorNoTombstones(cfg: Config, o: Observations, d: Draft)
    requires d.prior == None
    ensures GenerateTombstones(cfg.lib.instant, d.sources, d.prior, o.clocks.0, cfg.device) == map[]
  {
  }

  /** The clock of the last generation: the upload's if it held a file, else the rescan's. */
  function LastClock(cfg: Config, o: Observations, e: Draft): Clock {
    if AnyUploadHeld(cfg, o, e) then o.clocks.2
    else if cfg.available.Keys * INTERNAL == {} then o.clocks.0
    else o.clocks.1
  }

  /** Whether or not files were held, the published tombstones are one comparison of what
      is published with the draft's prior. */
  lemma FinalComparison(cfg: Config, s: Store, o: Observations, e: Draft) returns (clock: Clock)
    requires WellFormed(cfg, o) && Decide(cfg, s, o) == Publishes(e)
    ensures clock == LastClock(cfg, o, e)
    ensures FinalManifest(cfg, o, e).tombstones ==
            GenerateTombstones(cfg.lib.instant, UploadedSources(cfg, o, e), e.prior, clock, cfg.device)
  {
    hide GenerateTombstones, Prepare, Rescanned, AnyUploadRefuses, AnyUploadHeld, UploadedSources;
    var d, e' := PublishedDraft(cfg, s, o);
    DraftTombstones(cfg, s, o, d);
    clock := if cfg.available.Keys * INTERNAL == {} then o.clocks.0 else o.clocks.1;
    if cfg.available.Keys * INTERNAL == {} {
      NoRescan(cfg, o, d);
    } else {
      RescanAccepted(cfg, o, d, e);
    }
    if AnyUploadHeld(cfg, o, e) {
      clock := o.clocks.2;
    } else {
      NothingHeldSamePaths(cfg, o, e);
      GenerateSeesPaths(cfg.lib.instant, UploadedSources(cfg, o, e), e.sources, e.prior, clock, cfg.device);
    }
  }

  // ---- the compared prior, path by path ---------------------------------------

  /** In scope: of a selected source that is not retired, and not excluded. */
  predicate InScope(cfg: Config, n: string, p: string) {
    n in Intended(cfg) && n !in RETIRED && !ConsumerExcluded(cfg, n, p)
  }

  /** Set aside from the comparison: covered by a checkout root without being frozen, or
      reached through a local symlink. */
  predicate OutOfReach(cfg: Config, s: Store, o: Observations, m: Manifest, n: string, p: string)
    requires o.scan.Scanned?
  {
    || (UnderPrefix(p, Paths(ScanRoots(o.scan), n)) && p !in Paths(FrozenBy(cfg, s, o, m), n))
    || Symlinked(cfg, ScanRoots(o.scan), o.linkedFile, n, p)
  }

  lemma ScopedPublishes(cfg: Config, m: Manifest, n: string, p: string)
    ensures p in Files(ScopedPrior(cfg, m).sources, n) <==> p in Files(m.sources, n) && InScope(cfg, n, p)
    ensures p in Files(ScopedPrior(cfg, m).sources, n) ==>
              Files(ScopedPrior(cfg, m).sources, n)[p] == Files(m.sources, n)[p]
  {
    hide ConsumerExcluded;
  }

  lemma ComparedPublishes(cfg: Config, s: Store, o: Observations, m: Manifest, n: string, p: string)
    requires o.scan.Scanned?
    ensures p in Files(ComparedPrior(cfg, s, o, m).sources, n) <==>
              p in Files(m.sources, n) && InScope(cfg, n, p) && !OutOfReach(cfg, s, o, m, n, p)
  {
    hide ConsumerExcluded, InScope, UnderPrefix, Symlinked, FrozenMap, ScanRoots, ScopedPrior;
    ScopedPublishes(cfg, m, n, p);
  }

  lemma ComparedTombstones(cfg: Config, s: Store, o: Observations, m: Manifest, k: string)
    requires o.scan.Scanned?
    ensures
      var c := ComparedPrior(cfg, s, o, m).tombstones;
      var owner := KeyOwner(k);
      && (k in c <==> k in m.tombstones && !ConsumerExcluded(cfg, owner.0, owner.1)
                      && !(':' in k && Symlinked(cfg, ScanRoots(o.scan), o.linkedTombstone, owner.0, owner.1)))
      && (k in c ==> c[k] == m.tombstones[k])
  {
    hide ConsumerExcluded, Symlinked, KeyOwner, FrozenMap, ScanRoots;
  }

  /** A published manifest names exactly the available sources. */
  lemma PublishedSources(cfg: Config, s: Store, o: Observations, e: Draft)
    requires WellFormed(cfg, o) && Decide(cfg, s, o) == Publishes(e)
    ensures e.sources.Keys == cfg.available.Keys == FinalManifest(cfg, o, e).sources.Keys
    ensures o.scan.Scanned? && Prepare(cfg, s, o).Some? && !PriorOf(cfg, s, o).Abort?
    ensures PriorOf(cfg, s, o).Prior? ==> e.prior == Some(ComparedPrior(cfg, s, o, PriorOf(cfg, s, o).manifest))
    ensures !PriorOf(cfg, s, o).Prior? ==> e.prior == None
    ensures !LostSource(cfg, PriorOf(cfg, s, o)) && o.fetch.newerVersion.None?
  {
    hide Decide, Prepare, PriorOf, Rescanned, ComparedPrior, UploadedFiles, FinalTombstones, LostSource, Substantive,
      AnyUploadRefuses;
    var d, e' := PublishedDraft(cfg, s, o);
    PreparedPrior(cfg, s, o, d);
    if cfg.available.Keys * INTERNAL == {} {
      NoRescan(cfg, o, d);
    } else {
      RescanAccepted(cfg, o, d, e);
      assert e.sources.Keys == cfg.available.Keys;
    }
    assert FinalManifest(cfg, o, e).sources.Keys == e.sources.Keys;
    PreparedNotRefused(cfg, s, o);
  }

  lemma PreparedNotRefused(cfg: Config, s: Store, o: Observations)
    requires Prepare(cfg, s, o).Some?
    ensures !RefusesEarly(cfg, s, o)
  {
  }

  /** An unclaimed key is live for its own path only. */
  lemma LiveKeyIsOwn(sources: map<string, Source>, n: string, p: string)
    requires Unclaimed(sources.Keys, n, p)
    ensures Key(n, p) in LiveKeys(sources) <==> p in Files(sources, n)
  {
    if Key(n, p) in LiveKeys(sources) {
      var n', p' :| n' in sources && p' in sources[n'].files && Key(n', p') == Key(n, p);
      UnclaimedExactly(sources.Keys, n, p);
    }
  }

  // ---- conservation -------------------------------------------------------------

  /** The key of every in-scope path the prior published is live again or tombstoned,
      never both and never neither, unless the path was set aside. */
  lemma KeyConserved(cfg: Config, s: Store, o: Observations, e: Draft, n: string, p: string)
    requires WellFormed(cfg, o) && Decide(cfg, s, o) == Publishes(e) && PriorOf(cfg, s, o).Prior?
    ensures
      var m := PriorOf(cfg, s, o).manifest;
      var final := FinalManifest(cfg, o, e);
      p in Files(m.sources, n) && InScope(cfg, n, p) && !OutOfReach(cfg, s, o, m, n, p) ==>
        (Key(n, p) in LiveKeys(final.sources) <==> Key(n, p) !in final.tombstones)
  {
    hide GenerateTombstones, UploadedSources, ConsumerExcluded, OutOfReach, ComparedPrior, FilterExcluded,
      DroppedKeys, LiveKeys, InScope, Decide, PriorOf, NoLiveTombstone;
    var m := PriorOf(cfg, s, o).manifest;
    var final := FinalManifest(cfg, o, e);
    PublishedSources(cfg, s, o, e);
    var clock := FinalComparison(cfg, s, o, e);
    if p in Files(m.sources, n) && InScope(cfg, n, p) && !OutOfReach(cfg, s, o, m, n, p) {
      ComparedPublishes(cfg, s, o, m, n, p);
      GeneratedKeys(cfg.lib.instant, final.sources, e.prior, clock, cfg.device, Key(n, p));
      if Key(n, p) !in LiveKeys(final.sources) {
        LiveOfPublished(final.sources, n, p);
        IsDropped(final.sources, e.prior.value.sources, n, p);
      }
    }
  }

  lemma LiveOfPublished(sources: map<string, Source>, n: string, p: string)
    ensures p in Files(sources, n) ==> Key(n, p) in LiveKeys(sources)
  {
  }

  /** A checkout may keep this prior entry published: it is in scope and untombstoned there,
      in recovery its blob is stored, and a checkout the walk can meet would cover it. */
  ghost predicate Freezable(cfg: Config, s: Store, o: Observations, m: Manifest, n: string, p: string) {
    && p in Files(m.sources, n) && InScope(cfg, n, p) && Coverable(cfg, n, p)
    && !IsTombstoned(n, p, ScopedPrior(cfg, m).tombstones) && Keeps(StoredFilter(s, o), Files(m.sources, n)[p])
  }

  /** A push over this prior may publish the path: a walk may report it, or a checkout keep it. */
  ghost predicate MayPublish(cfg: Config, s: Store, o: Observations, m: Manifest, n: string, p: string) {
    n in cfg.available && (MaySee(cfg, n, p) || Freezable(cfg, s, o, m, n, p))
  }

  lemma HeldMayBeSeen(cfg: Config, scan: Scan, n: string, p: string)
    requires Walks(cfg, scan, n) && n in cfg.available && p in HeldBefore(cfg, scan, n)
    ensures MaySee(cfg, n, p)
  {
    hide WalkExcluded;
  }

  lemma FrozenIsFreezable(cfg: Config, s: Store, o: Observations, m: Manifest, n: string, p: string)
    requires o.scan.Scanned? && n in o.scan.sources && Walks(cfg, o.scan, n) && n in cfg.available
    requires p in Paths(FrozenBy(cfg, s, o, m), n)
    ensures Freezable(cfg, s, o, m, n, p)
  {
    hide ConsumerExcluded, WalkExcluded, Keeps, StoredFilter, ScopedPrior, FrozenMap, InScope;
    FrozenExactly(cfg, s, o, m, n, p);
    ScopedPublishes(cfg, m, n, p);
    CoveredIsCoverable(cfg, n, p, o.scan.sources[n].roots);
  }

  lemma CoveredIsCoverable(cfg: Config, n: string, p: string, roots: set<string>)
    requires n in cfg.available && UnderPrefix(p, roots) && forall r | r in roots :: MayMeet(cfg, n, r)
    ensures Coverable(cfg, n, p)
  {
    var r :| r in roots && (r == "." || p == r || r + "/" <= p);
    assert MayMeet(cfg, n, r) && UnderPrefix(p, {r});
  }

  /** Whatever the first draft publishes it may publish. */
  lemma DraftMayPublish(cfg: Config, s: Store, o: Observations, m: Manifest, d: Draft, n: string, p: string)
    requires WellFormed(cfg, o) && Prepare(cfg, s, o) == Some(d) && PriorOf(cfg, s, o) == Prior(m)
    requires n in cfg.available && p in Files(d.sources, n)
    ensures MayPublish(cfg, s, o, m, n, p)
    ensures p in Paths(d.held, n) ==> MaySee(cfg, n, p)
  {
    hide PriorOf, Prepare, WalkExcluded, FrozenMap, ScopedPrior, ComparedPrior, HeldBefore, Freezable;
    PreparedPrior(cfg, s, o, d);
    PreparedWithPrior(cfg, s, o, m, d);
    DraftFiles(cfg, s, o, m, d, n, p);
    assert Walks(cfg, o.scan, n);
    if p in Paths(d.frozen, n) {
      FrozenIsFreezable(cfg, s, o, m, n, p);
    } else if p in Paths(d.held, n) {
      HeldMayBeSeen(cfg, o.scan, n, p);
    }
  }

  lemma PreparedWithPrior(cfg: Config, s: Store, o: Observations, m: Manifest, d: Draft)
    requires Prepare(cfg, s, o) == Some(d) && PriorOf(cfg, s, o) == Prior(m)
    ensures o.scan.Scanned? && DraftWithPrior(cfg, s, o, m) == Some(d)
  {
    hide DraftWithPrior, PriorOf, RefusesEarly;
  }

  /** So for the draft after the rescan. */
  lemma RescannedMayPublish(
    cfg: Config, s: Store, o: Observations, m: Manifest, d: Draft, e: Draft, n: string, p: string)
    requires WellFormed(cfg, o) && PriorOf(cfg, s, o) == Prior(m)
    requires Prepare(cfg, s, o) == Some(d) && Rescanned(cfg, o, d) == Some(e)
    requires n in cfg.available && p in Files(e.sources, n)
    ensures MayPublish(cfg, s, o, m, n, p)
  {
    hide PriorOf, Prepare, Rescanned, WalkExcluded, RescannedFiles, RescannedFrozen, HeldBefore, Freezable, MaySee;
    if cfg.available.Keys * INTERNAL != {} && n in INTERNAL {
      assert n in cfg.available.Keys * INTERNAL;
      RescanAccepted(cfg, o, d, e);
      InsideRescan(cfg, o, d, e, n, p);
      assert Walks(cfg, o.rescan, n);
      if p in Paths(e.held, n) {
        HeldMayBeSeen(cfg, o.rescan, n, p);
      } else {
        CarriedIsWalked(o, d, n, p);
        if p in RescannedFrozen(o, d, n) {
          RescanFrozenEntry(o, d, n, p);
          DraftMayPublish(cfg, s, o, m, d, n, p);
        }
      }
    } else {
      if cfg.available.Keys * INTERNAL != {} {
        RescanAccepted(cfg, o, d, e);
      }
      OutsideRescan(cfg, o, d, e, n);
      DraftMayPublish(cfg, s, o, m, d, n, p);
    }
  }

  lemma UploadInventsNothing(cfg: Config, o: Observations, e: Draft, n: string, p: string)
    ensures p in UploadedFiles(cfg, o, e, n) ==> p in Files(e.sources, n)
  {
    hide At;
  }

  /** Whatever an accepted push publishes it may publish. */
  lemma PublishedMayPublish(cfg: Config, s: Store, o: Observations, m: Manifest, e: Draft, n: string, p: string)
    requires WellFormed(cfg, o) && Decide(cfg, s, o) == Publishes(e) && PriorOf(cfg, s, o) == Prior(m)
    requires p in Files(FinalManifest(cfg, o, e).sources, n)
    ensures MayPublish(cfg, s, o, m, n, p)
  {
    hide PriorOf, Decide, UploadedFiles, FinalTombstones, MayPublish;
    var d, e' := PublishedDraft(cfg, s, o);
    PublishedSources(cfg, s, o, e);
    UploadInventsNothing(cfg, o, e, n, p);
    RescannedMayPublish(cfg, s, o, m, d, e, n, p);
  }

  /** No other available source may publish a path with this path's key. */
  ghost predicate Unrivalled(cfg: Config, s: Store, o: Observations, m: Manifest, n: string, p: string) {
    forall x | x in cfg.available && x + ":" <= Key(n, p) ::
      x == n || !MayPublish(cfg, s, o, m, x, ClaimedBy(x, n, p))
  }

  lemma UnclaimedIsUnrivalled(cfg: Config, s: Store, o: Observations, m: Manifest, n: string, p: string)
    requires Unclaimed(cfg.available.Keys, n, p)
    ensures Unrivalled(cfg, s, o, m, n, p)
  {
    hide MayPublish;
  }

  /** The key of an unrivalled path is live for its own path only. */
  lemma UnrivalledKeyIsOwn(cfg: Config, s: Store, o: Observations, m: Manifest, e: Draft, n: string, p: string)
    requires WellFormed(cfg, o) && Decide(cfg, s, o) == Publishes(e) && PriorOf(cfg, s, o) == Prior(m)
    requires Unrivalled(cfg, s, o, m, n, p)
    ensures Key(n, p) in LiveKeys(FinalManifest(cfg, o, e).sources) <==> p in Files(FinalManifest(cfg, o, e).sources, n)
  {
    hide Decide, PriorOf, FinalManifest, WellFormed, MayPublish;
    var sources := FinalManifest(cfg, o, e).sources;
    LiveOfPublished(sources, n, p);
    if Key(n, p) in LiveKeys(sources) {
      var x, y :| x in sources && y in sources[x].files && Key(x, y) == Key(n, p);
      PublishedMayPublish(cfg, s, o, m, e, x, y);
      assert x in cfg.available by {
        hide MayPublish;
        PublishedSources(cfg, s, o, e);
      }
      assert Key(x, y)[..|x| + 1] == x + ":";
      SameKeySamePath(x, y, ClaimedBy(x, n, p));
      SameKeySamePath(x, y, p);
    }
  }

  /** Every in-scope path the prior published whose key no other source may publish is
      published again or tombstoned, unless it was set aside; and no path is both. */
  lemma Conserved(cfg: Config, s: Store, o: Observations, e: Draft, n: string, p: string)
    requires WellFormed(cfg, o) && Decide(cfg, s, o) == Publishes(e) && PriorOf(cfg, s, o).Prior?
    requires Unrivalled(cfg, s, o, PriorOf(cfg, s, o).manifest, n, p)
    ensures
      var m := PriorOf(cfg, s, o).manifest;
      var final := FinalManifest(cfg, o, e);
      p in Files(m.sources, n) && InScope(cfg, n, p) && !OutOfReach(cfg, s, o, m, n, p) ==>
        (p in Files(final.sources, n) <==> Key(n, p) !in final.tombstones)
    ensures NoLiveTombstone(FinalManifest(cfg, o, e))
  {
    hide FinalManifest, OutOfReach, LiveKeys, InScope, Decide, PriorOf, NoLiveTombstone, Unrivalled, Key;
    PublishedSources(cfg, s, o, e);
    KeyConserved(cfg, s, o, e, n, p);
    UnrivalledKeyIsOwn(cfg, s, o, PriorOf(cfg, s, o).manifest, e, n, p);
    NothingLiveTombstoned(cfg, s, o, e);
  }

  /** No published manifest tombstones what it publishes. */
  lemma NothingLiveTombstoned(cfg: Config, s: Store, o: Observations, e: Draft)
    requires WellFormed(cfg, o) && Decide(cfg, s, o) == Publishes(e)
    ensures NoLiveTombstone(FinalManifest(cfg, o, e))
  {
    hide GenerateTombstones, UploadedSources, LiveKeys, Decide;
    var final := FinalManifest(cfg, o, e);
    var clock := FinalComparison(cfg, s, o, e);
    forall k | k in final.tombstones
      ensures k !in LiveKeys(final.sources)
    {
      GeneratedKeys(cfg.lib.instant, final.sources, e.prior, clock, cfg.device, k);
    }
  }

  lemma IsDropped(local: map<string, Source>, prior: map<string, Source>, n: string, p: string)
    requires p in Files(prior, n) && p !in Files(local, n)
    ensures Key(n, p) in DroppedKeys(local, prior)
  {
    assert n in prior;
  }

  // ---- when a new tombstone is justified ----------------------------------------

  /** The probe of the last absence proof before anything is published. */
  function LastProbe(cfg: Config, o: Observations): PathProbe {
    if cfg.available.Keys * INTERNAL == {} then o.omitted else o.omittedAgain
  }

  /** Published now and not a tombstone the prior already had. */
  predicate Minted(m: Manifest, final: Manifest, k: string) {
    k in final.tombstones && !(k in m.tombstones && m.tombstones[k] == final.tombstones[k])
  }

  /** A path of an available source that the prior published and that no exclusion, skip
      prefix or allowlist removes. */
  predicate Deletable(cfg: Config, m: Manifest, n: string, p: string) {
    n in cfg.available && n !in RETIRED && p in Files(m.sources, n) && !ConsumerExcluded(cfg, n, p)
  }

  lemma DeletableIsAvailable(cfg: Config, m: Manifest, n: string, p: string)
    requires Deletable(cfg, m, n, p)
    ensures n in cfg.available && p in Files(m.sources, n)
  {
  }

  /** Deletable, and the last probe found no regular file. */
  predicate Justified(cfg: Config, o: Observations, m: Manifest, n: string, p: string) {
    Deletable(cfg, m, n, p) && Absent(LastProbe(cfg, o)(n, p))
  }

  ghost predicate JustifiedKey(cfg: Config, o: Observations, m: Manifest, k: string) {
    exists n, p :: k == Key(n, p) && Justified(cfg, o, m, n, p)
  }

  /** Paths the absence proof skips although the prior filter keeps them: the walker's
      junk list, and relative paths it will not join. */
  predicate Unproven(cfg: Config, p: string) {
    cfg.paths.junk(p) || !cfg.paths.valid(p)
  }

  /** Held by the upload while the fetched manifest both publishes and tombstones it. */
  predicate HeldOverTombstone(cfg: Config, o: Observations, e: Draft, n: string, p: string) {
    p in HeldUploads(cfg.lib, BatchOf(o, e, n)) && IsTombstoned(n, p, RemoteTombstones(o))
  }

  lemma OmittedWasProbed(cfg: Config, s: Store, o: Observations, e: Draft, n: string, p: string)
    requires WellFormed(cfg, o) && Decide(cfg, s, o) == Publishes(e) && e.prior.Some?
    requires n in cfg.available && p in Files(e.prior.value.sources, n) && p !in Files(e.sources, n)
    ensures Absent(LastProbe(cfg, o)(n, p)) || !cfg.paths.valid(p) || ProofExcluded(cfg, n, p)
  {
    hide Decide, Prepare, Rescanned, ProofExcluded, GenerateTombstones, Substantive, AnyUploadRefuses, PriorOf;
    var d, e' := PublishedDraft(cfg, s, o);
    if cfg.available.Keys * INTERNAL == {} {
      NoRescan(cfg, o, d);
      PreparedProven(cfg, s, o, d);
    } else {
      RescanAccepted(cfg, o, d, e);
    }
    assert n in e.prior.value.sources;
  }

  lemma PreparedProven(cfg: Config, s: Store, o: Observations, d: Draft)
    requires Prepare(cfg, s, o) == Some(d) && d.prior.Some?
    ensures AbsenceProven(cfg, d.sources, d.prior.value, o.omitted, o.root)
  {
    hide AbsenceProven, CandidatesProven, GenerateTombstones, RecoverPrior, InjectSources, FreezeSources, ComparedPrior,
      RefusesEarly, FrozenBy, SurvivingMap;
  }

  /** A path the upload removed was held, and the fetched manifest does not simply publish it. */
  lemma RemovedByUpload(cfg: Config, o: Observations, e: Draft, n: string, p: string)
    requires p in Files(e.sources, n) && p !in UploadedFiles(cfg, o, e, n)
    ensures p in HeldUploads(cfg.lib, BatchOf(o, e, n)) && !Recovering(o)
    ensures p in Files(RemoteSources(o), n) ==> HeldOverTombstone(cfg, o, e, n, p)
  {
    hide ToUpload;
  }

  /** Every tombstone a push mints is for an in-scope path of a selected source that the
      prior published; and unless the path is one the proof skips, or one that was held
      over a tombstone of the fetched manifest, the probe found no regular file. */
  lemma MintedMeaning(cfg: Config, s: Store, o: Observations, e: Draft, k: string) returns (n: string, p: string)
    requires WellFormed(cfg, o) && Decide(cfg, s, o) == Publishes(e)
    requires PriorOf(cfg, s, o).Prior? ==> Minted(PriorOf(cfg, s, o).manifest, FinalManifest(cfg, o, e), k)
    requires k in FinalManifest(cfg, o, e).tombstones
    ensures PriorOf(cfg, s, o).Prior?
    ensures k == Key(n, p) && Deletable(cfg, PriorOf(cfg, s, o).manifest, n, p)
    ensures Absent(LastProbe(cfg, o)(n, p)) || Unproven(cfg, p) || HeldOverTombstone(cfg, o, e, n, p)
  {
    hide GenerateTombstones, UploadedFiles, ConsumerExcluded, OutOfReach, ComparedPrior, LiveKeys, Decide, PriorOf,
      HeldOverTombstone, LastProbe, FinalTombstones;
    PublishedSources(cfg, s, o, e);
    var clock := FinalComparison(cfg, s, o, e);
    var final := FinalManifest(cfg, o, e);
    GeneratedKeys(cfg.lib.instant, final.sources, e.prior, clock, cfg.device, k);
    var m := PriorOf(cfg, s, o).manifest;
    ComparedTombstones(cfg, s, o, m, k);
    n, p := DroppedFrom(final.sources, e.prior.value.sources, k);
    ComparedPublishes(cfg, s, o, m, n, p);
    SelectedIsAvailable(cfg, PriorOf(cfg, s, o), n, p);
    if p in Files(e.sources, n) {
      RemovedByUpload(cfg, o, e, n, p);
      NotRecoveringKeepsAll(cfg, s, o);
    } else {
      OmittedWasProbed(cfg, s, o, e, n, p);
      ScopedProofExclusion(cfg, n, p);
    }
  }

  lemma DroppedFrom(local: map<string, Source>, prior: map<string, Source>, k: string) returns (n: string, p: string)
    requires k in DroppedKeys(local, prior)
    ensures k == Key(n, p) && p in Files(prior, n) && p !in Files(local, n)
  {
    n, p :| n in prior && p in prior[n].files && p !in Files(local, n) && k == Key(n, p);
  }

  lemma SelectedIsAvailable(cfg: Config, prior: Recovered, n: string, p: string)
    requires !LostSource(cfg, prior) && prior.Prior?
    requires p in Files(prior.manifest.sources, n) && n in Intended(cfg)
    ensures n in cfg.available
  {
  }

  /** Inside the scope the absence proof skips only junk. */
  lemma ScopedProofExclusion(cfg: Config, n: string, p: string)
    requires n in cfg.available && !ConsumerExcluded(cfg, n, p)
    ensures ProofExcluded(cfg, n, p) <==> cfg.paths.junk(p)
  {
    hide UnderPrefix;
  }

  /** Disabling a source, narrowing its patterns or its allowlist, adding a skip prefix or
      never having published a path: none of these mints a tombstone for it. */
  lemma NarrowingMintsNothing(cfg: Config, s: Store, o: Observations, e: Draft, m: Manifest, n: string, p: string)
    requires WellFormed(cfg, o) && Decide(cfg, s, o) == Publishes(e) && PriorOf(cfg, s, o) == Prior(m)
    requires Unclaimed(cfg.available.Keys, n, p)
    requires n !in cfg.available || n in RETIRED || ConsumerExcluded(cfg, n, p) || p !in Files(m.sources, n)
    ensures !Minted(m, FinalManifest(cfg, o, e), Key(n, p))
  {
    hide Decide, FinalManifest, PriorOf, ConsumerExcluded, HeldOverTombstone, Unproven, LastProbe, Unclaimed, Key;
    if Minted(m, FinalManifest(cfg, o, e), Key(n, p)) {
      var x, y := MintedMeaning(cfg, s, o, e, Key(n, p));
      UnclaimedExactly(cfg.available.Keys, n, p);
    }
  }

  /** Losing a source root never publishes: a selected source that is gone while its files
      were published, or an available one whose root cannot be read while the compared
      prior still has files of it, refuses the push. */
  lemma LostRootNeverPublishes(cfg: Config, s: Store, o: Observations, m: Manifest, n: string)
    requires WellFormed(cfg, o) && PriorOf(cfg, s, o) == Prior(m) && o.scan.Scanned?
    requires
      || (n in cfg.selected && n !in cfg.available && Files(m.sources, n) != map[])
      || (n in cfg.available && Files(ComparedPrior(cfg, s, o, m).sources, n) != map[] && !o.root(n))
    ensures !Decide(cfg, s, o).Publishes?
  {
    hide Decide, Prepare, Rescanned, PriorOf, ComparedPrior, AnyUploadRefuses, Substantive, AbsenceProven, LostSource,
      FinalManifest, WellFormed, Files;
    if Decide(cfg, s, o).Publishes? {
      var d, e := PublishedDraft(cfg, s, o);
      PublishedSources(cfg, s, o, e);
      PreparedPrior(cfg, s, o, d);
      PreparedProven(cfg, s, o, d);
      RootsWereThere(cfg, m, d.sources, d.prior.value, o.omitted, o.root, n);
    }
  }

  lemma RootsWereThere(
    cfg: Config, m: Manifest, local: map<string, Source>, prior: Manifest, probe: PathProbe, root: string -> bool,
    n: string)
    requires !LostSource(cfg, Prior(m)) && AbsenceProven(cfg, local, prior, probe, root)
    ensures !(n in cfg.selected && n !in cfg.available && Files(m.sources, n) != map[])
    ensures !(n in cfg.available && Files(prior.sources, n) != map[] && !root(n))
  {
    hide MustProbe;
  }
}
