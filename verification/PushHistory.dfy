/** Properties from one push to the next: recovery from the sidecar builds the same push,
    tombstones of disabled sources survive, checkouts keep what they cover until they go,
    and an unchanged disk leaves the store alone. */
module PushHistory {
  import opened Manifests
  import opened RemoteFetch
  import opened PushStages
  import opened PushSafety
  import opened PushTombstones
  import opened PushRun
  import opened PushRuns
  import opened PushLooks
  import opened PushCheckouts

  // ---- recovery is transparent ------------------------------------------------

  /** The same push, but with its canonical manifest corrupt. */
  function Corrupted(o: Observations): Observations {
    o.(fetch := Plain(Corrupt))
  }

  /** The blobs of the manifest are stored. */
  predicate AllStored(m: Manifest, blobs: set<string>) {
    forall n | n in m.sources :: forall p | p in m.sources[n].files :: m.sources[n].files[p].sha in blobs
  }

  /** The sidecar holds the manifest the canonical held. */
  predicate SidecarHolds(cfg: Config, s: Store, o: Observations, m: Manifest) {
    o.sidecarReadable && s.sidecar == Some(m) && m.device == cfg.device
  }

  /** When every blob is stored, recovery's blob filter freezes nothing less. */
  lemma StoredFilterIsIdle(local: map<string, Source>, prior: Manifest, roots: PathsBySource, stored: set<string>)
    requires AllStored(prior, stored)
    ensures FrozenMap(local, prior, roots, Some(stored)) == FrozenMap(local, prior, roots, None)
    ensures FreezeSources(local, prior, roots, Some(stored)) == FreezeSources(local, prior, roots, None)
  {
    hide UnderPrefix, IsTombstoned;
    forall n | n in local
      ensures FrozenPaths(n, local[n].files, prior, roots, Some(stored))
              == FrozenPaths(n, local[n].files, prior, roots, None)
    {
    }
  }

  lemma ScopedIsStored(cfg: Config, m: Manifest, stored: set<string>)
    requires AllStored(m, stored)
    ensures AllStored(ScopedPrior(cfg, m), stored)
  {
    hide ConsumerExcluded;
  }

  lemma SameFrozen(cfg: Config, s: Store, o: Observations, m: Manifest)
    requires o.scan.Scanned? && AllStored(m, s.blobs.Keys)
    requires o.fetch == CanonicalFetch(m)
    ensures
      var local, scoped, roots := ScannedSources(o.scan), ScopedPrior(cfg, m), ScanRoots(o.scan);
      var c := Corrupted(o);
      && FrozenMap(local, scoped, roots, StoredFilter(s, c)) == FrozenMap(local, scoped, roots, StoredFilter(s, o))
      && FreezeSources(local, scoped, roots, StoredFilter(s, c))
         == FreezeSources(local, scoped, roots, StoredFilter(s, o))
  {
    hide FrozenMap, FreezeSources, ScopedPrior, AllStored;
    ScopedIsStored(cfg, m, s.blobs.Keys);
    StoredFilterIsIdle(ScannedSources(o.scan), ScopedPrior(cfg, m), ScanRoots(o.scan), s.blobs.Keys);
  }

  /** With the sidecar at the last manifest and its blobs stored, a settled push builds
      the same draft - sources, prior, frozen and held sets and tombstones - from a corrupt
      canonical as from the intact one, and refuses in the same cases. */
  lemma RecoveryIsTransparent(cfg: Config, s: Store, o: Observations, m: Manifest)
    requires o.fetch == CanonicalFetch(m) && SidecarHolds(cfg, s, o, m) && AllStored(m, s.blobs.Keys)
    requires o.scan.Scanned? ==> Settled(o.scan)
    ensures Prepare(cfg, s, Corrupted(o)) == Prepare(cfg, s, o)
  {
    hide FreezeSources, FrozenMap, InjectSources, SurvivingMap, CandidatesProven, AbsenceProven, GenerateTombstones,
      ScopedPrior, DropUnfrozen, Symlinked, AllStored, LostSource, Settled;
    var c := Corrupted(o);
    assert PriorOf(cfg, s, c) == PriorOf(cfg, s, o) == Prior(m);
    assert RefusesEarly(cfg, s, c) == RefusesEarly(cfg, s, o);
    if o.scan.Scanned? {
      SameFrozen(cfg, s, o, m);
      SameCompared(cfg, s, o, m);
    }
  }

  lemma SameCompared(cfg: Config, s: Store, o: Observations, m: Manifest)
    requires o.scan.Scanned? && FrozenBy(cfg, s, Corrupted(o), m) == FrozenBy(cfg, s, o, m)
    ensures ComparedPrior(cfg, s, Corrupted(o), m) == ComparedPrior(cfg, s, o, m)
  {
    hide FrozenBy, ScopedPrior, DropUnfrozen, KeyOwner;
  }

  /** Every file the recovering upload reads is still the scanned revision. */
  ghost predicate ReadsSettled(cfg: Config, o: Observations, e: Draft) {
    forall n, p | n in e.sources && p in BatchOf(o, e, n).files :: At(cfg.lib, BatchOf(o, e, n), p).AsScanned?
  }

  lemma SettledUploadKeepsAll(cfg: Config, o: Observations, e: Draft)
    requires ReadsSettled(cfg, o, e)
    ensures UploadedSources(cfg, o, e) == e.sources && !AnyUploadHeld(cfg, o, e)
  {
    hide BatchOf, UploadedFiles, At, HeldUploads;
    forall n | n in e.sources
      ensures UploadedFiles(cfg, o, e, n) == e.sources[n].files
      ensures HeldUploads(cfg.lib, BatchOf(o, e, n)) == map[]
    {
      SettledSource(cfg, o, e, n);
    }
  }

  lemma SettledSource(cfg: Config, o: Observations, e: Draft, n: string)
    requires n in e.sources
    requires forall p | p in BatchOf(o, e, n).files :: At(cfg.lib, BatchOf(o, e, n), p).AsScanned?
    ensures UploadedFiles(cfg, o, e, n) == e.sources[n].files
    ensures HeldUploads(cfg.lib, BatchOf(o, e, n)) == map[]
  {
    hide At, ToUpload;
    var b := BatchOf(o, e, n);
    assert Patches(cfg.lib, b) == map[] && HeldUploads(cfg.lib, b) == map[];
  }

  /** The intact push reads no more than the recovering one, and reads it the same. */
  lemma SettledForBoth(cfg: Config, o: Observations, e: Draft, m: Manifest)
    requires o.fetch == CanonicalFetch(m) && ReadsSettled(cfg, Corrupted(o), e)
    ensures ReadsSettled(cfg, o, e)
  {
    forall n, p | n in e.sources && p in BatchOf(o, e, n).files
      ensures At(cfg.lib, BatchOf(o, e, n), p).AsScanned?
    {
      assert p in BatchOf(Corrupted(o), e, n).files;
      assert At(cfg.lib, BatchOf(Corrupted(o), e, n), p).AsScanned?;
    }
  }

  lemma SameRescan(cfg: Config, o: Observations, m: Manifest, d: Draft)
    requires o.fetch == CanonicalFetch(m)
    requires o.rescan.Scanned? ==> Settled(o.rescan)
    ensures Rescanned(cfg, Corrupted(o), d) == Rescanned(cfg, o, d)
  {
    hide AbsenceProven, CandidatesProven, GenerateTombstones, InjectSources, SurvivingMap, Settled, CarryHeld,
      NewlyFrozen;
    var c := Corrupted(o);
    if o.rescan.Scanned? {
      SameCarried(o, d);
    }
  }

  lemma SameCarried(o: Observations, d: Draft)
    requires o.rescan.Scanned?
    ensures RescannedSources(Corrupted(o), d) == RescannedSources(o, d)
    ensures FrozenAfter(Corrupted(o), d) == FrozenAfter(o, d)
  {
    hide CarryHeld, NewlyFrozen;
    var c := Corrupted(o);
    forall n | n in o.rescan.sources
      ensures RescannedFiles(c, d, n) == RescannedFiles(o, d, n) && RescannedFrozen(c, d, n) == RescannedFrozen(o, d, n)
    {
      assert BothRoots(c, n) == BothRoots(o, n);
    }
  }

  /** Recovery is transparent to the end: if both pushes publish over settled reads, they
      publish the same manifest. */
  lemma RecoveryPublishesSame(cfg: Config, s: Store, o: Observations, m: Manifest, e: Draft, r: Draft)
    requires o.fetch == CanonicalFetch(m) && SidecarHolds(cfg, s, o, m) && AllStored(m, s.blobs.Keys)
    requires (o.scan.Scanned? ==> Settled(o.scan)) && (o.rescan.Scanned? ==> Settled(o.rescan))
    requires Decide(cfg, s, o) == Publishes(e) && Decide(cfg, s, Corrupted(o)) == Publishes(r)
    requires ReadsSettled(cfg, Corrupted(o), r)
    ensures FinalManifest(cfg, Corrupted(o), r) == FinalManifest(cfg, o, e)
  {
    hide Decide, Prepare, Rescanned, UploadedSources, AnyUploadHeld, GenerateTombstones, ReadsSettled, AllStored,
      Settled,
      Substantive, AnyUploadRefuses;
    RecoveryIsTransparent(cfg, s, o, m);
    var d, e' := PublishedDraft(cfg, s, o);
    var q, r' := PublishedDraft(cfg, s, Corrupted(o));
    SameRescan(cfg, o, m, d);
    SettledForBoth(cfg, o, e, m);
    SettledUploadKeepsAll(cfg, o, e);
    SettledUploadKeepsAll(cfg, Corrupted(o), r);
  }

  lemma BackedIsStored(lib: Library, m: Manifest, blobs: map<string, Bytes>)
    requires Backed(lib, m.sources, blobs)
    ensures AllStored(m, blobs.Keys)
  {
  }

  /** After any accepted push whose sidecar was written, losing the canonical manifest does
      not change what the device's next push builds. */
  lemma AcceptedPushIsRecoverable(
    one: Config, a: Observations, s: Store, t: Store, m: Manifest, two: Config, o: Observations)
    requires Healthy(one.lib, s) && SoundFetch(one.lib, s, DidPush(one, a, Published(m)))
    requires Step(s, DidPush(one, a, Published(m)), t) && a.sidecarWrites
    requires two.device == one.device && o.sidecarReadable && o.fetch == CanonicalFetch(m)
    requires o.scan.Scanned? ==> Settled(o.scan)
    ensures Prepare(two, t, Corrupted(o)) == Prepare(two, t, o)
  {
    hide Healthy, Prepare, AllStored, Settled, Decide, Backed, Grown, HasAll, AllPuts, SoundFetch;
    PushStaysHealthy(one.lib, s, one, a, Published(m), t);
    BackedIsStored(one.lib, m, t.blobs);
    RecoveryIsTransparent(two, t, o, m);
  }

  // ---- tombstones of disabled sources ---------------------------------------------

  /** The readers' filter over disabled sources is the push's filter over selected ones:
      the same sources stay, and neither touches a tombstone. */
  lemma FiltersAgree(m: Manifest, disabled: set<string>, intended: set<string>)
    requires forall n | n in m.sources :: n in disabled <==> n !in intended
    ensures FilterDisabled(m, disabled) == FilterUnselected(m, intended)
    ensures FilterDisabled(m, disabled).tombstones == m.tombstones
  {
  }

  /** An accepted push keeps the tombstone under this key: what follows the key's first
      colon is not a conflict copy's name or a marker, and it has not expired on the clock
      the push used last. */
  predicate Spares(cfg: Config, o: Observations, e: Draft, k: string, t: Tombstone) {
    !cfg.paths.conflictNamed(KeyOwner(k).1) && !cfg.paths.marker(KeyOwner(k).1)
    && Active(cfg.lib.instant, t, LastClock(cfg, o, e).now)
  }

  /** While a source is disabled its files are dropped, its tombstones are kept unchanged
      until they expire, and none is added. */
  lemma DisabledStep(cfg: Config, s: Store, o: Observations, e: Draft, m: Manifest, n: string, p: string)
    requires WellFormed(cfg, o) && Decide(cfg, s, o) == Publishes(e) && PriorOf(cfg, s, o) == Prior(m)
    requires n !in Intended(cfg) && Unclaimed(cfg.available.Keys, n, p)
    ensures
      var final := FinalManifest(cfg, o, e);
      var k := Key(n, p);
      && n !in final.sources
      && (k in final.tombstones <==> k in m.tombstones && Spares(cfg, o, e, k, m.tombstones[k]))
      && (k in final.tombstones ==> final.tombstones[k] == m.tombstones[k])
  {
    hide Decide, PriorOf, UploadedFiles, GenerateTombstones, FinalTombstones, ComparedPrior, LiveKeys, DroppedKeys,
      Active,
      WellFormed, UnderPrefix, LastClock, Key, Unclaimed, LostSource;
    var k := Key(n, p);
    var final := FinalManifest(cfg, o, e);
    PublishedSources(cfg, s, o, e);
    var clock := FinalComparison(cfg, s, o, e);
    GeneratedKeys(cfg.lib.instant, final.sources, e.prior, clock, cfg.device, k);
    ComparedTombstones(cfg, s, o, m, k);
    DisabledOwner(cfg, n, p);
    LiveKeyIsOwn(final.sources, n, p);
    if k in DroppedKeys(final.sources, e.prior.value.sources) {
      var x, y := DroppedFrom(final.sources, e.prior.value.sources, k);
      ComparedPublishes(cfg, s, o, m, x, y);
      SelectedIsAvailable(cfg, PriorOf(cfg, s, o), x, y);
      UnclaimedExactly(cfg.available.Keys, n, p);
      assert false;
    }
  }

  /** However the key reads back, its owner is no available source. */
  lemma DisabledOwner(cfg: Config, n: string, p: string)
    requires n !in Intended(cfg) && Unclaimed(cfg.available.Keys, n, p)
    ensures KeyOwner(Key(n, p)).0 !in cfg.available
  {
    hide Unclaimed;
    var k := Key(n, p);
    assert k[|n|] == ':';
    UnclaimedExactly(cfg.available.Keys, n, p);
  }

  /** The source that the key's first colon names lets the tombstone be: it is not available,
      or it selects the path and no link can lead to it. */
  predicate OwnerKeeps(cfg: Config, k: string) {
    var (n, p) := KeyOwner(k);
    n in cfg.available ==> Scoped(cfg, n, p) && !cfg.paths.valid(p)
  }

  /** A spared tombstone survives, unchanged, when its owner by the first colon keeps it and
      no available source may publish a path with its key. */
  lemma SparedIsKept(cfg: Config, s: Store, o: Observations, e: Draft, m: Manifest, n: string, p: string)
    requires WellFormed(cfg, o) && Decide(cfg, s, o) == Publishes(e) && PriorOf(cfg, s, o) == Prior(m)
    requires n !in Intended(cfg) && Unrivalled(cfg, s, o, m, n, p) && OwnerKeeps(cfg, Key(n, p))
    requires Key(n, p) in m.tombstones && Spares(cfg, o, e, Key(n, p), m.tombstones[Key(n, p)])
    ensures Key(n, p) in FinalManifest(cfg, o, e).tombstones
    ensures FinalManifest(cfg, o, e).tombstones[Key(n, p)] == m.tombstones[Key(n, p)]
  {
    hide Decide, PriorOf, UploadedFiles, GenerateTombstones, FinalTombstones, ComparedPrior, LiveKeys, DroppedKeys,
      Active,
      WellFormed, UnderPrefix, LastClock, Key, Unrivalled, LostSource, KeyOwner;
    var k := Key(n, p);
    var final := FinalManifest(cfg, o, e);
    PublishedSources(cfg, s, o, e);
    var clock := FinalComparison(cfg, s, o, e);
    GeneratedKeys(cfg.lib.instant, final.sources, e.prior, clock, cfg.device, k);
    ComparedTombstones(cfg, s, o, m, k);
    UnrivalledKeyIsOwn(cfg, s, o, m, e, n, p);
  }

  /** Every accepted push over this prior, whose last clock the tombstone outlives, keeps it. */
  ghost predicate AlwaysSurvives(cfg: Config, s: Store, b: Observations, m: Manifest, k: string)
    requires k in m.tombstones
  {
    forall o: Observations, e: Draft ::
      WellFormed(cfg, o) && SameStart(o, b) && Decide(cfg, s, o) == Publishes(e)
      && Spares(cfg, o, e, k, m.tombstones[k]) ==>
        k in FinalManifest(cfg, o, e).tombstones && FinalManifest(cfg, o, e).tombstones[k] == m.tombstones[k]
  }

  /** Nothing is seen, and the one path lies behind a link. */
  function LinkedLook(n: string, p: string, clock: Clock): Look {
    Look(map[], map[], {}, (x, y) => Gone, (x, y) => x == n && y == p, (x, y) => Blank(), (x, y) => Blank(), clock)
  }

  lemma LinkedIsAccounted(cfg: Config, b: Observations, m: Manifest, n: string, p: string, clock: Clock)
    ensures Accounted(cfg, b, m, LinkedLook(n, p, clock)) && Possible(cfg, LinkedLook(n, p, clock))
    ensures forall x :: Paths(LinkedLook(n, p, clock).roots, x) == {} && SeenIn(LinkedLook(n, p, clock), x) == map[]
  {
    hide Deletable, UploadOne, Unproven, MaySee, MayMeet, UnderPrefix;
  }

  /** An owner that does not keep the tombstone makes some accepted push drop it, by its own
      exclusions or by a link. */
  lemma OwnerDrops(cfg: Config, s: Store, b: Observations, m: Manifest, k: string, clock: Clock)
    returns (o: Observations, e: Draft)
    requires Starts(cfg, s, b, m) && k in m.tombstones && ':' in k && !OwnerKeeps(cfg, k)
    requires m.tombstones[k] != Tombstone(clock.iso, cfg.device)
    ensures WellFormed(cfg, o) && SameStart(o, b) && Decide(cfg, s, o) == Publishes(e)
    ensures o.clocks == (clock, clock, clock)
    ensures k in FinalManifest(cfg, o, e).tombstones ==> FinalManifest(cfg, o, e).tombstones[k] != m.tombstones[k]
  {
    hide PriorOf, LostSource, Decide, FinalManifest, WellFormed, ShowsSeen, Accounted, Possible, Looking, KeyOwner,
      ComparedPrior, GenerateTombstones, DroppedKeys, LiveKeys, LastClock, Scoped, Starts, Active;
    var (n, p) := KeyOwner(k);
    var l := LinkedLook(n, p, clock);
    o := Looking(cfg, b, l);
    LinkedIsAccounted(cfg, b, m, n, p, clock);
    LookStarts(cfg, s, b, m, l);
    e := LookPublishes(cfg, s, b, m, l);
    PublishedSources(cfg, s, o, e);
    var c := FinalComparison(cfg, s, o, e);
    OneClock(cfg, o, e, clock);
    FinalIsUploaded(cfg, o, e);
    LinkedKeyGoes(cfg, s, b, m, k, clock);
    GeneratedKeys(cfg.lib.instant, FinalManifest(cfg, o, e).sources, e.prior, c, cfg.device, k);
  }

  lemma LinkedKeyGoes(cfg: Config, s: Store, b: Observations, m: Manifest, k: string, clock: Clock)
    requires ':' in k && !OwnerKeeps(cfg, k)
    ensures
      var o := Looking(cfg, b, LinkedLook(KeyOwner(k).0, KeyOwner(k).1, clock));
      o.scan.Scanned? && k !in ComparedPrior(cfg, s, o, m).tombstones
  {
    hide KeyOwner, ComparedPrior, Scoped, UnderPrefix;
    var (n, p) := KeyOwner(k);
    var o := Looking(cfg, b, LinkedLook(n, p, clock));
    ComparedTombstones(cfg, s, o, m, k);
    assert Paths(ScanRoots(o.scan), n) == {};
    NoRootCoversNothing(p);
  }

  /** A disabled source's tombstone that can be spared at all survives every push that spares
      it if and only if the source its key's first colon names keeps it and no available
      source may publish a path with that key. */
  lemma DisabledExactly(cfg: Config, s: Store, b: Observations, m: Manifest, n: string, p: string)
    requires Starts(cfg, s, b, m) && n !in Intended(cfg) && Key(n, p) in m.tombstones
    requires !cfg.paths.conflictNamed(KeyOwner(Key(n, p)).1) && !cfg.paths.marker(KeyOwner(Key(n, p)).1)
    requires cfg.lib.instant(m.tombstones[Key(n, p)].deletedAt).Some?
    ensures AlwaysSurvives(cfg, s, b, m, Key(n, p)) <==>
            Unrivalled(cfg, s, b, m, n, p) && OwnerKeeps(cfg, Key(n, p))
  {
    hide PriorOf, LostSource, Decide, FinalManifest, WellFormed, KeyOwner, LastClock, Intended, Unrivalled, OwnerKeeps,
      OutOfReach;
    var k := Key(n, p);
    var t := m.tombstones[k];
    assert k[|n|] == ':';
    if Unrivalled(cfg, s, b, m, n, p) && OwnerKeeps(cfg, k) {
      forall o: Observations, e: Draft |
        WellFormed(cfg, o) && SameStart(o, b) && Decide(cfg, s, o) == Publishes(e)
        && Spares(cfg, o, e, k, m.tombstones[k])
        ensures k in FinalManifest(cfg, o, e).tombstones && FinalManifest(cfg, o, e).tombstones[k] == m.tombstones[k]
      {
        SameStartSamePrior(cfg, s, o, b);
        SameStartSameRivals(cfg, s, o, b, m, n, p);
        SparedIsKept(cfg, s, o, e, m, n, p);
      }
    } else {
      var clock := Clock(cfg.lib.instant(t.deletedAt).value, t.deletedAt + "x");
      assert |t.deletedAt + "x"| != |t.deletedAt|;
      var o, e := DroppingPush(cfg, s, b, m, n, p, clock);
      OneClock(cfg, o, e, clock);
    }
  }

  lemma DroppingPush(cfg: Config, s: Store, b: Observations, m: Manifest, n: string, p: string, clock: Clock)
    returns (o: Observations, e: Draft)
    requires Starts(cfg, s, b, m) && Key(n, p) in m.tombstones && ':' in Key(n, p)
    requires m.tombstones[Key(n, p)] != Tombstone(clock.iso, cfg.device)
    requires !Unrivalled(cfg, s, b, m, n, p) || !OwnerKeeps(cfg, Key(n, p))
    ensures WellFormed(cfg, o) && SameStart(o, b) && Decide(cfg, s, o) == Publishes(e)
    ensures o.clocks == (clock, clock, clock)
    ensures Key(n, p) in FinalManifest(cfg, o, e).tombstones ==>
              FinalManifest(cfg, o, e).tombstones[Key(n, p)] != m.tombstones[Key(n, p)]
  {
    hide Starts, Decide, FinalManifest, WellFormed, Unrivalled, OwnerKeeps, OutOfReach, Key;
    if !Unrivalled(cfg, s, b, m, n, p) {
      o, e := RivalLoses(cfg, s, b, m, n, p, clock);
    } else {
      o, e := OwnerDrops(cfg, s, b, m, Key(n, p), clock);
    }
  }

  /** One accepted push of a history; anything may happen to the store between two. */
  datatype Accepted = Accepted(cfg: Config, o: Observations, before: Store, after: Store, draft: Draft)

  /** Accepted pushes, each fetching the manifest the one before it put. */
  ghost predicate History(pushes: seq<Accepted>, manifests: seq<Manifest>) {
    |manifests| == |pushes| + 1
    && forall i | 0 <= i < |pushes| :: Follows(pushes[i], manifests[i], manifests[i + 1])
  }

  ghost predicate Follows(a: Accepted, from: Manifest, to: Manifest) {
    && WellFormed(a.cfg, a.o) && a.o.fetch == CanonicalFetch(from)
    && PushStep(a.cfg, a.o, a.before, a.after, Published(to))
    && Decide(a.cfg, a.before, a.o) == Publishes(a.draft)
  }

  /** The push leaves the source out, and no available source claims the key. */
  predicate LeavesOut(a: Accepted, n: string, p: string) {
    n !in Intended(a.cfg) && Unclaimed(a.cfg.available.Keys, n, p)
  }

  lemma FollowsDisabled(a: Accepted, from: Manifest, to: Manifest, n: string, p: string)
    requires Follows(a, from, to) && LeavesOut(a, n, p)
    ensures
      var k := Key(n, p);
      && n !in to.sources
      && (k in to.tombstones <==> k in from.tombstones && Spares(a.cfg, a.o, a.draft, k, from.tombstones[k]))
      && (k in to.tombstones ==> to.tombstones[k] == from.tombstones[k])
  {
    hide PushStep, Decide, FinalManifest, Spares, Key, Unclaimed, PriorOf;
    var e := PublishedStep(a.cfg, a.o, a.before, a.after, to);
    CanonicalPrior(a.cfg, a.before, a.o, from);
    DisabledStep(a.cfg, a.before, a.o, e, from, n, p);
  }

  /** Over any number of accepted pushes made while its source is disabled, a tombstone
      survives, unchanged, exactly as long as each push spares it. */
  lemma {:induction false} DisabledTombstoneSurvives(
    pushes: seq<Accepted>, manifests: seq<Manifest>, n: string, p: string, i: nat)
    requires History(pushes, manifests) && i <= |pushes|
    requires forall j | 0 <= j < |pushes| :: LeavesOut(pushes[j], n, p)
    ensures
      var k := Key(n, p);
      && (k in manifests[i].tombstones <==>
            && k in manifests[0].tombstones
            && forall j | 0 <= j < i ::
                 Spares(pushes[j].cfg, pushes[j].o, pushes[j].draft, k, manifests[0].tombstones[k]))
      && (k in manifests[i].tombstones ==> manifests[i].tombstones[k] == manifests[0].tombstones[k])
      && (i > 0 ==> n !in manifests[i].sources)
  {
    hide Follows, Spares, Key, LeavesOut;
    if i > 0 {
      DisabledTombstoneSurvives(pushes, manifests, n, p, i - 1);
      FollowsDisabled(pushes[i - 1], manifests[i - 1], manifests[i], n, p);
    }
  }

  // ---- the life of a nested checkout --------------------------------------------------

  /** The push found a checkout over the in-scope path and did not read it. */
  predicate Covers(a: Accepted, n: string, p: string) {
    && WellFormed(a.cfg, a.o) && a.o.scan.Scanned? && n in a.cfg.available
    && Unread(a.cfg, a.o, n, p) && InScope(a.cfg, n, p) && UnderPrefix(p, a.o.scan.sources[n].roots)
  }

  /** The push over `from` found neither the checkout nor the path, and nothing sets the path
      aside or may publish another path with its key. */
  ghost predicate Misses(a: Accepted, from: Manifest, n: string, p: string) {
    && WellFormed(a.cfg, a.o) && a.o.scan.Scanned? && n in a.cfg.available
    && NowGone(a.cfg, a.o, n, p) && InScope(a.cfg, n, p)
    && !Symlinked(a.cfg, ScanRoots(a.o.scan), a.o.linkedFile, n, p) && Unrivalled(a.cfg, a.before, a.o, from, n, p)
  }

  lemma FollowsCovered(a: Accepted, from: Manifest, to: Manifest, n: string, p: string)
    requires Follows(a, from, to) && Covers(a, n, p)
    requires Lists(from.sources, n, p) && Key(n, p) !in from.tombstones
    ensures Lists(to.sources, n, p) && Files(to.sources, n)[p] == Files(from.sources, n)[p]
    ensures Key(n, p) !in to.tombstones
  {
    hide PushStep, Decide, FinalManifest, Key, PriorOf, Unread, InScope, UnderPrefix, ScopedPrior, StoredFilter;
    CanonicalPrior(a.cfg, a.before, a.o, from);
    ScopedTombstonesShrink(a.cfg, from, n, p);
    KeepsAnything(Files(from.sources, n)[p]);
    StepKeepsCovered(a.cfg, a.o, a.before, a.after, from, to, n, p);
  }

  /** Over any number of accepted pushes under a checkout a published entry stays published,
      unchanged, and untombstoned. */
  lemma {:induction false} CoveredEntrySurvives(
    pushes: seq<Accepted>, manifests: seq<Manifest>, n: string, p: string, i: nat)
    requires History(pushes, manifests) && i <= |pushes|
    requires forall j | 0 <= j < i :: Covers(pushes[j], n, p)
    requires Lists(manifests[0].sources, n, p) && Key(n, p) !in manifests[0].tombstones
    ensures Lists(manifests[i].sources, n, p) && Key(n, p) !in manifests[i].tombstones
    ensures Files(manifests[i].sources, n)[p] == Files(manifests[0].sources, n)[p]
  {
    hide Follows, Covers, Key;
    if i > 0 {
      CoveredEntrySurvives(pushes, manifests, n, p, i - 1);
      FollowsCovered(pushes[i - 1], manifests[i - 1], manifests[i], n, p);
    }
  }

  /** And the first push after that finds checkout and file gone tombstones it. */
  lemma CheckoutLifetime(pushes: seq<Accepted>, manifests: seq<Manifest>, n: string, p: string)
    requires History(pushes, manifests) && pushes != []
    requires forall j | 0 <= j < |pushes| - 1 :: Covers(pushes[j], n, p)
    requires Misses(pushes[|pushes| - 1], manifests[|pushes| - 1], n, p)
    requires Lists(manifests[0].sources, n, p) && Key(n, p) !in manifests[0].tombstones
    ensures forall i | 0 <= i < |pushes| ::
              Lists(manifests[i].sources, n, p) && Key(n, p) !in manifests[i].tombstones
              && Files(manifests[i].sources, n)[p] == Files(manifests[0].sources, n)[p]
    ensures Key(n, p) in manifests[|pushes|].tombstones && !Lists(manifests[|pushes|].sources, n, p)
  {
    hide Covers, Key, PushStep, Decide, NowGone, InScope, Symlinked, Unrivalled;
    forall i | 0 <= i < |pushes|
      ensures Lists(manifests[i].sources, n, p) && Key(n, p) !in manifests[i].tombstones
      ensures Files(manifests[i].sources, n)[p] == Files(manifests[0].sources, n)[p]
    {
      CoveredEntrySurvives(pushes, manifests, n, p, i);
    }
    var a, last := pushes[|pushes| - 1], |pushes| - 1;
    StepTombstonesGone(a.cfg, a.o, a.before, a.after, manifests[last], manifests[last + 1], n, p);
  }

  // ---- quiescence -------------------------------------------------------------------

  /** The push held nothing, neither at the scan nor at the upload. */
  predicate HeldNothing(cfg: Config, o: Observations, e: Draft) {
    !AnyUploadHeld(cfg, o, e) && forall n | n in e.held :: e.held[n] == {}
  }

  /** The last revision this push read of each file it did not freeze. */
  function LastSeen(cfg: Config, o: Observations, e: Draft, n: string): map<string, Entry> {
    var patches := Patches(cfg.lib, BatchOf(o, e, n));
    map p | p in Files(e.sources, n) && p !in Paths(e.frozen, n) ::
      if p in patches then patches[p] else Files(e.sources, n)[p]
  }

  /** The next walk sees what the last push read last, and checkouts over what it froze. */
  ghost predicate SameDisk(cfg: Config, o: Observations, e: Draft, next: Scan) {
    && next.Scanned? && next.sources.Keys == cfg.available.Keys
    && forall n | n in cfg.available ::
         && next.sources[n].files == LastSeen(cfg, o, e, n)
         && next.sources[n].held == {} && next.sources[n].candidates == {}
         && forall p | p in Paths(e.frozen, n) :: UnderPrefix(p, next.sources[n].roots)
  }

  /** Whatever is frozen in the published draft is in scope. */
  lemma FrozenInScope(cfg: Config, s: Store, o: Observations, e: Draft, n: string, p: string)
    requires WellFormed(cfg, o) && Decide(cfg, s, o) == Publishes(e)
    requires p in Paths(e.frozen, n) && p in Files(e.sources, n)
    ensures InScope(cfg, n, p)
  {
    hide Decide, PriorOf, Prepare, Rescanned, InScope, RescannedFrozen, RescannedFiles;
    var d, e' := PublishedDraft(cfg, s, o);
    PreparedPrior(cfg, s, o, d);
    if cfg.available.Keys * INTERNAL != {} {
      RescanAccepted(cfg, o, d, e);
    }
    if cfg.available.Keys * INTERNAL != {} && n in o.rescan.sources {
      InsideRescan(cfg, o, d, e, n, p);
      RescanFrozenEntry(o, d, n, p);
    } else {
      OutsideRescan(cfg, o, d, e, n);
    }
    SetAsideInScope(cfg, s, o, d, n, p);
  }

  lemma SetAsideInScope(cfg: Config, s: Store, o: Observations, d: Draft, n: string, p: string)
    requires WellFormed(cfg, o) && Prepare(cfg, s, o) == Some(d)
    requires p in Files(d.sources, n) && (p in Paths(d.frozen, n) || p in Paths(d.held, n))
    ensures InScope(cfg, n, p)
  {
    hide PriorOf, InScope, DraftWithPrior, RefusesEarly, HeldBefore, ComparedPrior, FrozenMap, ScopedPrior;
    PreparedPrior(cfg, s, o, d);
    if PriorOf(cfg, s, o).Prior? {
      var m := PriorOf(cfg, s, o).manifest;
      DraftFiles(cfg, s, o, m, d, n, p);
      ScopedPublishes(cfg, m, n, p);
      ComparedPublishes(cfg, s, o, m, n, p);
    } else {
      UnpriorSetAside(cfg, s, o, d, n, p);
    }
  }

  lemma UnpriorSetAside(cfg: Config, s: Store, o: Observations, d: Draft, n: string, p: string)
    requires Prepare(cfg, s, o) == Some(d) && PriorOf(cfg, s, o).NoPrior?
    requires p in Files(d.sources, n)
    ensures p !in Paths(d.frozen, n) && p !in Paths(d.held, n)
  {
    hide PriorOf, RefusesEarly, WalkExcluded, HeldBefore;
  }

  /** What a push that held nothing published, path by path. */
  lemma PublishedWhenNothingHeld(cfg: Config, o: Observations, e: Draft, n: string, p: string)
    requires HeldNothing(cfg, o, e) && n in e.sources
    ensures
      var f := UploadedFiles(cfg, o, e, n);
      && (p in f <==> p in Files(e.sources, n))
      && (p in LastSeen(cfg, o, e, n) <==> p in f && p !in Paths(e.frozen, n))
      && (p in LastSeen(cfg, o, e, n) ==> f[p] == LastSeen(cfg, o, e, n)[p])
  {
    hide At;
    assert HeldUploads(cfg.lib, BatchOf(o, e, n)) == map[];
  }

  /** The second draft publishes exactly what the first push published. */
  lemma QuietFiles(
    cfg: Config, s: Store, o: Observations, e: Draft, t: Store, next: Observations, d: Draft, n: string, p: string)
    requires WellFormed(cfg, o) && Decide(cfg, s, o) == Publishes(e) && HeldNothing(cfg, o, e)
    requires next.fetch == CanonicalFetch(FinalManifest(cfg, o, e)) && SameDisk(cfg, o, e, next.scan)
    requires WellFormed(cfg, next)
    requires Prepare(cfg, t, next) == Some(d) && n in cfg.available
    ensures
      var f := UploadedFiles(cfg, o, e, n);
      && (p in Files(d.sources, n) <==> p in f)
      && (p in f ==> Files(d.sources, n)[p] == f[p])
  {
    hide Decide, PriorOf, Prepare, LastSeen, UploadedFiles, InScope, UnderPrefix, FrozenMap, ScopedPrior, ComparedPrior,
      FinalTombstones, NoLiveTombstone, HeldNothing, StoredFilter, Keeps;
    var m := FinalManifest(cfg, o, e);
    var scan := next.scan.sources[n];
    PublishedSources(cfg, s, o, e);
    CanonicalPrior(cfg, t, next, m);
    PreparedWithPrior(cfg, t, next, m, d);
    DraftFiles(cfg, t, next, m, d, n, p);
    assert HeldBefore(cfg, next.scan, n) == {};
    PublishedWhenNothingHeld(cfg, o, e, n, p);
    ScopedPublishes(cfg, m, n, p);
    if p in UploadedFiles(cfg, o, e, n) && p in Paths(e.frozen, n) {
      FrozenInScope(cfg, s, o, e, n, p);
      PublishedIsLive(cfg, s, o, e, n, p);
      ScopedTombstonesShrink(cfg, m, n, p);
      FrozenExactly(cfg, t, next, m, n, p);
      KeepsAnything(Files(ScopedPrior(cfg, m).sources, n)[p]);
    }
  }

  lemma ScopedTombstonesShrink(cfg: Config, m: Manifest, n: string, p: string)
    ensures IsTombstoned(n, p, ScopedPrior(cfg, m).tombstones) ==> IsTombstoned(n, p, m.tombstones)
  {
  }

  lemma KeepsAnything(e: Entry)
    ensures Keeps(None, e)
  {
  }

  lemma PublishedIsLive(cfg: Config, s: Store, o: Observations, e: Draft, n: string, p: string)
    requires WellFormed(cfg, o) && Decide(cfg, s, o) == Publishes(e)
    requires n in cfg.available && p in Files(FinalManifest(cfg, o, e).sources, n)
    ensures !IsTombstoned(n, p, FinalManifest(cfg, o, e).tombstones)
  {
    hide Decide, FinalManifest, PriorOf, GenerateTombstones, WellFormed;
    NothingLiveTombstoned(cfg, s, o, e);
    NotTombstoned(FinalManifest(cfg, o, e), n, p);
  }

  /** Nothing to publish over an unchanged disk: no byte diff, no newer mtime, no recovery
      and no change of selection. */
  lemma NothingSubstantive(
    cfg: Config, s: Store, o: Observations, e: Draft, t: Store, next: Observations, d: Draft)
    requires WellFormed(cfg, o) && Decide(cfg, s, o) == Publishes(e) && HeldNothing(cfg, o, e)
    requires next.fetch == CanonicalFetch(FinalManifest(cfg, o, e)) && SameDisk(cfg, o, e, next.scan)
    requires WellFormed(cfg, next) && !next.catchupPending
    requires Prepare(cfg, t, next) == Some(d)
    ensures !Substantive(cfg, t, next, d)
  {
    hide Decide, Prepare, FinalManifest, HeldNothing, SameDisk, Substantive;
    var m := FinalManifest(cfg, o, e);
    PublishedSources(cfg, s, o, e);
    PreparedKeys(cfg, t, next, d);
    forall n | n in d.sources
      ensures d.sources[n].files == Files(m.sources, n)
    {
      QuietSource(cfg, s, o, e, t, next, d, n);
    }
    EqualFilesAreQuiet(cfg, t, next, d, m);
  }

  lemma PreparedKeys(cfg: Config, t: Store, next: Observations, d: Draft)
    requires WellFormed(cfg, next) && Prepare(cfg, t, next) == Some(d)
    ensures d.sources.Keys == cfg.available.Keys
  {
    hide Prepare, PriorOf, ComparedPrior;
    PreparedPrior(cfg, t, next, d);
  }

  lemma QuietSource(
    cfg: Config, s: Store, o: Observations, e: Draft, t: Store, next: Observations, d: Draft, n: string)
    requires WellFormed(cfg, o) && Decide(cfg, s, o) == Publishes(e) && HeldNothing(cfg, o, e)
    requires next.fetch == CanonicalFetch(FinalManifest(cfg, o, e)) && SameDisk(cfg, o, e, next.scan)
    requires WellFormed(cfg, next)
    requires Prepare(cfg, t, next) == Some(d) && n in cfg.available && n in d.sources
    requires n in e.sources
    ensures d.sources[n].files == Files(FinalManifest(cfg, o, e).sources, n)
  {
    hide Decide, Prepare, UploadedFiles, FinalTombstones, HeldNothing, SameDisk, WellFormed;
    forall p
      ensures p in Files(d.sources, n) <==> p in UploadedFiles(cfg, o, e, n)
      ensures p in Files(d.sources, n) ==> Files(d.sources, n)[p] == UploadedFiles(cfg, o, e, n)[p]
    {
      QuietFiles(cfg, s, o, e, t, next, d, n, p);
    }
  }

  /** No file of the draft differs from the fetched manifest: same paths, same bytes, and no
      mtime that moved forward. */
  ghost predicate SameAsFetched(lib: Library, o: Observations, d: Draft) {
    forall n, p | n in d.sources ::
      var local, remote := d.sources[n].files, Files(RemoteSources(o), n);
      && (p in local <==> p in remote)
      && (p in local && p in remote ==>
            local[p].sha == remote[p].sha && !MovedForward(lib, local[p].mtime, remote[p].mtime))
  }

  /** Both times parse and the first is the later one. */
  ghost predicate MovedForward(lib: Library, local: Option<string>, remote: Option<string>) {
    && local.Some? && remote.Some?
    && lib.mtimeOf(local.value).Some? && lib.mtimeOf(remote.value).Some?
    && lib.mtimeOf(remote.value).value < lib.mtimeOf(local.value).value
  }

  /** A push that is not refused stays idle exactly when there is nothing to tell: it is not
      recovering, no catch-up is pending, the sources are the advertised ones and no file
      differs. Otherwise it publishes unless a later stage refuses. */
  lemma IdlesExactly(cfg: Config, s: Store, o: Observations, d: Draft)
    requires cfg.available.Keys != {} || cfg.skippedInternal
    requires Prepare(cfg, s, o) == Some(d)
    ensures Decide(cfg, s, o).Idles? <==>
      && o.fetch.status != Corrupt && !o.fetch.conflictCopiesOnly && !o.fetch.vanished && !o.catchupPending
      && d.sources.Keys == (match PriorOf(cfg, s, o) case Prior(m) => m.sources.Keys case _ => {})
      && SameAsFetched(cfg.lib, o, d)
    ensures !Decide(cfg, s, o).Idles? ==>
      (Decide(cfg, s, o).Publishes? <==>
         Rescanned(cfg, o, d).Some? && !AnyUploadRefuses(cfg, o, Rescanned(cfg, o, d).value) && !o.newerAtEnd)
  {
    hide Prepare, Rescanned, AnyUploadRefuses, PriorOf, NewerMtime;
    SameMeansNoChange(cfg, s, o, d);
  }

  lemma MovedIsNewer(lib: Library, local: Entry, remote: Entry)
    ensures local.sha == remote.sha ==>
      (NewerMtime(lib, local, remote) <==> MovedForward(lib, local.mtime, remote.mtime))
  {
  }

  lemma SameMeansNoChange(cfg: Config, s: Store, o: Observations, d: Draft)
    ensures SameAsFetched(cfg.lib, o, d) <==>
      !AnySourceChanged(d.sources, RemoteSources(o)) && !MtimeDrift(cfg.lib, d.sources, RemoteSources(o))
  {
    hide NewerMtime, MovedForward;
    forall n, p | n in d.sources && p in d.sources[n].files && p in Files(RemoteSources(o), n)
      ensures d.sources[n].files[p].sha == Files(RemoteSources(o), n)[p].sha ==>
        (NewerMtime(cfg.lib, d.sources[n].files[p], Files(RemoteSources(o), n)[p]) <==>
         MovedForward(cfg.lib, d.sources[n].files[p].mtime, Files(RemoteSources(o), n)[p].mtime))
    {
      MovedIsNewer(cfg.lib, d.sources[n].files[p], Files(RemoteSources(o), n)[p]);
    }
    if SameAsFetched(cfg.lib, o, d) {
      forall n | n in d.sources
        ensures !HasChanges(d.sources[n].files, Files(RemoteSources(o), n))
      {
        assert ChangedPaths(d.sources[n].files, Files(RemoteSources(o), n)) == {};
      }
    } else {
      var n, p :| n in d.sources
                  && var local, remote := d.sources[n].files, Files(RemoteSources(o), n);
                     !((p in local <==> p in remote)
                       && (p in local && p in remote ==>
                             local[p].sha == remote[p].sha
                             && !MovedForward(cfg.lib, local[p].mtime, remote[p].mtime)));
      if p in d.sources[n].files && (p !in Files(RemoteSources(o), n)
                                     || d.sources[n].files[p].sha != Files(RemoteSources(o), n)[p].sha) {
        assert p in ChangedPaths(d.sources[n].files, Files(RemoteSources(o), n));
      }
    }
  }

  /** Equal entries differ neither in bytes nor in mtime. */
  lemma EqualFilesAreQuiet(cfg: Config, t: Store, next: Observations, d: Draft, m: Manifest)
    requires next.fetch == CanonicalFetch(m) && !next.catchupPending
    requires d.sources.Keys == m.sources.Keys
    requires forall n | n in d.sources :: d.sources[n].files == Files(m.sources, n)
    ensures !Substantive(cfg, t, next, d)
  {
    CanonicalPrior(cfg, t, next, m);
  }

  /** After an accepted push that held nothing, a push over the same disk, configuration and
      selection leaves the store as it was, whatever else it observes and however it ends. */
  lemma PushQuiesces(
    cfg: Config, o: Observations, s: Store, t: Store, m: Manifest, e: Draft,
    next: Observations, u: Store, v: Store, out: Outcome)
    requires WellFormed(cfg, o) && PushStep(cfg, o, s, t, Published(m))
    requires Decide(cfg, s, o) == Publishes(e) && HeldNothing(cfg, o, e)
    requires WellFormed(cfg, next) && PushStep(cfg, next, u, v, out)
    requires next.fetch == CanonicalFetch(m) && SameDisk(cfg, o, e, next.scan) && !next.catchupPending
    ensures v == u && !out.Published?
  {
    hide Prepare, FinalManifest, AllPuts, HasAll, Substantive, RefusesEarly, SameDisk, HeldNothing, Rescanned;
    var e' := PublishedStep(cfg, o, s, t, m);
    if Prepare(cfg, u, next).Some? {
      NothingSubstantive(cfg, s, o, e, u, next, Prepare(cfg, u, next).value);
    }
    if !out.Idle? {
      assert v.blobs == u.blobs;
    }
  }
}
