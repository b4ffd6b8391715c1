/** Exactly when every tombstone a push can mint is justified by a probe: an if-and-only-if
    over the prior, however it was recovered, with the observations that break it built
    explicitly. */
module PushExposure {
  import opened Manifests
  import opened RemoteFetch
  import opened PushStages
  import opened PushSafety
  import opened PushTombstones
  import opened PushLooks

  /** A path whose tombstone may be minted while a regular file is in its place: the proof
      skips it, or the walk may see it and an upload hold it over its tombstone, which
      recovery never does. */
  predicate Exposed(cfg: Config, b: Observations, m: Manifest, n: string, p: string) {
    && Deletable(cfg, m, n, p)
    && (Unproven(cfg, p) || (!Recovering(b) && IsTombstoned(n, p, m.tombstones) && MaySee(cfg, n, p)))
  }

  /** A fetched manifest was loaded, so of the paths the proof skips it can only have junk; a
      path it will not join comes from the sidecar, which is not loaded that way. */
  lemma FetchedExposure(cfg: Config, s: Store, b: Observations, m: Manifest, n: string, p: string)
    requires Starts(cfg, s, b, m) && !Recovering(b)
    ensures Exposed(cfg, b, m, n, p) <==>
            Deletable(cfg, m, n, p) && (cfg.paths.junk(p) || (IsTombstoned(n, p, m.tombstones) && MaySee(cfg, n, p)))
  {
    hide PriorOf, LostSource, IsTombstoned, WalkExcluded, ConsumerExcluded;
    FetchedPrior(cfg, s, b, m);
    if Deletable(cfg, m, n, p) {
      assert LoadedPath(cfg, m, n, p);
    }
  }

  lemma FetchedPrior(cfg: Config, s: Store, b: Observations, m: Manifest)
    requires Starts(cfg, s, b, m) && !Recovering(b)
    ensures b.fetch.manifest == Some(m) && Loaded(cfg, m)
  {
    hide LostSource, Loaded;
  }

  ghost predicate AnyExposed(cfg: Config, b: Observations, m: Manifest) {
    exists n, p :: Exposed(cfg, b, m, n, p)
  }

  /** Everything this push mints is justified. */
  ghost predicate MintsJustified(cfg: Config, o: Observations, e: Draft, m: Manifest) {
    forall k :: Minted(m, FinalManifest(cfg, o, e), k) ==> JustifiedKey(cfg, o, m, k)
  }

  /** So for every accepted push that starts as `b` does. */
  ghost predicate AlwaysJustified(cfg: Config, s: Store, b: Observations, m: Manifest) {
    forall o: Observations, e: Draft ::
      WellFormed(cfg, o) && SameStart(o, b) && Decide(cfg, s, o) == Publishes(e) ==> MintsJustified(cfg, o, e, m)
  }

  /** No exposed path: every push that publishes mints only justified tombstones. */
  lemma UnexposedIsJustified(cfg: Config, s: Store, b: Observations, o: Observations, e: Draft, m: Manifest)
    requires Starts(cfg, s, b, m) && !AnyExposed(cfg, b, m)
    requires WellFormed(cfg, o) && SameStart(o, b) && Decide(cfg, s, o) == Publishes(e)
    ensures MintsJustified(cfg, o, e, m)
  {
    hide Decide, FinalManifest, PriorOf, Unproven, Deletable, LastProbe, LostSource, IsTombstoned, WellFormed, Minted,
      MaySee;
    SameStartSamePrior(cfg, s, o, b);
    forall k | Minted(m, FinalManifest(cfg, o, e), k)
      ensures JustifiedKey(cfg, o, m, k)
    {
      MintedIsPresent(m, FinalManifest(cfg, o, e), k);
      var n, p := MintedMeaning(cfg, s, o, e, k);
      DeletableIsAvailable(cfg, m, n, p);
      HeldWasTombstoned(cfg, s, o, e, m, n, p);
      assert !Exposed(cfg, b, m, n, p);
      assert Justified(cfg, o, m, n, p);
    }
  }

  /** Only outside recovery does an upload hold a path, and then over the prior's tombstone. */
  lemma HeldWasTombstoned(cfg: Config, s: Store, o: Observations, e: Draft, m: Manifest, n: string, p: string)
    requires WellFormed(cfg, o) && PriorOf(cfg, s, o) == Prior(m)
    requires Decide(cfg, s, o) == Publishes(e) && n in cfg.available
    ensures HeldOverTombstone(cfg, o, e, n, p) ==>
      !Recovering(o) && IsTombstoned(n, p, m.tombstones) && MaySee(cfg, n, p)
  {
    hide PriorOf, ToUpload, IsTombstoned, Decide, Prepare, Rescanned, MaySee, Loaded, Walks;
    if !Recovering(o) {
      NotRecoveringKeepsAll(cfg, s, o);
    }
    if HeldOverTombstone(cfg, o, e, n, p) {
      BatchMayBeSeen(cfg, s, o, e, n, p);
    }
  }

  /** What an upload reads, the last walk reported. */
  lemma BatchMayBeSeen(cfg: Config, s: Store, o: Observations, e: Draft, n: string, p: string)
    requires WellFormed(cfg, o) && Decide(cfg, s, o) == Publishes(e) && n in cfg.available
    requires p in BatchOf(o, e, n).files
    ensures MaySee(cfg, n, p)
  {
    hide PriorOf, Decide, Prepare, Rescanned, MaySee;
    var d, e' := PublishedDraft(cfg, s, o);
    DraftIsLastWalk(cfg, s, o, d, e, n, p);
    assert Walks(cfg, o.scan, n) && Walks(cfg, o.rescan, n);
  }

  // ---- the breaking observations --------------------------------------------

  /** The exposed path at hand: absent from the walk if the proof skips it, else changing. */
  function Changing(cfg: Config, m: Manifest, n: string, p: string): map<string, map<string, Entry>>
    requires p in Files(m.sources, n)
  {
    if Unproven(cfg, p) then map[] else map[n := map[p := Entry(Files(m.sources, n)[p].sha + "x", 0, None)]]
  }

  /** Only this path is a regular file, and it never settles; another path with the same
      key lies behind a link. */
  function Breaking(cfg: Config, m: Manifest, n: string, p: string): Look
    requires p in Files(m.sources, n)
  {
    Look(Changing(cfg, m, n, p), map[], {}, (x, y) => if Key(x, y) == Key(n, p) then Regular else Gone,
         (x, y) => Key(x, y) == Key(n, p) && !(x == n && y == p),
         (x, y) => Transient(Changed), (x, y) => Transient(Changed), LateClock(cfg, m, Key(n, p)))
  }

  lemma BreakingIsAccounted(cfg: Config, b: Observations, m: Manifest, n: string, p: string)
    requires Exposed(cfg, b, m, n, p)
    ensures Accounted(cfg, b, m, Breaking(cfg, m, n, p)) && Possible(cfg, Breaking(cfg, m, n, p))
  {
    hide ConsumerExcluded, Unproven, LateClock, Key, IsTombstoned, Recovering, MaySee, MayMeet, UnderPrefix;
  }

  /** The only upload is of the changing path, which is held and leaves the manifest. */
  lemma BreakingUpload(cfg: Config, s: Store, b: Observations, m: Manifest, n: string, p: string, e: Draft, x: string)
    requires Starts(cfg, s, b, m) && Exposed(cfg, b, m, n, p) && x in cfg.available
    requires ShowsSeen(cfg, s, b, m, Breaking(cfg, m, n, p), e)
    ensures Files(FinalManifest(cfg, Looking(cfg, b, Breaking(cfg, m, n, p)), e).sources, x) == map[]
  {
    hide ConsumerExcluded, Unproven, PriorOf, FinalManifest, LostSource, ShowsSeen, Looking, Breaking, IsTombstoned,
      MaySee, Loaded, Recovering;
    BreakingSees(cfg, m, n, p, x);
    if Unproven(cfg, p) {
      UnseenIsUnpublished(cfg, s, b, m, Breaking(cfg, m, n, p), e, x);
    } else {
      FetchedPrior(cfg, s, b, m);
      ChangingIsHeld(cfg, s, b, m, n, p, e, x);
    }
  }

  lemma BreakingSees(cfg: Config, m: Manifest, n: string, p: string, x: string)
    requires p in Files(m.sources, n)
    ensures Paths(Breaking(cfg, m, n, p).roots, x) == {}
    ensures Unproven(cfg, p) ==> SeenIn(Breaking(cfg, m, n, p), x) == map[]
  {
    hide Unproven, LateClock;
  }

  lemma ChangingIsHeld(cfg: Config, s: Store, b: Observations, m: Manifest, n: string, p: string, e: Draft, x: string)
    requires Exposed(cfg, b, m, n, p) && !Unproven(cfg, p) && x in cfg.available
    requires ShowsSeen(cfg, s, b, m, Breaking(cfg, m, n, p), e)
    requires b.fetch.manifest == Some(m)
    ensures Files(FinalManifest(cfg, Looking(cfg, b, Breaking(cfg, m, n, p)), e).sources, x) == map[]
  {
    hide ConsumerExcluded, LateClock, Unproven, FinalTombstones, Looking, ToUpload, Recovering, Breaking, Changing, Key,
      Patches, At, ShowsSeen, HeldUploads;
    var o := Looking(cfg, b, Breaking(cfg, m, n, p));
    ChangingUploads(cfg, s, b, m, n, p, e, x);
    assert Patches(cfg.lib, BatchOf(o, e, x)) == map[];
    forall y
      ensures y !in UploadedFiles(cfg, o, e, x)
    {
    }
  }

  /** The batch is what was seen, all of it held. */
  lemma ChangingUploads(cfg: Config, s: Store, b: Observations, m: Manifest, n: string, p: string, e: Draft, x: string)
    requires Exposed(cfg, b, m, n, p) && !Unproven(cfg, p) && x in cfg.available
    requires ShowsSeen(cfg, s, b, m, Breaking(cfg, m, n, p), e)
    requires b.fetch.manifest == Some(m)
    ensures
      var o := Looking(cfg, b, Breaking(cfg, m, n, p));
      var batch := BatchOf(o, e, x);
      && RemoteSources(o) == m.sources && RemoteTombstones(o) == m.tombstones
      && Files(e.sources, x).Keys == batch.files.Keys == (if x == n then {p} else {})
      && HeldUploads(cfg.lib, batch).Keys == batch.files.Keys && Patches(cfg.lib, batch) == map[]
  {
    hide ConsumerExcluded, LateClock, Unproven, IsTombstoned, Key, Looking, ShowsSeen, Breaking, Patches, HeldUploads,
      ToUpload, Recovering, ChangedPaths, FrozenIn, Drafted, SeenIn;
    var l := Breaking(cfg, m, n, p);
    ShownSource(cfg, s, b, m, l, e, x);
    BreakingSees(cfg, m, n, p, x);
    NoRootsNothingFrozen(cfg, s, b, m, l, x);
    ChangingLooks(cfg, b, m, n, p, x);
    AllChanging(cfg, Looking(cfg, b, l), e, x);
  }

  lemma ChangingLooks(cfg: Config, b: Observations, m: Manifest, n: string, p: string, x: string)
    requires Exposed(cfg, b, m, n, p) && !Unproven(cfg, p) && b.fetch.manifest == Some(m)
    ensures
      var l := Breaking(cfg, m, n, p);
      var o := Looking(cfg, b, l);
      && !Recovering(o) && RemoteSources(o) == m.sources && RemoteTombstones(o) == m.tombstones
      && SeenIn(l, x).Keys == (if x == n then {p} else {})
      && (forall y | y in SeenIn(l, x) :: y in ChangedPaths(SeenIn(l, x), Files(m.sources, x)))
      && forall y :: o.first(x, y) == o.second(x, y) == Transient(Changed)
  {
    hide ConsumerExcluded, LateClock, Unproven, IsTombstoned, Key, LookScan;
    assert |Files(m.sources, n)[p].sha + "x"| != |Files(m.sources, n)[p].sha|;
  }

  /** Files that differ from the fetched ones and never settle are all held. */
  lemma AllChanging(cfg: Config, o: Observations, e: Draft, x: string)
    requires !Recovering(o) && Paths(e.frozen, x) == {} && Paths(e.held, x) == {}
    requires forall y | y in Files(e.sources, x) :: y in ChangedPaths(Files(e.sources, x), Files(RemoteSources(o), x))
    requires forall y :: o.first(x, y) == o.second(x, y) == Transient(Changed)
    ensures
      var batch := BatchOf(o, e, x);
      && batch.files.Keys == Files(e.sources, x).Keys
      && HeldUploads(cfg.lib, batch).Keys == batch.files.Keys && Patches(cfg.lib, batch) == map[]
  {
    var batch := BatchOf(o, e, x);
    assert batch.files.Keys == Files(e.sources, x).Keys;
    forall y | y in batch.files
      ensures At(cfg.lib, batch, y) == HeldBack(Changed)
    {
    }
  }

  /** An exposed path does get tombstoned while a regular file is in its place. */
  lemma BreakingMints(cfg: Config, s: Store, b: Observations, m: Manifest, n: string, p: string) returns (e: Draft)
    requires Starts(cfg, s, b, m) && Exposed(cfg, b, m, n, p)
    ensures
      var o := Looking(cfg, b, Breaking(cfg, m, n, p));
      && WellFormed(cfg, o) && SameStart(o, b) && Decide(cfg, s, o) == Publishes(e)
      && LastProbe(cfg, o)(n, p) == Regular
      && Minted(m, FinalManifest(cfg, o, e), Key(n, p)) && !JustifiedKey(cfg, o, m, Key(n, p))
  {
    hide ConsumerExcluded, Unproven, Decide, PriorOf, FinalManifest, Active, WellFormed, Minted, LateClock, LostSource,
      ShowsSeen, Accounted, Looking, Changing, Recovering, IsTombstoned, Key;
    var l := Breaking(cfg, m, n, p);
    var o := Looking(cfg, b, l);
    BreakingIsAccounted(cfg, b, m, n, p);
    e := LookPublishes(cfg, s, b, m, l);
    PublishedSources(cfg, s, o, e);
    forall x | x in FinalManifest(cfg, o, e).sources
      ensures FinalManifest(cfg, o, e).sources[x].files == map[]
    {
      BreakingUpload(cfg, s, b, m, n, p, e, x);
    }
    EmptiedIsMinted(cfg, s, b, m, l, e, n, p);
  }

  /** The guarantee holds for every accepted push over this prior, fetched or recovered, if
      and only if no in-scope path of an available source is on the proof's skip list or,
      outside recovery, both published and tombstoned. */
  lemma JustifiedExactly(cfg: Config, s: Store, b: Observations, m: Manifest)
    requires Starts(cfg, s, b, m)
    ensures AlwaysJustified(cfg, s, b, m) <==> !AnyExposed(cfg, b, m)
  {
    hide WellFormed, Decide, LostSource, Breaking, Looking, Minted, JustifiedKey, Unproven, IsTombstoned, PriorOf,
      ConsumerExcluded, FinalManifest, Recovering, LastProbe;
    if AnyExposed(cfg, b, m) {
      var n, p :| Exposed(cfg, b, m, n, p);
      var e := BreakingMints(cfg, s, b, m, n, p);
      assert !MintsJustified(cfg, Looking(cfg, b, Breaking(cfg, m, n, p)), e, m);
    } else {
      forall o: Observations, e: Draft | WellFormed(cfg, o) && SameStart(o, b) && Decide(cfg, s, o) == Publishes(e)
        ensures MintsJustified(cfg, o, e, m)
      {
        UnexposedIsJustified(cfg, s, b, o, e, m);
      }
    }
  }
}
