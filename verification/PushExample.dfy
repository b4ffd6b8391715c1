/** A small history that meets the hypotheses of the push theorems: a first push of one
    file, the same disk seen again, and then a checkout over it. Then two accepted pushes
    that show what a colon in a source name costs. */
module PushExample {
  import opened Manifests
  import opened RemoteFetch
  import opened PushStages
  import opened PushSafety
  import opened PushTombstones
  import opened PushLooks
  import opened PushCheckouts
  import opened PushHistory
  import opened PushVerdicts

  /** The one file, and the directory that becomes a checkout. */
  const FILE := "c/a"
  const CHECKOUT := "c"

  /** One source without any exclusion. */
  function Plainly(lib: Library): Config {
    Config("me", "me", {"claude"}, map["claude" := Everything()], false,
           PathRules(p => false, p => false, p => false, p => true), lib)
  }

  function EntryFor(lib: Library, data: Bytes): Entry {
    Entry(lib.digest(data), |data|, Some("t"))
  }

  function Walk(files: map<string, Entry>, roots: set<string>): Scan {
    Scanned(map["claude" := SourceScan("", files, {}, {}, roots)])
  }

  /** Every read of the file gives the same settled revision. */
  function Seeing(fetch: Fetch, scan: Scan, data: Bytes, catchup: bool): Observations {
    var gone: PathProbe := (n, p) => Gone;
    var reading: PathReading := (n, p) => Revision(data, "t");
    Observations(fetch, true, map[], scan, false, (n, p) => false, (n, p) => false, gone, gone, n => true, catchup,
                 Incomplete, gone, gone, n => true, reading, reading, n => true, false, true,
                 (Clock(0, ""), Clock(0, ""), Clock(0, "")), "now")
  }

  function OneFileDraft(lib: Library, data: Bytes): Draft {
    Draft(map["claude" := Source("", map[FILE := EntryFor(lib, data)])], None, map[], map["claude" := {}], map[])
  }

  function FirstLook(lib: Library, data: Bytes): Observations {
    Seeing(Plain(Missing), Walk(map[FILE := EntryFor(lib, data)], {}), data, false)
  }

  lemma FirstLookIsPossible(lib: Library, data: Bytes)
    ensures WellFormed(Plainly(lib), FirstLook(lib, data))
  {
  }

  lemma FirstDraft(lib: Library, s: Store, data: Bytes)
    ensures Prepare(Plainly(lib), s, FirstLook(lib, data)) == Some(OneFileDraft(lib, data))
  {
    var cfg, o := Plainly(lib), FirstLook(lib, data);
    var local := ScannedSources(o.scan);
    assert local == map["claude" := Source("", map[FILE := EntryFor(lib, data)])];
    assert HeldBefore(cfg, o.scan, "claude") == {};
    assert Surviving(cfg, "claude", local["claude"].files, None, o.scan, map[]) == {};
    assert Restore(local["claude"].files, map[], {}) == local["claude"].files;
    assert InjectSources(cfg, local, None, o.scan, map[]) == local;
    assert SurvivingMap(cfg, local, None, o.scan, map[]) == map["claude" := {}];
    assert PriorOf(cfg, s, o) == NoPrior;
  }

  lemma FirstUpload(lib: Library, data: Bytes)
    ensures
      var cfg, o, d := Plainly(lib), FirstLook(lib, data), OneFileDraft(lib, data);
      && !AnyUploadRefuses(cfg, o, d) && !AnyUploadHeld(cfg, o, d)
      && UploadedFiles(cfg, o, d, "claude") == map[FILE := EntryFor(lib, data)]
  {
    var cfg, o, d := Plainly(lib), FirstLook(lib, data), OneFileDraft(lib, data);
    var b := BatchOf(o, d, "claude");
    assert b.files == map[FILE := EntryFor(lib, data)];
    assert At(lib, b, FILE) == AsScanned(data);
    assert HeldUploads(lib, b) == map[] && Patches(lib, b) == map[];
    assert !BatchFatal(lib, b);
  }

  /** A device's first push publishes its file, whatever the store held. */
  lemma FirstPushPublishes(lib: Library, s: Store, data: Bytes)
    ensures
      var cfg, o, d := Plainly(lib), FirstLook(lib, data), OneFileDraft(lib, data);
      && WellFormed(cfg, o) && Decide(cfg, s, o) == Publishes(d) && HeldNothing(cfg, o, d)
      && FinalManifest(cfg, o, d).sources == map["claude" := Source("", map[FILE := EntryFor(lib, data)])]
  {
    var cfg, o, d := Plainly(lib), FirstLook(lib, data), OneFileDraft(lib, data);
    hide Prepare, AnyUploadRefuses, AnyUploadHeld, UploadedFiles;
    FirstLookIsPossible(lib, data);
    FirstDraft(lib, s, data);
    FirstUpload(lib, data);
    assert cfg.available.Keys * INTERNAL == {};
    assert FILE in ChangedPaths(d.sources["claude"].files, Files(RemoteSources(o), "claude"));
    assert AnySourceChanged(d.sources, RemoteSources(o));
  }

  /** Seeing the same disk again meets the hypothesis of quiescence. */
  lemma SameDiskAgain(lib: Library, data: Bytes)
    ensures
      var cfg, o, d := Plainly(lib), FirstLook(lib, data), OneFileDraft(lib, data);
      SameDisk(cfg, o, d, Walk(map[FILE := EntryFor(lib, data)], {}))
  {
    var cfg, o, d := Plainly(lib), FirstLook(lib, data), OneFileDraft(lib, data);
    var b := BatchOf(o, d, "claude");
    assert b.files == map[FILE := EntryFor(lib, data)];
    assert At(lib, b, FILE) == AsScanned(data);
    assert Patches(lib, b) == map[];
    assert LastSeen(cfg, o, d, "claude") == map[FILE := EntryFor(lib, data)];
  }

  // ---- a checkout over the file ---------------------------------------------------

  function FirstManifest(lib: Library, data: Bytes): Manifest {
    FinalManifest(Plainly(lib), FirstLook(lib, data), OneFileDraft(lib, data))
  }

  /** The next walk finds a checkout over the file and no file of its own. */
  function UnderCheckout(lib: Library, data: Bytes): Observations {
    Seeing(CanonicalFetch(FirstManifest(lib, data)), Walk(map[], {CHECKOUT}), data, true)
  }

  lemma FirstManifestIs(lib: Library, data: Bytes)
    ensures FirstManifest(lib, data) ==
            Manifest("me", "me", "now", map["claude" := Source("", map[FILE := EntryFor(lib, data)])], map[])
  {
    FirstUpload(lib, data);
  }

  lemma RootCovers()
    ensures UnderPrefix(FILE, {CHECKOUT}) && !UnderPrefix(FILE, {}) && CHECKOUT != "."
  {
    assert CHECKOUT + "/" == "c/" <= FILE;
  }

  lemma CheckoutLook(lib: Library, s: Store, data: Bytes)
    ensures
      var cfg, o, m := Plainly(lib), UnderCheckout(lib, data), FirstManifest(lib, data);
      && WellFormed(cfg, o) && PriorOf(cfg, s, o) == Prior(m) && StoredFilter(s, o) == None
      && Unread(cfg, o, "claude", FILE) && Covered(cfg, s, o, m, "claude", FILE)
  {
    hide FirstManifest, UnderPrefix, StoredFilter, PriorOf;
    var cfg, o, m := Plainly(lib), UnderCheckout(lib, data), FirstManifest(lib, data);
    FirstManifestIs(lib, data);
    RootCovers();
    CanonicalPrior(cfg, s, o, m);
  }

  lemma CheckoutCovers(lib: Library, s: Store, data: Bytes)
    ensures
      var cfg, o, m := Plainly(lib), UnderCheckout(lib, data), FirstManifest(lib, data);
      && WellFormed(cfg, o) && PriorOf(cfg, s, o) == Prior(m) && Covered(cfg, s, o, m, "claude", FILE)
      && Unread(cfg, o, "claude", FILE) && Paths(FrozenBy(cfg, s, o, m), "claude") == {FILE}
  {
    hide FirstManifest, UnderPrefix, StoredFilter, PriorOf, FrozenMap, ScopedPrior, InScope, Keeps;
    var cfg, o, m := Plainly(lib), UnderCheckout(lib, data), FirstManifest(lib, data);
    CheckoutLook(lib, s, data);
    FirstManifestIs(lib, data);
    CoveredIsFrozen(cfg, s, o, m, "claude", FILE);
    forall p | p in Paths(FrozenBy(cfg, s, o, m), "claude")
      ensures p == FILE
    {
      FrozenExactly(cfg, s, o, m, "claude", p);
      ScopedPublishes(cfg, m, "claude", p);
    }
  }

  /** Freezing puts the file back, so nothing is omitted and every check passes. */
  lemma CheckoutProven(lib: Library, s: Store, data: Bytes)
    ensures
      var cfg, o, m := Plainly(lib), UnderCheckout(lib, data), FirstManifest(lib, data);
      var local := FreezeSources(ScannedSources(o.scan), ScopedPrior(cfg, m), ScanRoots(o.scan), StoredFilter(s, o));
      var prior := ComparedPrior(cfg, s, o, m);
      var injected := InjectSources(cfg, local, Some(prior), o.scan, FrozenBy(cfg, s, o, m));
      && injected.Keys == {"claude"} && FILE in injected["claude"].files
      && CandidatesProven(cfg, local, Some(prior), o.scan, o.candidate)
      && AbsenceProven(cfg, injected, prior, o.omitted, o.root)
  {
    hide ComparedPrior, FrozenMap, ScopedPrior, FreezeSources, InjectSources, SurvivingMap, UnderPrefix, FirstManifest,
      Covered, StoredFilter, WalkExcluded, OutOfReach, InScope, MustProbe;
    var cfg, o, m := Plainly(lib), UnderCheckout(lib, data), FirstManifest(lib, data);
    CheckoutCovers(lib, s, data);
    FirstManifestIs(lib, data);
    var scanned := ScannedSources(o.scan);
    var local := FreezeSources(scanned, ScopedPrior(cfg, m), ScanRoots(o.scan), StoredFilter(s, o));
    var prior := ComparedPrior(cfg, s, o, m);
    FreezeKeys(scanned, ScopedPrior(cfg, m), ScanRoots(o.scan), StoredFilter(s, o));
    FreezeFiles(scanned, ScopedPrior(cfg, m), ScanRoots(o.scan), StoredFilter(s, o), "claude", FILE);
    InjectedKeys(cfg, local, Some(prior), o.scan, FrozenBy(cfg, s, o, m));
    InjectFiles(cfg, local, Some(prior), o.scan, FrozenBy(cfg, s, o, m), "claude", FILE);
    var injected := InjectSources(cfg, local, Some(prior), o.scan, FrozenBy(cfg, s, o, m));
    forall n, p | n in prior.sources && p in prior.sources[n].files
      ensures !MustProbe(cfg, injected, prior, n, p)
    {
      ComparedPublishes(cfg, s, o, m, n, p);
      PresentIsNotProbed(cfg, injected, prior, n, p);
    }
  }

  lemma PresentIsNotProbed(cfg: Config, local: map<string, Source>, prior: Manifest, n: string, p: string)
    requires p in Files(local, n)
    ensures !MustProbe(cfg, local, prior, n, p)
  {
  }

  lemma CheckoutUploadsNothing(lib: Library, data: Bytes, d: Draft)
    requires d.sources.Keys == {"claude"} && d.sources["claude"].files.Keys == {FILE}
    requires Paths(d.frozen, "claude") == {FILE}
    ensures !AnyUploadRefuses(Plainly(lib), UnderCheckout(lib, data), d)
  {
    hide FirstManifest, ChangedPaths, At;
    var b := BatchOf(UnderCheckout(lib, data), d, "claude");
    NothingToUpload(UnderCheckout(lib, data), d);
    assert HeldUploads(lib, b) == map[];
  }

  lemma NothingToUpload(o: Observations, d: Draft)
    requires "claude" in d.sources && d.sources["claude"].files.Keys == {FILE} && Paths(d.frozen, "claude") == {FILE}
    ensures ToUpload(o, d, "claude") == map[]
  {
  }

  /** The draft publishes the frozen file and nothing else. */
  lemma CheckoutDraft(lib: Library, s: Store, data: Bytes) returns (d: Draft)
    ensures
      var cfg, o := Plainly(lib), UnderCheckout(lib, data);
      && WellFormed(cfg, o) && Prepare(cfg, s, o) == Some(d)
      && d.sources.Keys == {"claude"} && d.sources["claude"].files.Keys == {FILE} && Paths(d.frozen, "claude") == {FILE}
  {
    hide Prepare, PriorOf, ComparedPrior, FrozenMap, ScopedPrior, FreezeSources, InjectSources, SurvivingMap,
      UnderPrefix,
      FirstManifest, Covered, AbsenceProven, CandidatesProven, StoredFilter, DraftWithPrior, HeldBefore;
    var cfg, o, m := Plainly(lib), UnderCheckout(lib, data), FirstManifest(lib, data);
    CheckoutCovers(lib, s, data);
    CheckoutProven(lib, s, data);
    DraftAccepted(cfg, s, o, m);
    d := Prepare(cfg, s, o).value;
    PreparedWithPrior(cfg, s, o, m, d);
    assert HeldBefore(cfg, o.scan, "claude") == {} by {
      SettledHoldsNothing(cfg, o.scan, "claude");
    }
    assert "claude" in d.sources;
    forall p
      ensures p in d.sources["claude"].files <==> p in {FILE}
    {
      DraftFiles(cfg, s, o, m, d, "claude", p);
    }
  }

  /** The push over it is accepted, so a checkout does freeze what it covers. */
  lemma CheckoutPushPublishes(lib: Library, s: Store, data: Bytes) returns (d: Draft)
    ensures
      var cfg, o := Plainly(lib), UnderCheckout(lib, data);
      && WellFormed(cfg, o) && Decide(cfg, s, o) == Publishes(d)
      && Paths(d.frozen, "claude") == {FILE} && FILE in Files(d.sources, "claude")
  {
    hide Prepare, PriorOf, AnyUploadRefuses, FirstManifest, AnySourceChanged, MtimeDrift;
    d := CheckoutDraft(lib, s, data);
    assert Plainly(lib).available.Keys * INTERNAL == {};
    CheckoutUploadsNothing(lib, data, d);
  }

  // ---- a directory that goes away, and a file saved again ---------------------------

  /** The file's directory is gone before the walk can list it: a candidate, and no file. */
  function DirectoryGone(lib: Library, data: Bytes): Observations {
    var scan := Scanned(map["claude" := SourceScan("", map[], {}, {CHECKOUT}, {})]);
    Seeing(CanonicalFetch(FirstManifest(lib, data)), scan, data, true)
  }

  lemma DirectoryGoneIsPossible(lib: Library, data: Bytes)
    ensures WellFormed(Plainly(lib), DirectoryGone(lib, data))
  {
    hide FirstManifest;
    FirstManifestIs(lib, data);
  }

  /** That is no hold of one file: the push refuses, although every probe finds nothing. */
  lemma VanishedDirectoryRefuses(lib: Library, s: Store, data: Bytes)
    ensures WellFormed(Plainly(lib), DirectoryGone(lib, data))
    ensures Decide(Plainly(lib), s, DirectoryGone(lib, data)) == Refuses
  {
    hide Decide, FirstManifest, StoredFilter, PriorOf, FrozenMap, ScopedPrior, ComparedPrior, Prepare, WellFormed;
    var cfg, o, m := Plainly(lib), DirectoryGone(lib, data), FirstManifest(lib, data);
    DirectoryGoneIsPossible(lib, data);
    FirstManifestIs(lib, data);
    CanonicalPrior(cfg, s, o, m);
    ComparedPublishes(cfg, s, o, m, "claude", FILE);
    assert CHECKOUT + "/" == "c/" <= FILE;
    assert !OutsideWalk(cfg, "claude", CHECKOUT);
    VanishedCandidateRefuses(cfg, s, o, "claude", CHECKOUT);
  }

  /** Both reads find the scanned bytes saved again at the time `later`. */
  function SavedAgain(lib: Library, data: Bytes, later: string): Observations {
    var reading: PathReading := (n, p) => Revision(data, later);
    FirstLook(lib, data).(first := reading, second := reading)
  }

  lemma SavedUpload(lib: Library, data: Bytes, later: string)
    requires later != "t" && lib.mtimeOf(later) != lib.mtimeOf("t")
    ensures
      var cfg, o, d := Plainly(lib), SavedAgain(lib, data, later), OneFileDraft(lib, data);
      && !AnyUploadRefuses(cfg, o, d)
      && UploadedFiles(cfg, o, d, "claude") == map[FILE := Entry(lib.digest(data), |data|, Some(later))]
  {
    var cfg, o, d := Plainly(lib), SavedAgain(lib, data, later), OneFileDraft(lib, data);
    var b := BatchOf(o, d, "claude");
    assert b.files == map[FILE := EntryFor(lib, data)];
    assert At(lib, b, FILE) == Patched(data, Entry(lib.digest(data), |data|, Some(later)));
    assert HeldUploads(lib, b) == map[];
    assert !BatchFatal(lib, b);
  }

  /** The same bytes under another time are read twice and published with the time read, not
      with the scanned one. */
  lemma SavedAgainIsPublishedAnew(lib: Library, s: Store, data: Bytes, later: string)
    requires later != "t" && lib.mtimeOf(later) != lib.mtimeOf("t")
    ensures
      var cfg, o, d := Plainly(lib), SavedAgain(lib, data, later), OneFileDraft(lib, data);
      && WellFormed(cfg, o) && Decide(cfg, s, o) == Publishes(d)
      && Files(FinalManifest(cfg, o, d).sources, "claude") ==
         map[FILE := Entry(lib.digest(data), |data|, Some(later))]
  {
    hide Prepare, AnyUploadRefuses, AnyUploadHeld, UploadedFiles, FinalTombstones;
    var cfg, o, d := Plainly(lib), SavedAgain(lib, data, later), OneFileDraft(lib, data);
    FirstDraft(lib, s, data);
    SavedUpload(lib, data, later);
    SameUntilRead(cfg, s, FirstLook(lib, data), o);
    assert cfg.available.Keys * INTERNAL == {};
    assert FILE in ChangedPaths(d.sources["claude"].files, Files(RemoteSources(o), "claude"));
    assert AnySourceChanged(d.sources, RemoteSources(o));
  }

  /** The draft does not depend on the uploads' reads. */
  lemma SameUntilRead(cfg: Config, s: Store, a: Observations, b: Observations)
    requires b == a.(first := b.first, second := b.second)
    ensures Prepare(cfg, s, a) == Prepare(cfg, s, b)
  {
    hide InjectSources, FreezeSources, FrozenMap, CandidatesProven, AbsenceProven, GenerateTombstones, RecoverPrior,
      SurvivingMap, DropUnfrozen;
    if a.scan.Scanned? && PriorOf(cfg, s, a).Prior? {
      var m := PriorOf(cfg, s, a).manifest;
      assert ComparedPrior(cfg, s, a, m) == ComparedPrior(cfg, s, b, m);
    }
  }

  // ---- source names with a colon ----------------------------------------------------

  function Everything(): SourceCfg {
    SourceCfg(p => true, p => true, {}, p => false, p => true)
  }

  /** Two sources whose names let their keys meet. */
  function Colliding(lib: Library): Config {
    Config("me", "me", {"x", "x:old"}, map["x" := Everything(), "x:old" := Everything()], false,
           PathRules(p => false, p => false, p => false, p => true), lib)
  }

  function BothPublished(lib: Library, data: Bytes): Manifest {
    var files := map["x" := Source("", map["old:f" := EntryFor(lib, data)]),
                     "x:old" := Source("", map["f" := EntryFor(lib, data)])];
    Manifest("me", "me", "now", files, map[])
  }

  /** An accepted push publishes neither a path of `x:old` the prior published nor its
      tombstone, because `x` has a file with the same key. */
  lemma ColonNamesLoseAPath(lib: Library, s: Store, data: Bytes) returns (o: Observations, e: Draft)
    ensures
      var cfg, m := Colliding(lib), BothPublished(lib, data);
      && WellFormed(cfg, o) && o.fetch == CanonicalFetch(m) && Decide(cfg, s, o) == Publishes(e)
      && o.scan.Scanned? && !OutOfReach(cfg, s, o, m, "x:old", "f")
      && Lists(m.sources, "x:old", "f") && InScope(cfg, "x:old", "f")
      && !Lists(FinalManifest(cfg, o, e).sources, "x:old", "f")
      && Key("x:old", "f") !in FinalManifest(cfg, o, e).tombstones
  {
    hide Decide, FinalManifest, PriorOf, ClaimingLook, Looking, WellFormed, OutOfReach;
    var cfg, m := Colliding(lib), BothPublished(lib, data);
    var b := Seeing(CanonicalFetch(m), Incomplete, data, false);
    CanonicalPrior(cfg, s, b, m);
    assert "x" + ":" <= Key("x:old", "f");
    assert MaySee(cfg, "x", ClaimedBy("x", "x:old", "f"));
    e := ClaimedIsLost(cfg, s, b, m, "x:old", "f", "x", Clock(0, ""));
    o := Looking(cfg, b, ClaimingLook(cfg, "x:old", "f", "x", Clock(0, "")));
  }

  /** The same two sources, where `x` excludes the file that has the key. */
  function Apart(lib: Library): Config {
    var x := SourceCfg(p => true, p => true, {}, p => p == "old:f", p => true);
    Colliding(lib).(available := map["x" := x, "x:old" := Everything()])
  }

  /** Then no push can lose the path. */
  lemma ExclusionConserves(lib: Library, s: Store, data: Bytes, b: Observations)
    requires Starts(Apart(lib), s, b, BothPublished(lib, data))
    ensures AlwaysConserved(Apart(lib), s, b, BothPublished(lib, data), "x:old", "f")
  {
    hide Starts, AlwaysConserved;
    var cfg, m := Apart(lib), BothPublished(lib, data);
    assert Key("x:old", "f") == Key("x", "old:f");
    assert ClaimedBy("x", "x:old", "f") == "old:f" by {
      SameKeySamePath("x", ClaimedBy("x", "x:old", "f"), "old:f");
    }
    assert !MaySee(cfg, "x", "old:f") && !InScope(cfg, "x", "old:f");
    ConservedExactly(cfg, s, b, m, "x:old", "f");
  }

  /** Only `x` is selected, and it excludes `old:f`. */
  function Narrowed(lib: Library): Config {
    Config("me", "me", {"x"}, map["x" := SourceCfg(p => true, p => true, {}, p => p == "old:f", p => true)], false,
           PathRules(p => false, p => false, p => false, p => true), lib)
  }

  function OnlyTombstone(t: Tombstone): Manifest {
    Manifest("me", "me", "now", map[], map["x:old:f" := t])
  }

  lemma ReadsAsX()
    ensures KeyOwner("x:old:f") == ("x", "old:f") && Key("x:old", "f") == "x:old:f"
  {
    KeyOwnerOfKey("x", "old:f");
    assert Key("x", "old:f") == "x:old:f";
  }

  /** No accepted push of this selection carries the tombstone on. */
  lemma NarrowedDrops(lib: Library, s: Store, t: Tombstone, o: Observations, e: Draft)
    requires WellFormed(Narrowed(lib), o) && o.fetch == CanonicalFetch(OnlyTombstone(t))
    requires Decide(Narrowed(lib), s, o) == Publishes(e)
    ensures Key("x:old", "f") !in FinalManifest(Narrowed(lib), o, e).tombstones
  {
    hide Decide, FinalManifest, PriorOf, WellFormed, ComparedPrior, LastClock, KeyOwner, GenerateTombstones,
      DroppedKeys,
      LiveKeys;
    var cfg, m := Narrowed(lib), OnlyTombstone(t);
    CanonicalPrior(cfg, s, o, m);
    ReadsAsX();
    PublishedSources(cfg, s, o, e);
    var c := FinalComparison(cfg, s, o, e);
    FinalIsUploaded(cfg, o, e);
    ComparedTombstones(cfg, s, o, m, "x:old:f");
    GeneratedKeys(lib.instant, FinalManifest(cfg, o, e).sources, e.prior, c, cfg.device, "x:old:f");
    if "x:old:f" in DroppedKeys(FinalManifest(cfg, o, e).sources, e.prior.value.sources) {
      var x, y := DroppedFrom(FinalManifest(cfg, o, e).sources, e.prior.value.sources, "x:old:f");
      ComparedPublishes(cfg, s, o, m, x, y);
      assert false;
    }
  }

  /** An accepted push drops an unexpired tombstone of the disabled source `x:old`, because
      its key reads as a path that `x` excludes. */
  lemma ColonNamesLoseATombstone(lib: Library, s: Store, t: Tombstone) returns (o: Observations, e: Draft)
    requires lib.instant(t.deletedAt).Some?
    ensures
      var cfg, m := Narrowed(lib), OnlyTombstone(t);
      && WellFormed(cfg, o) && o.fetch == CanonicalFetch(m) && Decide(cfg, s, o) == Publishes(e)
      && "x:old" !in Intended(cfg) && Key("x:old", "f") in m.tombstones
      && Active(cfg.lib.instant, t, LastClock(cfg, o, e).now)
      && Key("x:old", "f") !in FinalManifest(cfg, o, e).tombstones
  {
    hide Decide, FinalManifest, PriorOf, Looking, WellFormed, LastClock, ShowsSeen;
    var cfg, m := Narrowed(lib), OnlyTombstone(t);
    var b := Seeing(CanonicalFetch(m), Incomplete, [], false);
    var clock := Clock(lib.instant(t.deletedAt).value, "");
    var l := Look(map[], map[], {}, (x, y) => Gone, (x, y) => false, (x, y) => Refusal, (x, y) => Refusal, clock);
    o := Looking(cfg, b, l);
    CanonicalPrior(cfg, s, b, m);
    assert "x" in cfg.available;
    LookStarts(cfg, s, b, m, l);
    e := LookPublishes(cfg, s, b, m, l);
    OneClock(cfg, o, e, clock);
    ReadsAsX();
    NarrowedDrops(lib, s, t, o, e);
  }

  // ---- a file name that no fetch will load ---------------------------------------------

  predicate StartsLikeDrive(p: string) {
    |p| >= 2 && p[1] == ':' && ('a' <= p[0] <= 'z' || 'A' <= p[0] <= 'Z')
  }

  /** One source; a path that starts like a drive letter is not valid. */
  function DriveLetters(lib: Library): Config {
    Config("me", "me", {"claude"}, map["claude" := Everything()], false,
           PathRules(p => false, p => false, p => false, p => !StartsLikeDrive(p)), lib)
  }

  function NothingYet(): Manifest {
    Manifest("me", "me", "now", map[], map[])
  }

  /** An accepted push publishes a file named `C:f`, and so a manifest that loading refuses. */
  lemma DriveLetterIsUnloadable(lib: Library, s: Store) returns (o: Observations, e: Draft)
    ensures
      var cfg := DriveLetters(lib);
      && WellFormed(cfg, o) && o.fetch == CanonicalFetch(NothingYet()) && Decide(cfg, s, o) == Publishes(e)
      && Lists(FinalManifest(cfg, o, e).sources, "claude", "C:f") && !Loaded(cfg, FinalManifest(cfg, o, e))
  {
    hide Decide, FinalManifest, PriorOf, WellFormed;
    var cfg, m := DriveLetters(lib), NothingYet();
    var b := Seeing(CanonicalFetch(m), Incomplete, [], false);
    CanonicalPrior(cfg, s, b, m);
    SeenIsPublishable(cfg, s, b, m, "claude", "C:f");
    o, e :|
      WellFormed(cfg, o) && SameStart(o, b) && Decide(cfg, s, o) == Publishes(e)
      && "C:f" in Files(FinalManifest(cfg, o, e).sources, "claude");
    assert !LoadedPath(cfg, FinalManifest(cfg, o, e), "claude", "C:f");
  }
}
