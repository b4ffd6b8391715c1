/** When blob collection is safe for the canonical manifest: exactly when every listed blob
    it names is the blob of some path's winner among the copies the fetches loaded, with a
    conflict copy that breaks it. */
module BlobCollection {
  import opened TextOrder
  import opened Manifests
  import opened MergeCopies
  import opened RemoteFetch
  import opened PushStages
  import opened PushRun
  import opened PushSafety

  /** This device's blob `sha` is in the listing. */
  predicate ListedBlob(device: string, listed: seq<Listed>, sha: string) {
    Blob(device, sha) in listed
  }

  /** A completed collection removes exactly the listed, unreferenced blobs of this device
      and leaves every other blob as it was. */
  lemma CollectsExactly(
    device: string, first: Fetch, again: Fetch, listed: seq<Listed>, s: Store, t: Store, n: nat, sha: string)
    requires GcStep(device, first, again, listed, false, s, t, Collected(n))
    ensures sha in t.blobs <==>
      sha in s.blobs && !(ListedBlob(device, listed, sha) && sha !in References(first) + References(again))
    ensures sha in t.blobs ==> t.blobs[sha] == s.blobs[sha]
  {
    hide References;
    var referenced := References(first) + References(again);
    if ListedBlob(device, listed, sha) && sha !in referenced {
      assert IsOrphan(device, Blob(device, sha), referenced);
      assert sha in Orphans(device, listed, referenced);
    }
  }

  /** A stopped one removes exactly those among the keys it had dealt with, and stops at one
      of them. */
  lemma StopsExactly(
    device: string, first: Fetch, again: Fetch, listed: seq<Listed>, dryRun: bool, s: Store, t: Store, handled: nat,
    sha: string)
    requires GcStep(device, first, again, listed, dryRun, s, t, GcStopped(handled))
    ensures !dryRun && handled < |listed| && listed[handled].Blob? && listed[handled].device == device
    ensures listed[handled].sha !in References(first) + References(again)
    ensures sha in t.blobs <==>
      sha in s.blobs && !(ListedBlob(device, listed[..handled], sha) && sha !in References(first) + References(again))
    ensures sha in t.blobs ==> t.blobs[sha] == s.blobs[sha]
  {
    hide References;
    var referenced := References(first) + References(again);
    OrphanMeaning(device, listed[..handled], referenced, sha);
  }

  /** The places in the listing that name an unreferenced blob of this device. */
  ghost function OrphanPlaces(device: string, listed: seq<Listed>, referenced: set<string>): set<nat> {
    set i: nat | i < |listed| && listed[i].Blob? && listed[i].device == device && listed[i].sha !in referenced
  }

  /** The number a collection reports. */
  lemma {:induction false} ReportsPlaces(device: string, listed: seq<Listed>, referenced: set<string>)
    ensures OrphanCount(device, listed, referenced) == |OrphanPlaces(device, listed, referenced)|
    decreases |listed|
  {
    if listed != [] {
      var init, last := listed[..|listed| - 1], listed[|listed| - 1];
      ReportsPlaces(device, init, referenced);
      var before := OrphanPlaces(device, init, referenced);
      assert OrphanPlaces(device, listed, referenced) ==
             before + if IsOrphan(device, last, referenced) then {|init|} else {};
    }
  }

  /** A collection over what was read in two worlds. */
  ghost predicate CollectStep(
    c: Codec, one: World, two: World, device: string, listed: seq<Listed>, dryRun: bool, s: Store, t: Store,
    gc: GcOutcome)
  {
    GcStep(device, Classify(c, one), Classify(c, two), listed, dryRun, s, t, gc)
  }

  /** The fetch read the canonical manifest whole and saw no newer format. */
  ghost predicate Trusted(c: Codec, w: World) {
    !AnyNewer(Observed(c, w)) && LoadsCanonical(c, w)
  }

  lemma TrustedIsOk(c: Codec, w: World)
    ensures Trusted(c, w) <==> Classify(c, w).status == Ok && !Classify(c, w).conflictCopiesOnly
    ensures Trusted(c, w) ==> Classify(c, w).newerVersion.None?
  {
    hide Classify, Observed, LoadsCanonical, LoadsCandidate;
    OkMeaning(c, w);
    CopiesLoaded(c, w);
    CopiesOnlyExactly(c, w);
    NewerBytesBlock(c, w);
  }

  /** A collection deletes or counts anything exactly when both fetches read the canonical
      manifest whole and saw no newer format. It skips when the first fetch is missing, or
      the second after a trusted first; in every other case it refuses; and then nothing
      changes. */
  lemma CollectsOnlyTrusted(
    c: Codec, one: World, two: World, device: string, listed: seq<Listed>, dryRun: bool, s: Store, t: Store,
    gc: GcOutcome)
    requires CollectStep(c, one, two, device, listed, dryRun, s, t, gc)
    ensures gc.Collected? || gc.GcStopped? <==> Trusted(c, one) && Trusted(c, two)
    ensures gc.GcSkipped? <==>
      Classify(c, one).status == Missing || (Trusted(c, one) && Classify(c, two).status == Missing)
    ensures gc.GcSkipped? || gc.GcRefused? || dryRun ==> t == s
    ensures t.own == s.own && t.sidecar == s.sidecar
  {
    hide Classify, Trusted, Orphans, OrphanCount, References;
    TrustedIsOk(c, one);
    TrustedIsOk(c, two);
  }

  // ---- which blobs a fetch references -----------------------------------------

  /** Some path's winner among the copies names this blob. */
  ghost predicate Winning(hash: ContentHash, copies: set<Manifest>, sha: string) {
    exists m, n, p :: WinsPath(hash, copies, m, n, p) && Files(m.sources, n)[p].sha == sha
  }

  /** The copies a fetch loaded, told apart by their hash. */
  ghost predicate TellsApart(c: Codec, w: World) {
    Distinguishes(c.hash, Members(LoadedCopies(c, w)))
  }

  /** A fetch references the blobs of the winners among the copies it loaded, no other. */
  lemma ReferencesAreWinners(c: Codec, w: World, sha: string)
    requires Classify(c, w).status == Ok && TellsApart(c, w)
    ensures sha in References(Classify(c, w)) <==> Winning(c.hash, Members(LoadedCopies(c, w)), sha)
  {
    hide Classify, LoadedCopies, Before, Merge, TellsApart;
    var copies := LoadedCopies(c, w);
    OkMeaning(c, w);
    var merged := Merge(c.hash, copies).sources;
    if sha in Hashes(merged) {
      var n, p :| n in merged && p in merged[n].files && merged[n].files[p].sha == sha;
      MergeMeaning(c.hash, copies, n, p, "");
      assert Lists(merged, n, p);
    }
    if Winning(c.hash, Members(copies), sha) {
      var m, n, p :| WinsPath(c.hash, Members(copies), m, n, p) && Files(m.sources, n)[p].sha == sha;
      WinnerIsMerged(c, w, m, n, p);
    }
  }

  lemma WinnerIsMerged(c: Codec, w: World, m: Manifest, n: string, p: string)
    requires LoadedCopies(c, w) != [] && TellsApart(c, w)
    requires WinsPath(c.hash, Members(LoadedCopies(c, w)), m, n, p)
    ensures Lists(Merge(c.hash, LoadedCopies(c, w)).sources, n, p)
    ensures Files(Merge(c.hash, LoadedCopies(c, w)).sources, n)[p] == Files(m.sources, n)[p]
  {
    hide LoadedCopies, Merge, Before;
    var copies := LoadedCopies(c, w);
    MergeMeaning(c.hash, copies, n, p, "");
    assert m in Members(copies);
    assert Lists(Merge(c.hash, copies).sources, n, p);
    var x :| WinsPath(c.hash, Members(copies), x, n, p)
             && Files(Merge(c.hash, copies).sources, n)[p] == Files(x.sources, n)[p];
    KeysDecide(c.hash, Members(copies), m, x);
  }

  // ---- when the canonical manifest keeps its blobs ------------------------------

  /** Each listed blob that `own` names is named by a winner of one of the two fetches. */
  ghost predicate NamesOnlyWinners(
    c: Codec, one: World, two: World, device: string, listed: seq<Listed>, own: Manifest)
  {
    forall sha | sha in Hashes(own.sources) && ListedBlob(device, listed, sha) ::
      Winning(c.hash, Members(LoadedCopies(c, one)), sha) || Winning(c.hash, Members(LoadedCopies(c, two)), sha)
  }

  /** Nothing `own` names is an orphan exactly when it names only winners. */
  lemma OrphansAreOverridden(c: Codec, one: World, two: World, device: string, listed: seq<Listed>, own: Manifest)
    requires Classify(c, one).status == Ok && Classify(c, two).status == Ok
    requires TellsApart(c, one) && TellsApart(c, two)
    ensures
      var referenced := References(Classify(c, one)) + References(Classify(c, two));
      Hashes(own.sources) !! Orphans(device, listed, referenced) <==> NamesOnlyWinners(c, one, two, device, listed, own)
  {
    hide Classify, References, TellsApart, LoadedCopies, Winning;
    var referenced := References(Classify(c, one)) + References(Classify(c, two));
    forall sha
      ensures sha in Orphans(device, listed, referenced) <==> ListedBlob(device, listed, sha) && sha !in referenced
      ensures sha in referenced <==>
        || Winning(c.hash, Members(LoadedCopies(c, one)), sha)
        || Winning(c.hash, Members(LoadedCopies(c, two)), sha)
    {
      ReferencesAreWinners(c, one, sha);
      ReferencesAreWinners(c, two, sha);
      OrphanMeaning(device, listed, referenced, sha);
    }
  }

  lemma OrphanMeaning(device: string, listed: seq<Listed>, referenced: set<string>, sha: string)
    ensures sha in Orphans(device, listed, referenced) <==> ListedBlob(device, listed, sha) && sha !in referenced
  {
    if ListedBlob(device, listed, sha) && sha !in referenced {
      assert IsOrphan(device, Blob(device, sha), referenced);
    }
  }

  /** A manifest stays backed exactly when none of its blobs goes. */
  lemma BackedWithout(lib: Library, sources: map<string, Source>, blobs: map<string, Bytes>, gone: set<string>)
    requires Backed(lib, sources, blobs)
    ensures Backed(lib, sources, blobs - gone) <==> Hashes(sources) !! gone
  {
    forall n, p | n in sources && p in sources[n].files
      ensures sources[n].files[p].sha in Hashes(sources)
    {
    }
    if Backed(lib, sources, blobs - gone) {
      forall sha | sha in Hashes(sources)
        ensures sha !in gone
      {
        var n, p :| n in sources && p in sources[n].files && sources[n].files[p].sha == sha;
        assert sources[n].files[p].sha in blobs - gone;
      }
    }
  }

  /** Deleting the orphans among these keys keeps `own` backed exactly when it names only
      winners among them. */
  lemma DeletionSafeExactly(
    c: Codec, one: World, two: World, device: string, keys: seq<Listed>, blobs: map<string, Bytes>,
    lib: Library, own: Manifest)
    requires Classify(c, one).status == Ok && Classify(c, two).status == Ok
    requires TellsApart(c, one) && TellsApart(c, two)
    requires Backed(lib, own.sources, blobs)
    ensures
      var orphans := Orphans(device, keys, References(Classify(c, one)) + References(Classify(c, two)));
      Backed(lib, own.sources, blobs - orphans) <==> NamesOnlyWinners(c, one, two, device, keys, own)
  {
    hide Classify, References, TellsApart, LoadedCopies, Winning, Backed, Hashes, Orphans, NamesOnlyWinners;
    var referenced := References(Classify(c, one)) + References(Classify(c, two));
    OrphansAreOverridden(c, one, two, device, keys, own);
    BackedWithout(lib, own.sources, blobs, Orphans(device, keys, referenced));
  }

  /** A completed collection keeps the canonical manifest backed if and only if each listed
      blob it names is the blob of some path's winner among the copies either fetch loaded. */
  lemma CollectionSafeExactly(
    c: Codec, one: World, two: World, device: string, listed: seq<Listed>, s: Store, t: Store, n: nat,
    lib: Library, own: Manifest)
    requires CollectStep(c, one, two, device, listed, false, s, t, Collected(n))
    requires TellsApart(c, one) && TellsApart(c, two)
    requires Backed(lib, own.sources, s.blobs)
    ensures Backed(lib, own.sources, t.blobs) <==> NamesOnlyWinners(c, one, two, device, listed, own)
  {
    hide Classify, References, TellsApart, LoadedCopies, Winning, Backed, Hashes, Orphans, NamesOnlyWinners;
    DeletionSafeExactly(c, one, two, device, listed, s.blobs, lib, own);
  }

  /** A collection stopped at a failing deletion keeps it backed if and only if that holds of
      the listed keys it had dealt with. */
  lemma StoppedSafeExactly(
    c: Codec, one: World, two: World, device: string, listed: seq<Listed>, dryRun: bool, s: Store, t: Store,
    handled: nat, lib: Library, own: Manifest)
    requires CollectStep(c, one, two, device, listed, dryRun, s, t, GcStopped(handled))
    requires TellsApart(c, one) && TellsApart(c, two)
    requires Backed(lib, own.sources, s.blobs)
    ensures handled <= |listed|
    ensures Backed(lib, own.sources, t.blobs) <==> NamesOnlyWinners(c, one, two, device, listed[..handled], own)
  {
    hide Classify, References, TellsApart, LoadedCopies, Winning, Backed, Hashes, Orphans, NamesOnlyWinners;
    DeletionSafeExactly(c, one, two, device, listed[..handled], s.blobs, lib, own);
  }

  lemma FewerKeysFewerLosses(
    c: Codec, one: World, two: World, device: string, listed: seq<Listed>, handled: nat, own: Manifest)
    requires handled <= |listed| && NamesOnlyWinners(c, one, two, device, listed, own)
    ensures NamesOnlyWinners(c, one, two, device, listed[..handled], own)
  {
    hide LoadedCopies, Winning;
    assert forall sha :: ListedBlob(device, listed[..handled], sha) ==> ListedBlob(device, listed, sha);
  }

  /** Stopped or not, a collection that finds `own` naming only winners keeps it backed. */
  lemma CollectionKeeps(
    c: Codec, one: World, two: World, device: string, listed: seq<Listed>, dryRun: bool, s: Store, t: Store,
    gc: GcOutcome, lib: Library, own: Manifest)
    requires CollectStep(c, one, two, device, listed, dryRun, s, t, gc)
    requires TellsApart(c, one) && TellsApart(c, two) && NamesOnlyWinners(c, one, two, device, listed, own)
    requires Backed(lib, own.sources, s.blobs)
    ensures Backed(lib, own.sources, t.blobs)
  {
    hide Classify, References, TellsApart, LoadedCopies, Winning, Hashes, Orphans, NamesOnlyWinners, OrphanCount,
      Backed;
    if gc.Collected? && !dryRun {
      CollectionSafeExactly(c, one, two, device, listed, s, t, gc.orphans, lib, own);
    } else if gc.GcStopped? {
      StoppedSafeExactly(c, one, two, device, listed, dryRun, s, t, gc.handled, lib, own);
      FewerKeysFewerLosses(c, one, two, device, listed, gc.handled, own);
    }
  }

  /** Copy `m` wins the path from `own`: it is later and has the path. */
  ghost predicate Overrides(hash: ContentHash, m: Manifest, own: Manifest, n: string, p: string) {
    Before(hash, own, m) && Lists(m.sources, n, p)
  }

  /** When the fetch loaded the canonical manifest, a blob of it is no winner's only if at
      every path where the canonical names it some strictly later copy has the path. */
  lemma LostIsOverridden(c: Codec, w: World, own: Manifest, n: string, p: string)
    requires own in LoadedCopies(c, w) && Lists(own.sources, n, p)
    requires !Winning(c.hash, Members(LoadedCopies(c, w)), Files(own.sources, n)[p].sha)
    ensures exists m :: m in LoadedCopies(c, w) && Overrides(c.hash, m, own, n, p)
  {
    hide LoadedCopies, Before;
    var copies := LoadedCopies(c, w);
    assert !WinsPath(c.hash, Members(copies), own, n, p);
    var m :| m in Members(copies) && Lists(m.sources, n, p) && Before(c.hash, own, m);
    assert m in copies && Overrides(c.hash, m, own, n, p);
  }

  /** So a fetch that read the canonical and no later copy of any of its paths - the
      canonical alone, in particular - makes collection safe for it. */
  lemma UnoverriddenIsSafe(
    c: Codec, one: World, two: World, device: string, listed: seq<Listed>, own: Manifest)
    requires own in LoadedCopies(c, one)
    requires forall m, n, p | m in LoadedCopies(c, one) && Lists(own.sources, n, p) :: !Overrides(c.hash, m, own, n, p)
    ensures NamesOnlyWinners(c, one, two, device, listed, own)
  {
    hide LoadedCopies, Overrides, Winning;
    forall sha | sha in Hashes(own.sources) && ListedBlob(device, listed, sha)
      ensures Winning(c.hash, Members(LoadedCopies(c, one)), sha)
    {
      var n, p :| n in own.sources && p in own.sources[n].files && own.sources[n].files[p].sha == sha;
      assert Lists(own.sources, n, p);
      if !Winning(c.hash, Members(LoadedCopies(c, one)), sha) {
        LostIsOverridden(c, one, own, n, p);
        assert false;
      }
    }
  }

  /** A fetch that loaded the canonical manifest alone references everything it names. */
  lemma CanonicalAloneIsComplete(c: Codec, w: World, own: Manifest)
    requires Classify(c, w).status == Ok && LoadedCopies(c, w) == [own]
    ensures Classify(c, w).manifest == Some(own) && References(Classify(c, w)) == Hashes(own.sources)
  {
    OkMeaning(c, w);
    MergeOne(c.hash, own);
  }

  /** The canonical alone is never overridden. */
  lemma CanonicalAloneIsSafe(c: Codec, one: World, two: World, device: string, listed: seq<Listed>, own: Manifest)
    requires LoadedCopies(c, one) == [own]
    ensures NamesOnlyWinners(c, one, two, device, listed, own)
  {
    hide LoadedCopies, Before, NamesOnlyWinners, Lists;
    BeforeIsOrder(c.hash, own, own, own);
    UnoverriddenIsSafe(c, one, two, device, listed, own);
  }

  // ---- a conflict copy that breaks it ---------------------------------------

  function OneFile(timestamp: string, sha: string): Manifest {
    Manifest("me", "me", timestamp, map["claude" := Source("", map["a" := Entry(sha, 0, None)])], map[])
  }

  /** The canonical says `old` at an earlier time, a conflict copy `new` at a later one. */
  const OLDER: Bytes := [FORMAT_VERSION, 0]
  const NEWER: Bytes := [FORMAT_VERSION, 1]

  function TwoCopies(): World {
    World(true, Got(OLDER), [Got(NEWER)], [Candidate(Got(NEWER), Got(NEWER))], Got(OLDER))
  }

  function TwoCodec(hash: ContentHash): Codec {
    Codec(b => true, b => Some(if b == OLDER then OneFile("1", "old") else OneFile("2", "new")), hash)
  }

  lemma TwoCopiesLoad(hash: ContentHash)
    ensures
      var c := TwoCodec(hash);
      && Classify(c, TwoCopies()).status == Ok && !Classify(c, TwoCopies()).conflictCopiesOnly
      && Classify(c, TwoCopies()).newerVersion.None?
      && LoadedCopies(c, TwoCopies()) == [OneFile("1", "old"), OneFile("2", "new")]
  {
    var c, w := TwoCodec(hash), TwoCopies();
    assert w.candidates[..0] == [];
    assert FinalReads(c, w.candidates[..0]) == [];
    assert FinalReads(c, w.candidates) == [Got(NEWER)];
    var second, final := SecondReads(w), FinalReads(c, w.candidates);
    assert second == [Got(OLDER)];
    assert second[..0] == [] && final[..0] == [];
    assert LoadAll(c, second[..0]) == [] && LoadAll(c, final[..0]) == [];
    assert LoadAll(c, second) == [OneFile("1", "old")];
    assert LoadAll(c, final) == [OneFile("2", "new")];
    assert forall i :: 0 <= i < |Observed(c, w)| ==> !Newer(Observed(c, w)[i]);
    OkMeaning(c, w);
  }

  lemma SortedPair(hash: ContentHash, a: Manifest, b: Manifest)
    requires Before(hash, a, b)
    ensures Sorted(hash, [a, b]) == [a, b]
  {
    var s := [a, b];
    BeforeIsOrder(hash, a, b, a);
    assert s[1..] == [b] && s[1..][1..] == [];
    assert Sorted(hash, [b][1..]) == [];
    assert Sorted(hash, [b]) == [b];
    assert Sorted(hash, s) == Insert(hash, a, [b]);
  }

  lemma MergedPair(a: Manifest, b: Manifest)
    ensures MergedSources([a, b]) == AddFiles(AddFiles(map[], a.sources), b.sources)
  {
    var s := [a, b];
    assert s[..1] == [a] && s[..1][..0] == [];
    assert MergedSources(s[..1][..0]) == map[];
    assert MergedSources(s[..1]) == AddFiles(map[], a.sources);
  }

  /** The later copy wins the only path, so the merged references miss the blob that only
      the canonical manifest names. */
  lemma MergedMissesOld(hash: ContentHash)
    ensures References(Classify(TwoCodec(hash), TwoCopies())) == {"new"}
  {
    hide Classify, Sorted, MergedSources;
    var c := TwoCodec(hash);
    var a, b := OneFile("1", "old"), OneFile("2", "new");
    TwoCopiesLoad(hash);
    OkMeaning(c, TwoCopies());
    assert Codes("1") == [49] && Codes("2") == [50];
    SortedPair(hash, a, b);
    MergedPair(a, b);
    var merged := Merge(hash, [a, b]).sources;
    assert merged.Keys == {"claude"};
    assert merged["claude"].files == map["a" := Entry("new", 0, None)];
    assert merged["claude"].files["a"].sha in Hashes(merged);
  }

  lemma OldIsTheOrphan()
    ensures
      var listed := [Blob("me", "old"), Blob("me", "new")];
      Orphans("me", listed, {"new"}) == {"old"} && OrphanCount("me", listed, {"new"}) == 1
  {
    var listed := [Blob("me", "old"), Blob("me", "new")];
    OneMoreListed("me", [], listed[0], {"new"});
    OneMoreListed("me", [listed[0]], listed[1], {"new"});
    assert [] + [listed[0]] == [listed[0]] && [listed[0]] + [listed[1]] == listed;
  }

  /** A conflict copy newer than the canonical manifest makes a completed collection delete
      a blob the canonical still names. */
  lemma ConflictCopyCostsABlob(hash: ContentHash, lib: Library, stale: Bytes, current: Bytes)
    requires lib.digest(stale) == "old" && lib.digest(current) == "new"
    ensures
      var f := Classify(TwoCodec(hash), TwoCopies());
      var s := Store(map["old" := stale, "new" := current], Some(OneFile("1", "old")), None);
      var t := Store(map["new" := current], Some(OneFile("1", "old")), None);
      && GcStep("me", f, f, [Blob("me", "old"), Blob("me", "new")], false, s, t, Collected(1))
      && WellKeyed(lib, s.blobs) && Backed(lib, s.own.value.sources, s.blobs)
      && !Backed(lib, t.own.value.sources, t.blobs)
  {
    hide Classify, References, Orphans, OrphanCount;
    var f := Classify(TwoCodec(hash), TwoCopies());
    TwoCopiesLoad(hash);
    MergedMissesOld(hash);
    assert References(f) + References(f) == {"new"};
    OldIsTheOrphan();
    var own := OneFile("1", "old");
    assert own.sources["claude"].files["a"].sha == "old";
    assert map["old" := stale, "new" := current] - {"old"} == map["new" := current];
  }
}
