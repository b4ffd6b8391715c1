/** Whole runs of pushes and collections, each ending as it may: after every step the
    canonical manifest has all its blobs, exactly as long as no collection deletes a blob
    whose path another copy won. */
module PushRuns {
  import opened Manifests
  import opened MergeCopies
  import opened RemoteFetch
  import opened PushStages
  import opened PushRun
  import opened PushSafety
  import opened BlobCollection

  /** A collection is seen with the folder its two fetches read. */
  datatype Event =
    | DidPush(cfg: Config, o: Observations, out: Outcome)
    | DidCollect(
        c: Codec, one: World, two: World, device: string, listed: seq<Listed>, dryRun: bool, gc: GcOutcome)

  ghost predicate Step(s: Store, e: Event, t: Store) {
    match e
    case DidPush(cfg, o, out) => WellFormed(cfg, o) && PushStep(cfg, o, s, t, out)
    case DidCollect(c, one, two, device, listed, dryRun, gc) =>
      CollectStep(c, one, two, device, listed, dryRun, s, t, gc)
  }

  /** A run: any pushes (accepted, refused, idle or stopped between two puts) and blob
      collections, each with its own observations. */
  ghost predicate Run(states: seq<Store>, events: seq<Event>) {
    |states| == |events| + 1 && forall i :: 0 <= i < |events| ==> Step(states[i], events[i], states[i + 1])
  }

  /** What a push fetched is the canonical manifest, or one whose blobs are stored; the
      copies a collection read have distinct hashes. */
  ghost predicate SoundFetch(lib: Library, s: Store, e: Event) {
    match e
    case DidPush(cfg, o, _) =>
      cfg.lib == lib && (o.fetch.manifest.Some? ==>
                           o.fetch.manifest == s.own || Backed(lib, o.fetch.manifest.value.sources, s.blobs))
    case DidCollect(c, one, two, _, _, _, _) => TellsApart(c, one) && TellsApart(c, two)
  }

  /** A fetch of copies that all have their blobs gives a manifest that has its. */
  lemma FetchedIsBacked(c: Codec, w: World, lib: Library, blobs: map<string, Bytes>)
    requires Classify(c, w).status == Ok
    requires forall m | m in LoadedCopies(c, w) :: Backed(lib, m.sources, blobs)
    ensures Classify(c, w).manifest.Some? && Backed(lib, Classify(c, w).manifest.value.sources, blobs)
  {
    hide Classify, LoadedCopies, Merge, Before;
    OkMeaning(c, w);
    var copies := LoadedCopies(c, w);
    var merged := Merge(c.hash, copies).sources;
    forall n, p | n in merged && p in merged[n].files
      ensures merged[n].files[p].sha in blobs && lib.digest(blobs[merged[n].files[p].sha]) == merged[n].files[p].sha
    {
      MergeMeaning(c.hash, copies, n, p, "");
      assert Lists(merged, n, p);
      var m :| WinsPath(c.hash, Members(copies), m, n, p) && Files(merged, n)[p] == Files(m.sources, n)[p];
      assert m in copies && n in m.sources && p in m.sources[n].files;
    }
  }

  ghost predicate Healthy(lib: Library, s: Store) {
    WellKeyed(lib, s.blobs) && (s.own.Some? ==> Backed(lib, s.own.value.sources, s.blobs))
  }

  /** The keys a collection went through: all that were listed, or those before the deletion
      that failed; none in a dry run or when it skipped or refused. */
  function GoneThrough(listed: seq<Listed>, dryRun: bool, gc: GcOutcome): seq<Listed> {
    match gc
    case Collected(_) => if dryRun then [] else listed
    case GcStopped(handled) => if handled <= |listed| then listed[..handled] else listed
    case _ => []
  }

  /** The collection went through a blob that the canonical names and no winner does. */
  ghost predicate Loses(s: Store, e: Event) {
    e.DidCollect? && s.own.Some?
    && !NamesOnlyWinners(e.c, e.one, e.two, e.device, GoneThrough(e.listed, e.dryRun, e.gc), s.own.value)
  }

  /** One step keeps the store healthy exactly when it is not such a collection. */
  lemma StepHealthyExactly(lib: Library, s: Store, e: Event, t: Store)
    requires Healthy(lib, s) && Step(s, e, t) && SoundFetch(lib, s, e)
    ensures Healthy(lib, t) <==> !Loses(s, e)
    ensures e.DidPush? && e.out.Published? ==>
      t.own == Some(e.out.manifest) && Backed(lib, e.out.manifest.sources, t.blobs)
  {
    hide CollectStep, NamesOnlyWinners, Hashes;
    match e
    case DidPush(cfg, o, out) =>
      PushStaysHealthy(lib, s, cfg, o, out, t);
    case DidCollect(c, one, two, device, listed, dryRun, gc) =>
      CollectHealthyExactly(lib, s, e, t);
  }

  lemma PushStaysHealthy(lib: Library, s: Store, cfg: Config, o: Observations, out: Outcome, t: Store)
    requires Healthy(lib, s) && Step(s, DidPush(cfg, o, out), t) && SoundFetch(lib, s, DidPush(cfg, o, out))
    ensures Healthy(lib, t)
    ensures out.Published? ==> t.own == Some(out.manifest) && Backed(lib, out.manifest.sources, t.blobs)
  {
    hide FinalManifest, AllPuts, HasAll, AttemptedPuts, Grown, TellsApart;
    match out {
      case Published(m) =>
        var draft := Decide(cfg, s, o).draft;
        PublishedIsBacked(cfg, s, o, draft, t.blobs);
        GrownStaysWellKeyed(lib, s.blobs, t.blobs, AllPuts(cfg, o, draft));
      case Refused => GrownStaysWellKeyed(lib, s.blobs, t.blobs, AttemptedPuts(cfg, s, o));
      case Stopped => GrownStaysWellKeyed(lib, s.blobs, t.blobs, AttemptedPuts(cfg, s, o));
      case Idle =>
    }
  }

  lemma CollectHealthyExactly(lib: Library, s: Store, e: Event, t: Store)
    requires e.DidCollect? && Healthy(lib, s) && Step(s, e, t) && SoundFetch(lib, s, e)
    ensures Healthy(lib, t) <==> !Loses(s, e)
  {
    hide Classify, TellsApart, NamesOnlyWinners, Orphans, References, OrphanCount, Complete;
    assert t.own == s.own && WellKeyed(lib, t.blobs);
    if e.gc.Collected? && !e.dryRun && s.own.Some? {
      CollectionSafeExactly(e.c, e.one, e.two, e.device, e.listed, s, t, e.gc.orphans, lib, s.own.value);
    } else if e.gc.GcStopped? && s.own.Some? {
      StoppedSafeExactly(e.c, e.one, e.two, e.device, e.listed, e.dryRun, s, t, e.gc.handled, lib, s.own.value);
    } else if s.own.Some? {
      NothingGoneThrough(e.c, e.one, e.two, e.device, s.own.value);
    }
  }

  lemma NothingGoneThrough(c: Codec, one: World, two: World, device: string, own: Manifest)
    ensures NamesOnlyWinners(c, one, two, device, [], own)
  {
    hide LoadedCopies, Winning, Hashes;
  }

  /** Over every run, the canonical manifest never names a missing blob - not after any
      push, however it ended, and not after any collection - if and only if no collection
      of the run went through a blob of it that no winner among the copies named. */
  lemma {:induction false} EveryRunStaysBacked(lib: Library, states: seq<Store>, events: seq<Event>, i: nat)
    requires Run(states, events) && i < |states|
    requires Healthy(lib, states[0])
    requires forall j :: 0 <= j < |events| ==> SoundFetch(lib, states[j], events[j])
    ensures (forall j | 0 <= j <= i :: Healthy(lib, states[j])) <==>
            forall j | 0 <= j < i :: !Loses(states[j], events[j])
    ensures i > 0 && events[i - 1].DidPush? && events[i - 1].out.Published? && Healthy(lib, states[i - 1]) ==>
      states[i].own == Some(events[i - 1].out.manifest)
      && Backed(lib, events[i - 1].out.manifest.sources, states[i].blobs)
  {
    hide Loses, Healthy, Step, SoundFetch;
    if i > 0 {
      EveryRunStaysBacked(lib, states, events, i - 1);
      if Healthy(lib, states[i - 1]) {
        StepHealthyExactly(lib, states[i - 1], events[i - 1], states[i]);
      }
    }
  }

  /** The collection's first fetch loaded the canonical manifest and no later copy of any of
      its paths. */
  ghost predicate ReadsUnoverridden(s: Store, e: Event) {
    e.DidCollect? && s.own.Some? ==>
      && s.own.value in LoadedCopies(e.c, e.one)
      && forall m, n, p | m in LoadedCopies(e.c, e.one) && Lists(s.own.value.sources, n, p) ::
           !Overrides(e.c.hash, m, s.own.value, n, p)
  }

  /** In particular every run is safe whose collections find the canonical manifest alone,
      or with copies that override none of its paths. */
  lemma {:induction false} UnoverriddenRunsStayBacked(
    lib: Library, states: seq<Store>, events: seq<Event>, i: nat)
    requires Run(states, events) && i < |states|
    requires Healthy(lib, states[0])
    requires forall j :: 0 <= j < |events| ==>
               SoundFetch(lib, states[j], events[j]) && ReadsUnoverridden(states[j], events[j])
    ensures Healthy(lib, states[i])
  {
    hide Healthy, Step, SoundFetch, ReadsUnoverridden;
    if i > 0 {
      UnoverriddenRunsStayBacked(lib, states, events, i - 1);
      UnoverriddenLosesNothing(lib, states[i - 1], events[i - 1], states[i]);
      StepHealthyExactly(lib, states[i - 1], events[i - 1], states[i]);
    }
  }

  lemma UnoverriddenLosesNothing(lib: Library, s: Store, e: Event, t: Store)
    requires Healthy(lib, s) && Step(s, e, t) && SoundFetch(lib, s, e) && ReadsUnoverridden(s, e)
    ensures !Loses(s, e)
  {
    hide CollectStep, NamesOnlyWinners, LoadedCopies, TellsApart, PushStep, Overrides, Hashes;
    if e.DidCollect? && s.own.Some? {
      UnoverriddenIsSafe(e.c, e.one, e.two, e.device, e.listed, s.own.value);
      if e.gc.GcStopped? && e.gc.handled <= |e.listed| {
        FewerKeysFewerLosses(e.c, e.one, e.two, e.device, e.listed, e.gc.handled, s.own.value);
      } else if !e.gc.GcStopped? && (!e.gc.Collected? || e.dryRun) {
        NothingGoneThrough(e.c, e.one, e.two, e.device, s.own.value);
      }
    }
  }
}
