/** The push and the blob collector as the program runs them: the local manifest and the
    device's store are updated in place, file by file and source by source, and each
    method is tied to the decision functions of PushStages. */
module PushRun {
  import opened Manifests
  import opened RemoteFetch
  import opened PushStages

  /** The manifest a push is building. */
  class LocalManifest {
    var sources: map<string, Source>

    constructor (sources: map<string, Source>)
      ensures this.sources == sources
    {
      this.sources := sources;
    }

    static method FreezeSource(
      name: string, files: map<string, Entry>, prior: map<string, Entry>, roots: set<string>,
      tombstones: map<string, Tombstone>, stored: Option<set<string>>)
      returns (r: map<string, Entry>, frozen: set<string>)
      ensures frozen == set p | p in prior && Freezes(name, files, prior[p], roots, tombstones, stored, p)
      ensures r == Restore(files, prior, frozen)
    {
      hide UnderPrefix, IsTombstoned;
      r, frozen := files, {};
      var todo := prior.Keys;
      while todo != {}
        invariant todo <= prior.Keys
        invariant frozen <= prior.Keys - todo
        invariant forall p :: p in prior && p !in todo ==>
          (p in frozen <==> Freezes(name, files, prior[p], roots, tombstones, stored, p))
        invariant r.Keys == files.Keys + frozen
        invariant forall p :: p in r ==> r[p] == if p in frozen then prior[p] else files[p]
        decreases todo
      {
        var p :| p in todo;
        if Freezes(name, files, prior[p], roots, tombstones, stored, p) {
          r := r[p := prior[p]];
          frozen := frozen + {p};
        }
        todo := todo - {p};
      }
    }

    /** Puts the prior's entries below the walk's checkout roots back into the manifest. */
    method FreezeNestedCheckoutEntries(prior: Manifest, roots: PathsBySource, stored: Option<set<string>>)
      returns (frozen: PathsBySource)
      modifies this
      ensures sources == FreezeSources(old(sources), prior, roots, stored)
      ensures frozen == FrozenMap(old(sources), prior, roots, stored)
    {
      hide FrozenSource, FrozenPaths, Files;
      ghost var start := sources;
      frozen := map n | n in sources :: {};
      var todo := sources.Keys * roots.Keys;
      while todo != {}
        invariant todo <= start.Keys * roots.Keys
        invariant sources.Keys == frozen.Keys == start.Keys
        invariant forall n :: n in start && n in roots && n !in todo ==>
          && sources[n] == FrozenSource(n, start[n], prior, roots, stored)
          && frozen[n] == FrozenPaths(n, start[n].files, prior, roots, stored)
        invariant forall n :: n in start && (n !in roots || n in todo) ==> sources[n] == start[n] && frozen[n] == {}
        decreases todo
      {
        var n :| n in todo;
        var src := sources[n];
        var files, paths := FreezeSource(n, src.files, Files(prior.sources, n), roots[n], prior.tombstones, stored);
        SameFrozen(n, src, prior, roots, stored, files, paths);
        sources := sources[n := Source(src.basePath, files)];
        frozen := frozen[n := paths];
        todo := todo - {n};
      }
      FreezingDone(start, prior, roots, stored, sources, frozen);
    }

    static lemma SameFrozen(
      n: string, src: Source, prior: Manifest, roots: PathsBySource, stored: Option<set<string>>,
      files: map<string, Entry>, paths: set<string>)
      requires n in roots
      requires
        paths == set p | p in Files(prior.sources, n)
                         && Freezes(n, src.files, Files(prior.sources, n)[p], roots[n], prior.tombstones, stored, p)
      requires files == Restore(src.files, Files(prior.sources, n), paths)
      ensures paths == FrozenPaths(n, src.files, prior, roots, stored)
      ensures Source(src.basePath, files) == FrozenSource(n, src, prior, roots, stored)
    {
    }

    static lemma FreezingDone(
      start: map<string, Source>, prior: Manifest, roots: PathsBySource, stored: Option<set<string>>,
      sources: map<string, Source>, frozen: PathsBySource)
      requires sources.Keys == frozen.Keys == start.Keys
      requires forall n :: n in start && n in roots ==>
        && sources[n] == FrozenSource(n, start[n], prior, roots, stored)
        && frozen[n] == FrozenPaths(n, start[n].files, prior, roots, stored)
      requires forall n :: n in start && n !in roots ==> sources[n] == start[n] && frozen[n] == {}
      ensures sources == FreezeSources(start, prior, roots, stored)
      ensures frozen == FrozenMap(start, prior, roots, stored)
    {
      hide FrozenSource, FrozenPaths;
      forall n | n in start
        ensures sources[n] == FrozenSource(n, start[n], prior, roots, stored)
        ensures frozen[n] == FrozenPaths(n, start[n].files, prior, roots, stored)
      {
        if n !in roots {
          NothingBelowNoRoot(n, start[n], prior, roots, stored);
        }
      }
    }

    static lemma NothingBelowNoRoot(
      n: string, src: Source, prior: Manifest, roots: PathsBySource, stored: Option<set<string>>)
      requires n !in roots
      ensures FrozenPaths(n, src.files, prior, roots, stored) == {}
      ensures FrozenSource(n, src, prior, roots, stored) == src
    {
      assert Restore(src.files, Files(prior.sources, n), {}) == src.files;
    }

    /** Validates every candidate of one source. */
    static method ValidateCandidates(cfg: Config, name: string, prior: map<string, Entry>, scan: Scan, probe: PathProbe)
      returns (ok: bool)
      ensures ok <==>
        forall c | c in CandidatesOf(scan, name) && c !in HeldOf(scan, name) && !WalkExcluded(cfg, name, c) ::
          probe(name, c) == Gone && forall f | f in prior :: !(c + "/" <= f)
      ensures ok <==> SourceCandidatesProven(cfg, prior, scan, probe, name)
    {
      var todo := Unsettled(cfg, scan, name);
      while todo != {}
        invariant todo <= Unsettled(cfg, scan, name)
        invariant forall c | c in Unsettled(cfg, scan, name) - todo :: CandidateProven(prior, probe(name, c), c)
        decreases todo
      {
        var c :| c in todo;
        if !CandidateProven(prior, probe(name, c), c) {
          return false;
        }
        todo := todo - {c};
      }
      return true;
    }

    /** Resolves the held files of one source: those that survive keep their accepted prior
        entry, and a never-published one stays out. */
    static method InjectSource(
      cfg: Config, name: string, files: map<string, Entry>, prior: map<string, Entry>, held: set<string>,
      frozen: set<string>, tombstones: map<string, Tombstone>)
      returns (r: map<string, Entry>, surviving: set<string>)
      ensures surviving == set p | p in held && Waits(cfg, name, files, frozen, tombstones, p)
      ensures r == Restore(files, prior, surviving)
    {
      r, surviving := files, {};
      var todo := held;
      while todo != {}
        invariant todo <= held
        invariant surviving <= held - todo
        invariant forall p :: p in held && p !in todo ==>
          (p in surviving <==> Waits(cfg, name, files, frozen, tombstones, p))
        invariant r == Restore(files, prior, surviving)
        decreases todo
      {
        var p :| p in todo;
        if Waits(cfg, name, files, frozen, tombstones, p) {
          RestoreOneMore(files, prior, surviving, p);
          if p in prior {
            r := r[p := prior[p]];
          }
          surviving := surviving + {p};
        }
        todo := todo - {p};
      }
    }

    static lemma RestoreOneMore(files: map<string, Entry>, prior: map<string, Entry>, paths: set<string>, p: string)
      ensures Restore(files, prior, paths + {p}) ==
              if p in prior then Restore(files, prior, paths)[p := prior[p]] else Restore(files, prior, paths)
    {
    }

    method InjectHeldEntries(
      cfg: Config, prior: Option<Manifest>, scan: Scan, probe: PathProbe, frozen: PathsBySource)
      returns (held: Option<PathsBySource>)
      modifies this
      ensures held.Some? <==> CandidatesProven(cfg, old(sources), prior, scan, probe)
      ensures held.Some? ==>
        && sources == InjectSources(cfg, old(sources), prior, scan, frozen)
        && held.value == SurvivingMap(cfg, old(sources), prior, scan, frozen)
    {
      hide InjectedSource, Surviving, SourceCandidatesProven, HeldBefore, Files, Paths, PriorSources, PriorTombstones;
      ghost var start := sources;
      var survivors: PathsBySource := map n | n in sources :: {};
      var todo := sources.Keys;
      while todo != {}
        invariant todo <= start.Keys
        invariant sources.Keys == survivors.Keys == start.Keys
        invariant forall n :: n in start && n !in todo ==>
          && SourceCandidatesProven(cfg, Files(PriorSources(prior), n), scan, probe, n)
          && sources[n] == InjectedSource(cfg, n, start[n], prior, scan, frozen)
          && survivors[n] == Surviving(cfg, n, start[n].files, prior, scan, frozen)
        invariant forall n :: n in todo ==> sources[n] == start[n]
        decreases todo
      {
        var n :| n in todo;
        var src := sources[n];
        var ok := ValidateCandidates(cfg, n, Files(PriorSources(prior), n), scan, probe);
        if !ok {
          return None;
        }
        var r, surviving := InjectSource(cfg, n, src.files, Files(PriorSources(prior), n), HeldBefore(cfg, scan, n),
                                         Paths(frozen, n), PriorTombstones(prior));
        SameInjected(cfg, n, src, prior, scan, frozen, r, surviving);
        sources := sources[n := Source(src.basePath, r)];
        survivors := survivors[n := surviving];
        todo := todo - {n};
      }
      held := Some(survivors);
      InjectionDone(cfg, start, prior, scan, frozen, sources, survivors);
    }

    static lemma SameInjected(
      cfg: Config, n: string, src: Source, prior: Option<Manifest>, scan: Scan, frozen: PathsBySource,
      r: map<string, Entry>, surviving: set<string>)
      requires surviving == set p | p in HeldBefore(cfg, scan, n)
                                    && Waits(cfg, n, src.files, Paths(frozen, n), PriorTombstones(prior), p)
      requires r == Restore(src.files, Files(PriorSources(prior), n), surviving)
      ensures surviving == Surviving(cfg, n, src.files, prior, scan, frozen)
      ensures Source(src.basePath, r) == InjectedSource(cfg, n, src, prior, scan, frozen)
    {
    }

    static lemma InjectionDone(
      cfg: Config, start: map<string, Source>, prior: Option<Manifest>, scan: Scan, frozen: PathsBySource,
      sources: map<string, Source>, survivors: PathsBySource)
      requires sources.Keys == survivors.Keys == start.Keys
      requires forall n :: n in start ==>
        && sources[n] == InjectedSource(cfg, n, start[n], prior, scan, frozen)
        && survivors[n] == Surviving(cfg, n, start[n].files, prior, scan, frozen)
      ensures sources == InjectSources(cfg, start, prior, scan, frozen)
      ensures survivors == SurvivingMap(cfg, start, prior, scan, frozen)
    {
      hide InjectedSource, Surviving;
    }

    /** Applies one source's upload before the manifest is serialized. */
    method ApplyUploaded(
      name: string, patches: map<string, Entry>, held: set<string>, remote: map<string, Entry>, tombstoned: set<string>)
      requires name in sources
      modifies this
      ensures
        var files := ApplyUpload(old(sources)[name].files, patches, held, remote, tombstoned);
        sources == old(sources)[name := Source(old(sources)[name].basePath, files)]
    {
      var files := sources[name].files + patches;
      ghost var start := files;
      var todo := held;
      while todo != {}
        invariant todo <= held
        invariant forall p :: p in files <==>
          if p in held && p !in todo then p in remote && p !in tombstoned else p in start
        invariant forall p :: p in files ==> files[p] == if p in held && p !in todo then remote[p] else start[p]
        decreases todo
      {
        var p :| p in todo;
        if p in remote && p !in tombstoned {
          files := files[p := remote[p]];
        } else {
          files := files - {p};
        }
        todo := todo - {p};
      }
      assert files == ApplyUpload(sources[name].files, patches, held, remote, tombstoned);
      sources := sources[name := Source(sources[name].basePath, files)];
    }
  }

  /** Probes every omitted prior path below an accessible root; false means refuse. */
  method ProveOmittedPathsAbsent(
    cfg: Config, local: map<string, Source>, prior: Manifest, probe: PathProbe, root: string -> bool)
    returns (ok: bool)
    ensures ok <==> AbsenceProven(cfg, local, prior, probe, root)
  {
    var names := prior.sources.Keys;
    while names != {}
      invariant names <= prior.sources.Keys
      invariant forall n :: n in prior.sources.Keys - names ==>
        && (n in cfg.available && prior.sources[n].files != map[] ==> root(n))
        && forall p | p in prior.sources[n].files :: MustProbe(cfg, local, prior, n, p) ==> Absent(probe(n, p))
      decreases names
    {
      var n :| n in names;
      if n in cfg.available && prior.sources[n].files != map[] {
        if !root(n) {
          return false;
        }
        var todo := prior.sources[n].files.Keys;
        while todo != {}
          invariant todo <= prior.sources[n].files.Keys
          invariant forall p | p in prior.sources[n].files && p !in todo ::
            MustProbe(cfg, local, prior, n, p) ==> Absent(probe(n, p))
          decreases todo
        {
          var p :| p in todo;
          if MustProbe(cfg, local, prior, n, p) && !Absent(probe(n, p)) {
            return false;
          }
          todo := todo - {p};
        }
      }
      names := names - {n};
    }
    return true;
  }

  datatype UploadReturn = Interrupted | Aborted | Uploaded(patches: map<string, Entry>, held: map<string, Reason>)

  /** How a push ended. `Stopped` is a crash between two blob puts. */
  datatype Outcome = Refused | Idle | Stopped | Published(manifest: Manifest)

  /** The reads of a completed upload loop: every file once, then each deferred file once. */
  ghost predicate TwoPasses(lib: Library, b: Batch, trail: seq<string>) {
    exists k :: 0 <= k <= |trail| && SplitsAt(lib, b, trail, k)
  }

  /** The reads so far of an upload loop, wherever it ended: no file twice in either pass, and
      in the second only deferred ones. */
  ghost predicate PartialPasses(lib: Library, b: Batch, trail: seq<string>) {
    exists k :: 0 <= k <= |trail| && PartiallySplitsAt(lib, b, trail, k)
  }

  ghost predicate PartiallySplitsAt(lib: Library, b: Batch, trail: seq<string>, k: nat)
    requires k <= |trail|
  {
    && NoRepeats(trail[..k]) && (forall p | p in trail[..k] :: p in b.files)
    && NoRepeats(trail[k..]) && (forall p | p in trail[k..] :: p in DeferredPaths(lib, b))
  }

  ghost predicate NoRepeats(s: seq<string>) {
    forall i, j :: 0 <= i < j < |s| ==> s[i] != s[j]
  }

  ghost predicate SplitsAt(lib: Library, b: Batch, trail: seq<string>, k: nat)
    requires k <= |trail|
  {
    && NoRepeats(trail[..k]) && (forall p :: p in trail[..k] <==> p in b.files)
    && NoRepeats(trail[k..]) && (forall p :: p in trail[k..] <==> p in DeferredPaths(lib, b))
  }

  /** Blob keys as a listing returns them. */
  datatype Listed = NotBlob | Malformed | Blob(device: string, sha: string)

  class Device {
    var blobs: map<string, Bytes>
    var own: Option<Manifest>
    var sidecar: Option<Manifest>

    constructor ()
      ensures Snapshot() == Store(map[], None, None)
    {
      blobs, own, sidecar := map[], None, None;
    }

    ghost function Snapshot(): Store
      reads this
    {
      Store(blobs, own, sidecar)
    }

    method PutBlob(lib: Library, data: Bytes)
      modifies this`blobs
      ensures blobs == old(blobs)[lib.digest(data) := data]
    {
      blobs := blobs[lib.digest(data) := data];
    }

    /** First pass: verified files are put, every other file is deferred. */
    method FirstPass(lib: Library, b: Batch, fuse: nat)
      returns (done: UploadReturn, deferred: set<string>, trail: seq<string>, left: nat)
      modifies this`blobs
      ensures Grown(lib, old(blobs), blobs, Puts(lib, b))
      ensures done.Aborted? ==> BatchFatal(lib, b)
      ensures done.Uploaded? ==>
        && deferred == DeferredPaths(lib, b)
        && (forall p :: p in b.files && p !in deferred ==> At(lib, b, p).AsScanned?)
        && (forall p :: p in b.files && At(lib, b, p).AsScanned? ==> HasBlob(lib, blobs, At(lib, b, p).data))
        && (forall p :: p in trail <==> p in b.files)
      ensures NoRepeats(trail) && (forall p | p in trail :: p in b.files) && left <= fuse <= left + |trail|
      ensures done.Interrupted? ==> fuse < |trail|
    {
      ghost var start := blobs;
      left, deferred, trail := fuse, {}, [];
      var todo := b.files.Keys;
      while todo != {}
        invariant todo <= b.files.Keys
        invariant deferred <= b.files.Keys - todo
        invariant forall p :: p in b.files && p !in todo ==>
          if p in deferred then Deferred(lib, b.files[p], b.first(p))
          else At(lib, b, p).AsScanned? && HasBlob(lib, blobs, At(lib, b, p).data)
        invariant Grown(lib, start, blobs, Puts(lib, b))
        invariant NoRepeats(trail) && forall p :: p in trail <==> p in b.files && p !in todo
        invariant left <= fuse <= left + |trail|
        decreases todo
      {
        var p :| p in todo;
        var revision := ReadOnce(b.first(p));
        trail := trail + [p];
        if revision.Refusal? {
          assert At(lib, b, p).Fatal?;
          return Aborted, deferred, trail, left;
        }
        if revision.Transient? || !MatchesScan(lib, revision, b.files[p]) {
          deferred := deferred + {p};
        } else {
          assert At(lib, b, p) == AsScanned(revision.data);
          if left == 0 {
            return Interrupted, deferred, trail, left;
          }
          left := left - 1;
          PutOne(lib, b, start, blobs, p, revision.data);
          PutBlob(lib, revision.data);
        }
        todo := todo - {p};
      }
      AsScannedNotDeferred(lib, b);
      assert deferred == DeferredPaths(lib, b);
      done := Uploaded(map[], map[]);
    }

    /** The second and last read of one deferred file; a settled revision is put. */
    method RetryOne(lib: Library, b: Batch, p: string, fuse: nat) returns (u: Upload, crashed: bool, left: nat)
      requires p in DeferredPaths(lib, b)
      modifies this`blobs
      ensures Grown(lib, old(blobs), blobs, Puts(lib, b))
      ensures !crashed ==> u == At(lib, b, p) && !u.AsScanned?
      ensures !crashed && u.Patched? ==> HasBlob(lib, blobs, u.data)
      ensures if crashed then left == fuse == 0 else left + (if u.Patched? then 1 else 0) == fuse
    {
      var revision := ReadOnce(b.second(p));
      crashed, left := false, fuse;
      if revision.Refusal? || (revision.Transient? && !b.allowHold) {
        u := Fatal;
      } else if revision.Transient? {
        u := HeldBack(revision.reason);
      } else {
        u := Patched(revision.data, EntryOf(lib, revision));
        if left == 0 {
          crashed := true;
        } else {
          left := left - 1;
          PutOne(lib, b, blobs, blobs, p, revision.data);
          PutBlob(lib, revision.data);
        }
      }
    }

    /** Second pass: a settled re-read is patched in, one still changing is held. */
    method SecondPass(lib: Library, b: Batch, deferred: set<string>, fuse: nat)
      returns (r: UploadReturn, trail: seq<string>, left: nat)
      requires deferred == DeferredPaths(lib, b)
      modifies this`blobs
      ensures Grown(lib, old(blobs), blobs, Puts(lib, b))
      ensures r.Aborted? ==> BatchFatal(lib, b)
      ensures r.Uploaded? ==>
        && (forall p :: p in deferred ==> !At(lib, b, p).Fatal?)
        && r.patches == Patches(lib, b) && r.held == HeldUploads(lib, b)
        && (forall p :: p in b.files && At(lib, b, p).Patched? ==> HasBlob(lib, blobs, At(lib, b, p).data))
        && (forall p :: p in trail <==> p in deferred)
      ensures NoRepeats(trail) && (forall p | p in trail :: p in deferred) && left <= fuse <= left + |trail|
      ensures r.Interrupted? ==> fuse < |trail|
    {
      hide At, Grown, HasBlob, Puts, Deferred, Patches, HeldUploads;
      ghost var start := blobs;
      GrownReflexive(lib, blobs, Puts(lib, b));
      left, trail := fuse, [];
      var patches: map<string, Entry> := map[];
      var held: map<string, Reason> := map[];
      var todo := deferred;
      while todo != {}
        invariant todo <= deferred
        invariant patches.Keys + held.Keys == deferred - todo
        invariant forall p :: p in patches ==>
          At(lib, b, p).Patched? && patches[p] == At(lib, b, p).entry && HasBlob(lib, blobs, At(lib, b, p).data)
        invariant forall p :: p in held ==> At(lib, b, p) == HeldBack(held[p])
        invariant Grown(lib, start, blobs, Puts(lib, b))
        invariant NoRepeats(trail) && forall p :: p in trail <==> p in deferred && p !in todo
        invariant left <= fuse <= left + |trail|
        decreases todo
      {
        var p :| p in todo;
        trail := trail + [p];
        ghost var mid := blobs;
        var u, crashed;
        u, crashed, left := RetryOne(lib, b, p, left);
        GrownTwice(lib, start, mid, blobs, Puts(lib, b));
        if crashed {
          return Interrupted, trail, left;
        }
        if u.Fatal? {
          return Aborted, trail, left;
        }
        if u.HeldBack? {
          held := held[p := u.reason];
        } else {
          patches := patches[p := u.entry];
        }
        todo := todo - {p};
      }
      SecondPassDone(lib, b, patches, held);
      r := Uploaded(patches, held);
    }

    /** Uploads one source's changed files. `fuse` is the number of puts before a crash. */
    method UploadChangedBlobs(lib: Library, b: Batch, fuse: nat)
      returns (r: UploadReturn, trail: seq<string>, left: nat)
      modifies this`blobs
      ensures Grown(lib, old(blobs), blobs, Puts(lib, b))
      ensures r.Aborted? ==> BatchFatal(lib, b)
      ensures r.Uploaded? ==>
        && !BatchFatal(lib, b)
        && r.patches == Patches(lib, b) && r.held == HeldUploads(lib, b)
        && HasAll(lib, blobs, Puts(lib, b))
        && TwoPasses(lib, b, trail)
      ensures PartialPasses(lib, b, trail) && left <= fuse <= left + |trail|
      ensures r.Interrupted? ==> fuse < |trail|
    {
      var done, deferred, firsts, rest := FirstPass(lib, b, fuse);
      trail, left := firsts, rest;
      if !done.Uploaded? {
        assert trail[..|firsts|] == firsts && trail[|firsts|..] == [];
        assert PartiallySplitsAt(lib, b, trail, |firsts|);
        return done, trail, left;
      }
      ghost var mid := blobs;
      var seconds;
      r, seconds, left := SecondPass(lib, b, deferred, rest);
      trail := firsts + seconds;
      assert trail[..|firsts|] == firsts && trail[|firsts|..] == seconds;
      assert PartiallySplitsAt(lib, b, trail, |firsts|);
      if r.Uploaded? {
        GrownKeepsAll(lib, mid, blobs, Puts(lib, b));
        assert SplitsAt(lib, b, trail, |firsts|);
      }
    }

    /** Builds the draft: prior, filters, freeze, holds, absence proof, tombstones. */
    method PreparePush(cfg: Config, o: Observations) returns (d: Option<Draft>)
      requires WellFormed(cfg, o)
      ensures d == Prepare(cfg, Snapshot(), o)
    {
      hide FreezeSources, FrozenMap, InjectSources, SurvivingMap, CandidatesProven, AbsenceProven, FilterSymlinked,
        DropUnfrozen, ScopedPrior, GenerateTombstones, ScanRoots, RecoverPrior, LostSource, Settled, ScannedSources;
      var store := Store(blobs, own, sidecar);
      var prior := PriorOf(cfg, store, o);
      if RefusesEarly(cfg, store, o) || !ScanAccepted(o.scan, Recovering(o)) {
        return None;
      }
      var local := new LocalManifest(ScannedSources(o.scan));
      if prior.NoPrior? {
        var held := local.InjectHeldEntries(cfg, None, o.scan, o.candidate, map[]);
        if held.None? {
          return None;
        }
        return Some(Draft(local.sources, None, map[], held.value, map[]));
      }
      var scoped := ScopedPrior(cfg, prior.manifest);
      var roots := ScanRoots(o.scan);
      var frozen := local.FreezeNestedCheckoutEntries(scoped, roots, StoredFilter(store, o));
      var compared := DropUnfrozen(scoped, roots, frozen);
      if o.linkProbeFails {
        return None;
      }
      compared := FilterSymlinked(cfg, compared, roots, o);
      var held := local.InjectHeldEntries(cfg, Some(compared), o.scan, o.candidate, frozen);
      if held.None? {
        return None;
      }
      var ok := ProveOmittedPathsAbsent(cfg, local.sources, compared, o.omitted, o.root);
      if !ok {
        return None;
      }
      var tombstones :=
        GenerateTombstones(cfg.lib.instant, local.sources, Some(compared), o.clocks.0, cfg.device);
      return Some(Draft(local.sources, Some(compared), frozen, held.value, tombstones));
    }

    /** Uploads every changed source and applies its patches and holds to the manifest. */
    method UploadSources(cfg: Config, o: Observations, d: Draft, fuse: nat)
      returns (r: UploadReturn, sources: map<string, Source>, anyHeld: bool)
      modifies this`blobs
      ensures Grown(cfg.lib, old(blobs), blobs, AllPuts(cfg, o, d))
      ensures r.Aborted? ==> AnyUploadRefuses(cfg, o, d)
      ensures r.Uploaded? ==>
        && !AnyUploadRefuses(cfg, o, d)
        && sources == UploadedSources(cfg, o, d)
        && (anyHeld <==> AnyUploadHeld(cfg, o, d))
        && HasAll(cfg.lib, blobs, AllPuts(cfg, o, d))
      ensures r.Interrupted? ==> fuse < 2 * |UploadsIn(o, d, d.sources.Keys)|
    {
      hide UploadRefuses, UploadedFiles, Puts, PutsOutside, AllPuts, HeldUploads, Grown, HasAll, BatchOf, UploadsIn,
        ToUpload;
      ghost var start := blobs;
      var local := new LocalManifest(d.sources);
      var left: nat := fuse;
      anyHeld := false;
      var todo := d.sources.Keys;
      NothingPutYet(cfg, o, d, blobs);
      while todo != {}
        invariant todo <= d.sources.Keys
        invariant local.sources.Keys == d.sources.Keys
        invariant forall n :: n in todo ==> local.sources[n] == d.sources[n]
        invariant forall n :: n in d.sources && n !in todo ==>
          !UploadRefuses(cfg, o, d, n) && local.sources[n] == Source(d.sources[n].basePath, UploadedFiles(cfg, o, d, n))
        invariant anyHeld <==>
          exists n :: n in d.sources && n !in todo && HeldUploads(cfg.lib, BatchOf(o, d, n)) != map[]
        invariant Grown(cfg.lib, start, blobs, PutsOutside(cfg, o, d, todo))
        invariant HasAll(cfg.lib, blobs, PutsOutside(cfg, o, d, todo))
        invariant left <= fuse <= left + 2 * |UploadsIn(o, d, d.sources.Keys - todo)|
        decreases todo
      {
        var n :| n in todo;
        ghost var mid := blobs;
        ghost var next := todo - {n};
        var held, status;
        status, held, left := UploadOneSource(cfg, o, d, n, local, left);
        OneMoreSource(cfg, o, d, todo, n, start, mid, blobs);
        OneMoreCount(o, d, todo, n);
        if !status.Uploaded? {
          return status, map[], anyHeld;
        }
        anyHeld := anyHeld || held;
        todo := todo - {n};
        assert todo == next;
      }
      AllPutsDone(cfg, o, d);
      sources := local.sources;
      assert sources == UploadedSources(cfg, o, d);
      r := Uploaded(map[], map[]);
    }

    /** One source of the upload: the two passes, the root check after a vanish, and the
        in-place update of the manifest. */
    method UploadOneSource(cfg: Config, o: Observations, d: Draft, n: string, local: LocalManifest, fuse: nat)
      returns (r: UploadReturn, held: bool, left: nat)
      requires n in d.sources && n in local.sources && local.sources[n] == d.sources[n]
      modifies this`blobs, local
      ensures Grown(cfg.lib, old(blobs), blobs, Puts(cfg.lib, BatchOf(o, d, n)))
      ensures r.Aborted? ==> UploadRefuses(cfg, o, d, n)
      ensures r.Uploaded? ==>
        && !UploadRefuses(cfg, o, d, n)
        && local.sources == old(local.sources)[n := Source(d.sources[n].basePath, UploadedFiles(cfg, o, d, n))]
        && (held <==> HeldUploads(cfg.lib, BatchOf(o, d, n)) != map[])
        && HasAll(cfg.lib, blobs, Puts(cfg.lib, BatchOf(o, d, n)))
      ensures left <= fuse <= left + 2 * |ToUpload(o, d, n)|
      ensures r.Interrupted? ==> fuse < 2 * |ToUpload(o, d, n)|
    {
      hide Grown, ApplyUpload, At, PartialPasses, ToUpload;
      var b := BatchOf(o, d, n);
      if !HasChanges(d.sources[n].files, Files(RemoteSources(o), n)) {
        GrownReflexive(cfg.lib, blobs, Puts(cfg.lib, b));
        UnchangedUploadsNothing(cfg, o, d, n);
        assert local.sources == old(local.sources)[n := d.sources[n]];
        return Uploaded(map[], map[]), false, fuse;
      }
      var trail;
      r, trail, left := UploadChangedBlobs(cfg.lib, b, fuse);
      ShortTrail(cfg.lib, b, trail);
      held := false;
      if r.Uploaded? {
        held := r.held != map[];
        if n in RemoteSources(o) && Vanished in r.held.Values && !o.rootAfter(n) {
          return Aborted, held, left;
        }
        local.ApplyUploaded(n, r.patches, r.held.Keys, Files(RemoteSources(o), n), HeldTombstoned(o, n, r.held.Keys));
      }
    }

    /** One push. `fuse` is the number of blob puts after which the process dies. */
    method Push(cfg: Config, o: Observations, fuse: nat) returns (out: Outcome)
      requires WellFormed(cfg, o)
      modifies this
      ensures PushStep(cfg, o, old(Snapshot()), Snapshot(), out)
      ensures out.Stopped? ==>
        && Prepare(cfg, old(Snapshot()), o).Some?
        && var e := Rescanned(cfg, o, Prepare(cfg, old(Snapshot()), o).value);
        e.Some? && fuse < 2 * |UploadsIn(o, e.value, e.value.sources.Keys)|
    {
      hide Prepare, Rescanned, Substantive, AnyUploadRefuses, UploadedSources, AllPuts, Grown, HasAll, RefusesEarly,
        AnyUploadHeld, GenerateTombstones;
      ghost var start := Snapshot();
      GrownReflexive(cfg.lib, blobs, AttemptedPuts(cfg, start, o));
      if cfg.available.Keys == {} && !cfg.skippedInternal {
        if cfg.selected != {} && RefusesEarly(cfg, Store(blobs, own, sidecar), o) {
          return Refused;
        }
        return Idle;
      }
      var d := PreparePush(cfg, o);
      if d.None? {
        return Refused;
      }
      if !Substantive(cfg, Store(blobs, own, sidecar), o, d.value) {
        return Idle;
      }
      var e := RescanInternal(cfg, o, d.value);
      if e.None? {
        return Refused;
      }
      var status, sources, anyHeld := UploadSources(cfg, o, e.value, fuse);
      if status.Interrupted? {
        return Stopped;
      }
      if status.Aborted? || o.newerAtEnd {
        return Refused;
      }
      var tombstones := e.value.tombstones;
      if anyHeld {
        tombstones := GenerateTombstones(cfg.lib.instant, sources, e.value.prior, o.clocks.2, cfg.device);
      }
      var manifest := Manifest(cfg.device, cfg.deviceName, o.timestamp, sources, tombstones);
      own := Some(manifest);
      if o.sidecarWrites {
        sidecar := Some(manifest);
      }
      out := Published(manifest);
    }

    /** Deletes this device's blobs that neither of two fetches references. `fuse` is the
        number of deletions after which one fails. */
    method CollectGarbage(device: string, first: Fetch, again: Fetch, listed: seq<Listed>, dryRun: bool, fuse: nat)
      returns (out: GcOutcome)
      requires (first.status == Ok <==> first.manifest.Some?) && (again.status == Ok <==> again.manifest.Some?)
      modifies this`blobs
      ensures GcStep(device, first, again, listed, dryRun, old(Snapshot()), Snapshot(), out)
      ensures out.GcStopped? ==>
        OrphanCount(device, listed[..out.handled], References(first) + References(again)) == fuse
    {
      hide References, Hashes, Orphans, OrphanCount;
      if first.status == Missing {
        return GcSkipped;
      }
      if !Complete(first) {
        return GcRefused;
      }
      if again.status == Missing {
        return GcSkipped;
      }
      if !Complete(again) {
        return GcRefused;
      }
      var referenced := References(first) + References(again);
      var orphans, left := 0, fuse;
      assert listed[..0] == [];
      NothingListed(device, referenced);
      ghost var start := blobs;
      for i := 0 to |listed|
        invariant blobs == if dryRun then start else start - Orphans(device, listed[..i], referenced)
        invariant orphans == OrphanCount(device, listed[..i], referenced)
        invariant !dryRun ==> left == fuse - orphans
      {
        assert listed[..i + 1] == listed[..i] + [listed[i]];
        OneMoreListed(device, listed[..i], listed[i], referenced);
        if IsOrphan(device, listed[i], referenced) {
          orphans := orphans + 1;
          if !dryRun {
            if left == 0 {
              return GcStopped(i);
            }
            left := left - 1;
            blobs := blobs - {listed[i].sha};
          }
        }
      }
      assert listed[..|listed|] == listed;
      out := Collected(orphans);
    }
  }

  /** Frozen entries the rescan did not read stay; a path it read leaves the frozen set. */
  method CarryFrozenEntries(rescanned: map<string, Entry>, previous: map<string, Entry>, frozen: set<string>)
    returns (files: map<string, Entry>, still: set<string>)
    ensures files == CarryFrozen(rescanned, previous, frozen)
    ensures still == frozen - rescanned.Keys
  {
    files, still := rescanned, frozen;
    var todo := frozen;
    while todo != {}
      invariant todo <= frozen
      invariant still == frozen - ((frozen - todo) * rescanned.Keys)
      invariant files.Keys == rescanned.Keys + (frozen - todo) * previous.Keys
      invariant forall p :: p in files ==> files[p] == if p in rescanned then rescanned[p] else previous[p]
      decreases todo
    {
      var p :| p in todo;
      if p in rescanned {
        still := still - {p};
      } else if p in previous {
        files := files[p := previous[p]];
      }
      todo := todo - {p};
    }
  }

  /** A held path that a checkout found by the rescan covers joins the frozen set. */
  method CarryHeldEntries(
    rescanned: map<string, Entry>, previous: map<string, Entry>, frozen: set<string>, held: set<string>,
    roots: set<string>)
    returns (files: map<string, Entry>, joined: set<string>)
    ensures files == CarryHeld(rescanned, previous, frozen, held, roots)
    ensures joined == NewlyFrozen(rescanned, previous, frozen, held, roots)
  {
    hide UnderPrefix;
    var carried, _ := CarryFrozenEntries(rescanned, previous, frozen);
    files, joined := carried, {};
    var todo := held;
    while todo != {}
      invariant todo <= held
      invariant joined == set p | p in held && p !in todo && p !in carried && UnderPrefix(p, roots) && p in previous
      invariant files.Keys == carried.Keys + joined
      invariant forall p :: p in carried ==> files[p] == carried[p]
      invariant forall p :: p in joined ==> files[p] == previous[p]
      decreases todo
    {
      var p :| p in todo;
      if p !in files && UnderPrefix(p, roots) && p in previous {
        files := files[p := previous[p]];
        joined := joined + {p};
      }
      todo := todo - {p};
    }
    assert joined == NewlyFrozen(rescanned, previous, frozen, held, roots);
  }

  method CarrySource(o: Observations, d: Draft, n: string) returns (files: map<string, Entry>, still: set<string>)
    requires o.rescan.Scanned? && n in o.rescan.sources
    ensures files == RescannedFiles(o, d, n) && still == RescannedFrozen(o, d, n)
  {
    var rescanned := o.rescan.sources[n].files;
    var frozen := Paths(d.frozen, n);
    var joined;
    files, joined := CarryHeldEntries(rescanned, Files(d.sources, n), frozen, Paths(d.held, n), BothRoots(o, n));
    still := (frozen - rescanned.Keys) + joined;
  }

  method CarrySources(o: Observations, d: Draft) returns (events: map<string, Source>, frozen: PathsBySource)
    requires o.rescan.Scanned?
    ensures events == RescannedSources(o, d)
    ensures frozen == FrozenAfter(o, d)
  {
    hide RescannedFiles, RescannedFrozen;
    var names := o.rescan.sources.Keys;
    events := map[];
    frozen := d.frozen;
    while names != {}
      invariant names <= o.rescan.sources.Keys
      invariant events.Keys == o.rescan.sources.Keys - names
      invariant forall n :: n in events ==>
        events[n] == Source(o.rescan.sources[n].basePath, RescannedFiles(o, d, n))
      invariant frozen.Keys == d.frozen.Keys + events.Keys
      invariant forall n :: n in events ==> frozen[n] == RescannedFrozen(o, d, n)
      invariant forall n :: n in d.frozen && n !in events ==> frozen[n] == d.frozen[n]
      decreases names
    {
      var n :| n in names;
      var files, still := CarrySource(o, d, n);
      events := events[n := Source(o.rescan.sources[n].basePath, files)];
      frozen := frozen[n := still];
      names := names - {n};
    }
  }

  method RescanInternal(cfg: Config, o: Observations, d: Draft) returns (r: Option<Draft>)
    requires WellFormed(cfg, o)
    ensures r == Rescanned(cfg, o, d)
  {
    hide CandidatesProven, AbsenceProven, GenerateTombstones, InjectSources, SurvivingMap, Settled, RescannedSources,
      FrozenAfter;
    if cfg.available.Keys * INTERNAL == {} {
      return Some(d);
    }
    if !ScanAccepted(o.rescan, Recovering(o)) {
      return None;
    }
    var events, frozen := CarrySources(o, d);
    var local := new LocalManifest(events);
    var held := local.InjectHeldEntries(cfg, d.prior, o.rescan, o.candidateAgain, frozen);
    if held.None? {
      return None;
    }
    var sources := d.sources + local.sources;
    if d.prior.Some? {
      var ok := ProveOmittedPathsAbsent(cfg, sources, d.prior.value, o.omittedAgain, o.rootAgain);
      if !ok {
        return None;
      }
    }
    var heldNow := (map n | n in d.held && n !in o.rescan.sources :: d.held[n]) + held.value;
    var tombstones := GenerateTombstones(cfg.lib.instant, sources, d.prior, o.clocks.1, cfg.device);
    return Some(Draft(sources, d.prior, frozen, heldNow, tombstones));
  }

  // ---- one step of the device ---------------------------------------------

  /** Bytes the push may put: those of the draft it uploads, if it gets that far. */
  ghost function AttemptedPuts(cfg: Config, s: Store, o: Observations): set<Bytes> {
    match Prepare(cfg, s, o)
    case None => {}
    case Some(d) =>
      match Rescanned(cfg, o, d)
      case None => {}
      case Some(e) => AllPuts(cfg, o, e)
  }

  /** What one push does to the store, however it ends. */
  ghost predicate PushStep(cfg: Config, o: Observations, s: Store, t: Store, out: Outcome) {
    match out
    case Idle => Decide(cfg, s, o).Idles? && t == s
    case Refused =>
      Decide(cfg, s, o).Refuses? && t.own == s.own && t.sidecar == s.sidecar
      && Grown(cfg.lib, s.blobs, t.blobs, AttemptedPuts(cfg, s, o))
    case Stopped =>
      !Decide(cfg, s, o).Idles? && t.own == s.own && t.sidecar == s.sidecar
      && Grown(cfg.lib, s.blobs, t.blobs, AttemptedPuts(cfg, s, o))
    case Published(m) =>
      && Decide(cfg, s, o).Publishes?
      && m == FinalManifest(cfg, o, Decide(cfg, s, o).draft)
      && t.own == Some(m)
      && t.sidecar == (if o.sidecarWrites then Some(m) else s.sidecar)
      && Grown(cfg.lib, s.blobs, t.blobs, AllPuts(cfg, o, Decide(cfg, s, o).draft))
      && HasAll(cfg.lib, t.blobs, AllPuts(cfg, o, Decide(cfg, s, o).draft))
  }

  /** A stopped collection had dealt with the first `handled` listed keys. */
  datatype GcOutcome = GcSkipped | GcRefused | GcStopped(handled: nat) | Collected(orphans: nat)

  /** A fetch whose reference set GC may trust. */
  predicate Complete(f: Fetch) {
    f.newerVersion.None? && !f.conflictCopiesOnly && f.status == Ok
  }

  function References(f: Fetch): set<string> {
    if f.manifest.Some? then Hashes(f.manifest.value.sources) else {}
  }

  function Hashes(sources: map<string, Source>): set<string> {
    set n, p | n in sources && p in sources[n].files :: sources[n].files[p].sha
  }

  predicate IsOrphan(device: string, l: Listed, referenced: set<string>) {
    l.Blob? && l.device == device && l.sha !in referenced
  }

  function Orphans(device: string, listed: seq<Listed>, referenced: set<string>): set<string> {
    set l | l in listed && IsOrphan(device, l, referenced) :: l.sha
  }

  function OrphanCount(device: string, listed: seq<Listed>, referenced: set<string>): nat {
    if listed == [] then 0
    else OrphanCount(device, listed[..|listed| - 1], referenced)
         + (if IsOrphan(device, listed[|listed| - 1], referenced) then 1 else 0)
  }

  lemma NothingListed(device: string, referenced: set<string>)
    ensures Orphans(device, [], referenced) == {} && OrphanCount(device, [], referenced) == 0
  {
  }

  lemma OneMoreListed(device: string, listed: seq<Listed>, l: Listed, referenced: set<string>)
    ensures Orphans(device, listed + [l], referenced) ==
            Orphans(device, listed, referenced) + (if IsOrphan(device, l, referenced) then {l.sha} else {})
    ensures OrphanCount(device, listed + [l], referenced) ==
            OrphanCount(device, listed, referenced) + (if IsOrphan(device, l, referenced) then 1 else 0)
  {
    assert (listed + [l])[..|listed|] == listed;
  }

  ghost predicate GcStep(
    device: string, first: Fetch, again: Fetch, listed: seq<Listed>, dryRun: bool, s: Store, t: Store, out: GcOutcome)
  {
    && t.own == s.own && t.sidecar == s.sidecar
    && (out.Collected? || out.GcStopped? <==> Complete(first) && Complete(again))
    && (out.GcSkipped? <==> first.status == Missing || (Complete(first) && again.status == Missing))
    && (out.GcSkipped? || out.GcRefused? ==> t == s)
    && (out.GcStopped? ==>
          && !dryRun && out.handled < |listed|
          && IsOrphan(device, listed[out.handled], References(first) + References(again))
          && t.blobs == s.blobs - Orphans(device, listed[..out.handled], References(first) + References(again)))
    && (out.Collected? ==>
          && out.orphans == OrphanCount(device, listed, References(first) + References(again))
          && t.blobs == if dryRun then s.blobs
                        else s.blobs - Orphans(device, listed, References(first) + References(again)))
  }

  // ---- bookkeeping lemmas ---------------------------------------------------

  ghost function PutsOutside(cfg: Config, o: Observations, d: Draft, todo: set<string>): set<Bytes> {
    set n, x | n in d.sources && n !in todo && x in Puts(cfg.lib, BatchOf(o, d, n)) :: x
  }

  lemma NothingPutYet(cfg: Config, o: Observations, d: Draft, blobs: map<string, Bytes>)
    ensures Grown(cfg.lib, blobs, blobs, PutsOutside(cfg, o, d, d.sources.Keys))
    ensures Grown(cfg.lib, blobs, blobs, AllPuts(cfg, o, d))
    ensures HasAll(cfg.lib, blobs, PutsOutside(cfg, o, d, d.sources.Keys))
  {
    hide Puts;
    assert PutsOutside(cfg, o, d, d.sources.Keys) == {};
  }

  lemma AllPutsDone(cfg: Config, o: Observations, d: Draft)
    ensures PutsOutside(cfg, o, d, {}) == AllPuts(cfg, o, d)
  {
  }

  lemma PutsOfOneMore(cfg: Config, o: Observations, d: Draft, todo: set<string>, n: string)
    requires n in todo && todo <= d.sources.Keys
    ensures PutsOutside(cfg, o, d, todo - {n}) == PutsOutside(cfg, o, d, todo) + Puts(cfg.lib, BatchOf(o, d, n))
    ensures PutsOutside(cfg, o, d, todo - {n}) <= AllPuts(cfg, o, d)
  {
    hide Puts;
  }

  lemma GrownMore(
    lib: Library, start: map<string, Bytes>, mid: map<string, Bytes>, blobs: map<string, Bytes>, before: set<Bytes>,
    added: set<Bytes>, all: set<Bytes>)
    requires Grown(lib, start, mid, before) && Grown(lib, mid, blobs, added)
    requires before + added <= all
    ensures Grown(lib, start, blobs, all)
    ensures HasAll(lib, mid, before) && HasAll(lib, blobs, added) ==> HasAll(lib, blobs, before + added)
  {
  }

  lemma OneMoreSource(
    cfg: Config, o: Observations, d: Draft, todo: set<string>, n: string, start: map<string, Bytes>,
    mid: map<string, Bytes>, blobs: map<string, Bytes>)
    requires n in todo && todo <= d.sources.Keys
    requires Grown(cfg.lib, start, mid, PutsOutside(cfg, o, d, todo))
    requires HasAll(cfg.lib, mid, PutsOutside(cfg, o, d, todo))
    requires Grown(cfg.lib, mid, blobs, Puts(cfg.lib, BatchOf(o, d, n)))
    ensures Grown(cfg.lib, start, blobs, PutsOutside(cfg, o, d, todo - {n}))
    ensures Grown(cfg.lib, start, blobs, AllPuts(cfg, o, d))
    ensures HasAll(cfg.lib, blobs, Puts(cfg.lib, BatchOf(o, d, n))) ==>
      HasAll(cfg.lib, blobs, PutsOutside(cfg, o, d, todo - {n}))
  {
    hide Puts, PutsOutside, AllPuts, Grown, HasAll;
    PutsOfOneMore(cfg, o, d, todo, n);
    var before, added := PutsOutside(cfg, o, d, todo), Puts(cfg.lib, BatchOf(o, d, n));
    GrownMore(cfg.lib, start, mid, blobs, before, added, before + added);
    GrownMore(cfg.lib, start, mid, blobs, before, added, AllPuts(cfg, o, d));
  }

  lemma GrownReflexive(lib: Library, blobs: map<string, Bytes>, data: set<Bytes>)
    ensures Grown(lib, blobs, blobs, data)
  {
  }

  /** A source without byte changes is not uploaded, patched, held or refused. */
  lemma UnchangedUploadsNothing(cfg: Config, o: Observations, d: Draft, n: string)
    requires n in d.sources
    requires !HasChanges(d.sources[n].files, Files(RemoteSources(o), n))
    ensures Puts(cfg.lib, BatchOf(o, d, n)) == {}
    ensures HeldUploads(cfg.lib, BatchOf(o, d, n)) == map[]
    ensures !UploadRefuses(cfg, o, d, n)
    ensures UploadedFiles(cfg, o, d, n) == d.sources[n].files
  {
    var b := BatchOf(o, d, n);
    assert b.files == map[];
    assert HeldUploads(cfg.lib, b) == map[] && Patches(cfg.lib, b) == map[];
  }

  lemma PutOne(lib: Library, b: Batch, start: map<string, Bytes>, blobs: map<string, Bytes>, p: string, data: Bytes)
    requires Grown(lib, start, blobs, Puts(lib, b))
    requires p in b.files
    requires (At(lib, b, p).AsScanned? || At(lib, b, p).Patched?) && At(lib, b, p).data == data
    ensures Grown(lib, start, blobs[lib.digest(data) := data], Puts(lib, b))
    ensures HasBlob(lib, blobs[lib.digest(data) := data], data)
    ensures forall x :: HasBlob(lib, blobs, x) ==> HasBlob(lib, blobs[lib.digest(data) := data], x)
  {
    assert data in Puts(lib, b);
  }

  lemma {:induction false} NoMoreThan(s: seq<string>, all: set<string>)
    requires NoRepeats(s) && forall p | p in s :: p in all
    ensures |s| <= |all|
    decreases |s|
  {
    if s != [] {
      assert forall i | 0 < i < |s| :: s[1..][i - 1] == s[i];
      NoMoreThan(s[1..], all - {s[0]});
    }
  }

  lemma ShortTrail(lib: Library, b: Batch, trail: seq<string>)
    requires PartialPasses(lib, b, trail)
    ensures |trail| <= 2 * |b.files|
  {
    hide NoRepeats;
    var k :| 0 <= k <= |trail| && PartiallySplitsAt(lib, b, trail, k);
    NoMoreThan(trail[..k], b.files.Keys);
    NoMoreThan(trail[k..], b.files.Keys);
    assert |b.files.Keys| == |b.files|;
  }

  /** What the upload of these sources reads, as pairs of a source and a path. */
  ghost function UploadsIn(o: Observations, d: Draft, names: set<string>): set<(string, string)> {
    set n, p | n in names && p in ToUpload(o, d, n) :: (n, p)
  }

  lemma OneMoreCount(o: Observations, d: Draft, todo: set<string>, n: string)
    requires n in todo && todo <= d.sources.Keys
    ensures |UploadsIn(o, d, d.sources.Keys - (todo - {n}))|
            == |UploadsIn(o, d, d.sources.Keys - todo)| + |ToUpload(o, d, n)|
    ensures |UploadsIn(o, d, d.sources.Keys - (todo - {n}))| <= |UploadsIn(o, d, d.sources.Keys)|
  {
    hide ToUpload, UploadsIn;
    var before, after := d.sources.Keys - todo, d.sources.Keys - (todo - {n});
    assert after == before + {n};
    AddedUploads(o, d, before, n);
    UploadsGrow(o, d, after, d.sources.Keys);
  }

  lemma AddedUploads(o: Observations, d: Draft, names: set<string>, n: string)
    requires n !in names
    ensures |UploadsIn(o, d, names + {n})| == |UploadsIn(o, d, names)| + |ToUpload(o, d, n)|
  {
    hide ToUpload, UploadsIn, Paired;
    var paths := ToUpload(o, d, n).Keys;
    PairedCount(n, paths);
    AddedPairs(o, d, names, n);
    assert |paths| == |ToUpload(o, d, n)|;
  }

  lemma AddedPairs(o: Observations, d: Draft, names: set<string>, n: string)
    requires n !in names
    ensures UploadsIn(o, d, names + {n}) == UploadsIn(o, d, names) + Paired(n, ToUpload(o, d, n).Keys)
    ensures UploadsIn(o, d, names) !! Paired(n, ToUpload(o, d, n).Keys)
  {
    hide ToUpload;
    forall x: (string, string)
      ensures x in UploadsIn(o, d, names + {n}) <==>
        x in UploadsIn(o, d, names) || x in Paired(n, ToUpload(o, d, n).Keys)
      ensures !(x in UploadsIn(o, d, names) && x in Paired(n, ToUpload(o, d, n).Keys))
    {
      IsUpload(o, d, names, x);
      IsUpload(o, d, names + {n}, x);
    }
  }

  lemma IsUpload(o: Observations, d: Draft, names: set<string>, x: (string, string))
    ensures x in UploadsIn(o, d, names) <==> x.0 in names && x.1 in ToUpload(o, d, x.0)
  {
    hide ToUpload;
    assert x == (x.0, x.1);
  }

  lemma UploadsGrow(o: Observations, d: Draft, some: set<string>, all: set<string>)
    requires some <= all
    ensures |UploadsIn(o, d, some)| <= |UploadsIn(o, d, all)|
  {
    hide ToUpload;
    var rest := UploadsIn(o, d, all) - UploadsIn(o, d, some);
    assert UploadsIn(o, d, all) == UploadsIn(o, d, some) + rest;
  }

  ghost function Paired(n: string, paths: set<string>): set<(string, string)> {
    set p | p in paths :: (n, p)
  }

  lemma {:induction false} PairedCount(n: string, paths: set<string>)
    ensures |Paired(n, paths)| == |paths|
    decreases paths
  {
    if p :| p in paths {
      PairedCount(n, paths - {p});
      assert Paired(n, paths) == Paired(n, paths - {p}) + {(n, p)};
    } else {
      assert Paired(n, paths) == {};
    }
  }

  lemma AsScannedNotDeferred(lib: Library, b: Batch)
    ensures forall p :: p in b.files && p in DeferredPaths(lib, b) ==> !At(lib, b, p).AsScanned?
    ensures forall p ::
              p in b.files && (At(lib, b, p).Patched? || At(lib, b, p).HeldBack?) ==> p in DeferredPaths(lib, b)
  {
  }

  lemma SecondPassDone(lib: Library, b: Batch, patches: map<string, Entry>, held: map<string, Reason>)
    requires patches.Keys + held.Keys == DeferredPaths(lib, b)
    requires forall p :: p in patches ==> At(lib, b, p).Patched? && patches[p] == At(lib, b, p).entry
    requires forall p :: p in held ==> At(lib, b, p) == HeldBack(held[p])
    ensures patches == Patches(lib, b) && held == HeldUploads(lib, b)
    ensures forall p :: p in DeferredPaths(lib, b) ==> !At(lib, b, p).Fatal?
    ensures forall p :: p in b.files && At(lib, b, p).Patched? ==> p in patches
  {
    AsScannedNotDeferred(lib, b);
  }

  lemma GrownTwice(
    lib: Library, before: map<string, Bytes>, mid: map<string, Bytes>, after: map<string, Bytes>, data: set<Bytes>)
    requires Grown(lib, before, mid, data) && Grown(lib, mid, after, data)
    ensures Grown(lib, before, after, data)
    ensures forall x :: HasBlob(lib, mid, x) ==> HasBlob(lib, after, x)
  {
  }

  lemma GrownKeepsAll(lib: Library, before: map<string, Bytes>, after: map<string, Bytes>, data: set<Bytes>)
    requires Grown(lib, before, after, data)
    ensures forall x :: HasBlob(lib, before, x) ==> HasBlob(lib, after, x)
  {
  }
}
