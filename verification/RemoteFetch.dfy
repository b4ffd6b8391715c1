/** Fetching one device's manifest over reads that may vanish, change or fail, and
    recovering a prior state when the fetch cannot supply one. */
module RemoteFetch {
  import opened TextOrder
  import opened Manifests
  import opened MergeCopies

  type Bytes = seq<Byte>

  const FORMAT_VERSION := 2
  const FORMAT_VERSION_MAX := 15

  /** Foreign calls. `parses` is decrypt plus JSON decode; `load` is decrypt plus the
      shape-checked load. Neither is asked about reserved-version bytes. */
  datatype Codec = Codec(parses: Bytes -> bool, load: Bytes -> Option<Manifest>, hash: ContentHash)

  datatype Read = Got(data: Bytes) | NotFound | Failed

  /** A conflict copy named by the second listing: what its validator read and what the
      final read returned. */
  datatype Candidate = Candidate(validated: Read, final: Read)

  /** Every observation of one fetch. Each is arbitrary: the folder may change between
      any two of them. */
  datatype World = World(
    canonicalExists: bool,
    canonicalFirst: Read,
    noted: seq<Read>,
    candidates: seq<Candidate>,
    canonicalSecond: Read)

  datatype Status = Ok | Missing | Corrupt

  datatype Fetch = Fetch(
    status: Status,
    manifest: Option<Manifest>,
    newerVersion: Option<int>,
    conflictCopiesOnly: bool,
    vanished: bool)

  function Plain(status: Status): Fetch {
    Fetch(status, None, None, false, false)
  }

  // ---- single observations --------------------------------------------

  function NewerVersion(data: Bytes): Option<int> {
    if data != [] && FORMAT_VERSION < data[0] <= FORMAT_VERSION_MAX then Some(data[0]) else None
  }

  predicate Newer(r: Read) {
    r.Got? && NewerVersion(r.data).Some?
  }

  /** The validator's verdict on a conflict copy. */
  predicate Validates(c: Codec, r: Read) {
    r.Got? && !Newer(r) && r.data != [] && r.data[0] == FORMAT_VERSION && c.parses(r.data)
  }

  predicate Loads(c: Codec, r: Read) {
    r.Got? && !Newer(r) && c.load(r.data).Some?
  }

  predicate AnyNewer(rs: seq<Read>) {
    exists i :: 0 <= i < |rs| && Newer(rs[i])
  }

  lemma NewerInConcat(a: seq<Read>, b: seq<Read>)
    ensures AnyNewer(a + b) ==> AnyNewer(a) || AnyNewer(b)
  {
    if AnyNewer(a + b) {
      var i :| 0 <= i < |a + b| && Newer((a + b)[i]);
      if i < |a| {
        assert Newer(a[i]);
      } else {
        assert Newer(b[i - |a|]);
      }
    }
  }

  /** Greatest reserved version observed. */
  function MaxVersion(rs: seq<Read>): int
    requires AnyNewer(rs)
  {
    if !AnyNewer(rs[1..]) then
      assert Newer(rs[0]) by {
        assert rs == [rs[0]] + rs[1..];
        NewerInConcat([rs[0]], rs[1..]);
      }
      NewerVersion(rs[0].data).value
    else
      var rest := MaxVersion(rs[1..]);
      if Newer(rs[0]) && NewerVersion(rs[0].data).value > rest then NewerVersion(rs[0].data).value else rest
  }

  lemma {:induction false} MaxVersionIsMax(rs: seq<Read>)
    requires AnyNewer(rs)
    ensures exists i :: 0 <= i < |rs| && Newer(rs[i]) && NewerVersion(rs[i].data).value == MaxVersion(rs)
    ensures forall i :: 0 <= i < |rs| && Newer(rs[i]) ==> NewerVersion(rs[i].data).value <= MaxVersion(rs)
  {
    var rest := rs[1..];
    assert forall i :: 1 <= i < |rs| ==> rs[i] == rest[i - 1];
    if AnyNewer(rest) {
      MaxVersionIsMax(rest);
      var j :| 0 <= j < |rest| && Newer(rest[j]) && NewerVersion(rest[j].data).value == MaxVersion(rest);
      assert rs[j + 1] == rest[j];
      if Newer(rs[0]) && NewerVersion(rs[0].data).value > MaxVersion(rest) {
        assert Newer(rs[0]) && NewerVersion(rs[0].data).value == MaxVersion(rs);
      }
    } else {
      assert rs == [rs[0]] + rest;
      NewerInConcat([rs[0]], rest);
      assert forall i :: 1 <= i < |rs| ==> !Newer(rs[i]);
    }
  }

  // ---- the classification ---------------------------------------------

  function FirstReads(w: World): seq<Read> {
    (if w.canonicalExists then [w.canonicalFirst] else []) + w.noted
  }

  function ValidatorReads(cs: seq<Candidate>): seq<Read> {
    seq(|cs|, i requires 0 <= i < |cs| => cs[i].validated)
  }

  /** Final reads of the copies whose validator accepted them, in listing order. */
  function FinalReads(c: Codec, cs: seq<Candidate>): seq<Read> {
    if cs == [] then []
    else
      var init := FinalReads(c, cs[..|cs| - 1]);
      if Validates(c, cs[|cs| - 1].validated) then init + [cs[|cs| - 1].final] else init
  }

  function LoadAll(c: Codec, rs: seq<Read>): seq<Manifest> {
    if rs == [] then []
    else
      var init := LoadAll(c, rs[..|rs| - 1]);
      if Loads(c, rs[|rs| - 1]) then init + [c.load(rs[|rs| - 1].data).value] else init
  }

  function FirstNewer(rs: seq<Read>): nat
    requires AnyNewer(rs)
    ensures FirstNewer(rs) < |rs| && Newer(rs[FirstNewer(rs)])
    ensures forall i :: 0 <= i < FirstNewer(rs) ==> !Newer(rs[i])
  {
    if Newer(rs[0]) then 0
    else
      assert AnyNewer(rs[1..]) by {
        var i :| 0 <= i < |rs| && Newer(rs[i]);
        assert rs[1..][i - 1] == rs[i];
      }
      assert forall i :: 1 <= i < |rs| ==> rs[i] == rs[1..][i - 1];
      1 + FirstNewer(rs[1..])
  }

  predicate VanishedFirst(w: World) {
    w.canonicalExists && w.canonicalFirst == NotFound
  }

  /** The second canonical read happens only when the first did not see it gone. */
  function SecondReads(w: World): seq<Read> {
    if w.canonicalExists && !VanishedFirst(w) then [w.canonicalSecond] else []
  }

  predicate CanonicalVanished(w: World) {
    VanishedFirst(w) || NotFound in SecondReads(w)
  }

  /** Manifests the fetch loaded: the canonical first, then the copies. */
  function LoadedCopies(c: Codec, w: World): seq<Manifest> {
    LoadAll(c, SecondReads(w)) + LoadAll(c, FinalReads(c, w.candidates))
  }

  predicate Unreadable(c: Codec, r: Read) {
    r != NotFound && !Loads(c, r)
  }

  predicate AnyUnreadable(c: Codec, rs: seq<Read>) {
    exists i :: 0 <= i < |rs| && Unreadable(c, rs[i])
  }

  function Blocked(version: int): Fetch {
    Fetch(Corrupt, None, Some(version), false, false)
  }

  /** The verdict when nothing newer was observed. */
  function Settle(c: Codec, w: World): Fetch {
    var final := FinalReads(c, w.candidates);
    var manifests := LoadedCopies(c, w);
    var vanished := CanonicalVanished(w);
    if manifests == [] then
      if (w.canonicalExists && !vanished) || AnyUnreadable(c, final) then Plain(Corrupt)
      else Plain(Missing).(vanished := vanished || NotFound in final)
    else
      Fetch(Ok, Some(if |manifests| == 1 then manifests[0] else Merge(c.hash, manifests)), None,
            LoadAll(c, SecondReads(w)) == [], vanished)
  }

  function Classify(c: Codec, w: World): Fetch {
    var first := FirstReads(w);
    var validated := first + ValidatorReads(w.candidates);
    var final := FinalReads(c, w.candidates);
    if AnyNewer(first) then Blocked(MaxVersion(first))
    else if AnyNewer(validated) then Blocked(MaxVersion(validated))
    else if AnyNewer(SecondReads(w)) then Blocked(NewerVersion(w.canonicalSecond.data).value)
    else if AnyNewer(final) then Blocked(NewerVersion(final[FirstNewer(final)].data).value)
    else Settle(c, w)
  }

  /** The reads a fetch performs, in order; it stops at the phase that saw a newer format. */
  function Observed(c: Codec, w: World): seq<Read> {
    var first := FirstReads(w);
    var validated := first + ValidatorReads(w.candidates);
    var final := FinalReads(c, w.candidates);
    if AnyNewer(first) then first
    else if AnyNewer(validated) then validated
    else if AnyNewer(SecondReads(w)) then validated + SecondReads(w)
    else if AnyNewer(final) then validated + SecondReads(w) + final[..FirstNewer(final) + 1]
    else validated + SecondReads(w) + final
  }

  /** The fetch as the program runs it. `observed` lists its reads. */
  method FetchRemoteManifest(c: Codec, w: World) returns (f: Fetch, observed: seq<Read>)
    ensures f == Classify(c, w)
    ensures observed == Observed(c, w)
  {
    hide Newer, Loads, FinalReads, LoadAll, ValidatorReads, AnyUnreadable, MaxVersion, SecondReads, AnyNewer, Merge;
    observed := [];
    var canonicalVanished := false;
    if w.canonicalExists {
      observed := observed + [w.canonicalFirst];
      if w.canonicalFirst == NotFound {
        canonicalVanished := true;
      }
    }
    observed := observed + w.noted;
    assert observed == FirstReads(w);
    if AnyNewer(observed) {
      return Blocked(MaxVersion(observed)), observed;
    }
    var validated, conflictCopies := ListConflictCopies(c, w.candidates);
    observed := observed + validated;
    if AnyNewer(observed) {
      return Blocked(MaxVersion(observed)), observed;
    }
    var second, newerSecond, manifests;
    second, newerSecond, manifests, canonicalVanished := ReadCanonicalAgain(c, w, canonicalVanished);
    observed := observed + second;
    if newerSecond.Some? {
      return Blocked(newerSecond.value), observed;
    }
    var newer, read, loaded, unreadable, conflictVanished := ReadConflictCopies(c, conflictCopies);
    observed := observed + read;
    if newer.Some? {
      return Blocked(newer.value), observed;
    }
    var conflictCopiesOnly := manifests == [];
    var anySource := (w.canonicalExists && !canonicalVanished) || unreadable;
    manifests := manifests + loaded;
    if manifests == [] {
      f := if anySource then Plain(Corrupt)
           else Plain(Missing).(vanished := canonicalVanished || conflictVanished);
      return;
    }
    var merged := manifests[0];
    if |manifests| > 1 {
      merged := MergeManifests(c.hash, manifests);
    }
    f := Fetch(Ok, Some(merged), None, conflictCopiesOnly, canonicalVanished);
  }

  /** The second read of the canonical, unless the first saw it gone. */
  method ReadCanonicalAgain(c: Codec, w: World, alreadyGone: bool)
    returns (read: seq<Read>, newer: Option<int>, manifests: seq<Manifest>, vanished: bool)
    requires alreadyGone == VanishedFirst(w)
    ensures read == SecondReads(w)
    ensures newer.Some? <==> AnyNewer(SecondReads(w))
    ensures newer.Some? ==> newer == NewerVersion(w.canonicalSecond.data)
    ensures newer.None? ==> manifests == LoadAll(c, SecondReads(w)) && vanished == CanonicalVanished(w)
  {
    read, newer, manifests, vanished := [], None, [], alreadyGone;
    if w.canonicalExists && !alreadyGone {
      read := [w.canonicalSecond];
      assert read == SecondReads(w) && read[0] == w.canonicalSecond && read[..0] == [];
      if Newer(w.canonicalSecond) {
        newer := NewerVersion(w.canonicalSecond.data);
      } else if Loads(c, w.canonicalSecond) {
        manifests := [c.load(w.canonicalSecond.data).value];
      } else if w.canonicalSecond == NotFound {
        vanished := true;
      }
    }
  }

  /** The second listing: every candidate is read by its validator, and the accepted ones
      are kept in listing order. */
  method ListConflictCopies(c: Codec, candidates: seq<Candidate>) returns (read: seq<Read>, copies: seq<Read>)
    ensures read == ValidatorReads(candidates)
    ensures copies == FinalReads(c, candidates)
  {
    hide Validates;
    read, copies := [], [];
    for i := 0 to |candidates|
      invariant read == ValidatorReads(candidates)[..i]
      invariant copies == FinalReads(c, candidates[..i])
    {
      read := read + [candidates[i].validated];
      assert candidates[..i + 1][..i] == candidates[..i];
      if Validates(c, candidates[i].validated) {
        copies := copies + [candidates[i].final];
      }
    }
    assert candidates[..|candidates|] == candidates;
  }

  /** Final reads of the validated copies; stops at the first newer format. */
  method ReadConflictCopies(c: Codec, copies: seq<Read>)
    returns (newer: Option<int>, read: seq<Read>, loaded: seq<Manifest>, unreadable: bool, vanished: bool)
    ensures newer.Some? <==> AnyNewer(copies)
    ensures newer.Some? ==>
      newer == NewerVersion(copies[FirstNewer(copies)].data) && read == copies[..FirstNewer(copies) + 1]
    ensures newer.None? ==>
      && read == copies && loaded == LoadAll(c, copies)
      && (unreadable <==> AnyUnreadable(c, copies)) && (vanished <==> NotFound in copies)
  {
    newer, loaded, unreadable, vanished := None, [], false, false;
    for i := 0 to |copies|
      invariant forall j :: 0 <= j < i ==> !Newer(copies[j])
      invariant loaded == LoadAll(c, copies[..i])
      invariant unreadable <==> AnyUnreadable(c, copies[..i])
      invariant vanished <==> NotFound in copies[..i]
    {
      var r := copies[i];
      assert copies[..i + 1][..i] == copies[..i];
      if Newer(r) {
        StopsAtFirstNewer(copies, i);
        return NewerVersion(r.data), copies[..i + 1], loaded, unreadable, vanished;
      }
      UnreadableSoFar(c, copies, i);
      if Loads(c, r) {
        loaded := loaded + [c.load(r.data).value];
      } else if r == NotFound {
        vanished := true;
      } else {
        unreadable := true;
      }
    }
    assert copies[..|copies|] == copies;
    read := copies;
  }

  lemma StopsAtFirstNewer(rs: seq<Read>, i: nat)
    requires i < |rs| && Newer(rs[i])
    requires forall j :: 0 <= j < i ==> !Newer(rs[j])
    ensures AnyNewer(rs) && FirstNewer(rs) == i
  {
  }

  lemma UnreadableSoFar(c: Codec, rs: seq<Read>, i: nat)
    requires i < |rs|
    ensures AnyUnreadable(c, rs[..i + 1]) <==> AnyUnreadable(c, rs[..i]) || Unreadable(c, rs[i])
  {
    if AnyUnreadable(c, rs[..i]) {
      var j :| 0 <= j < i && Unreadable(c, rs[..i][j]);
      assert rs[..i + 1][j] == rs[..i][j];
    }
    if Unreadable(c, rs[i]) {
      assert rs[..i + 1][i] == rs[i];
    }
    if AnyUnreadable(c, rs[..i + 1]) {
      var j :| 0 <= j < i + 1 && Unreadable(c, rs[..i + 1][j]);
      assert j < i ==> rs[..i][j] == rs[..i + 1][j];
    }
  }

  // ---- what the classification means -----------------------------------

  /** A reserved-version byte in any observed read blocks the fetch, and nothing else
      sets `newerVersion`, which names a version that was observed. */
  lemma NewerBytesBlock(c: Codec, w: World)
    ensures AnyNewer(Observed(c, w)) <==> Classify(c, w).newerVersion.Some?
    ensures AnyNewer(Observed(c, w)) ==> Classify(c, w).status == Corrupt && Classify(c, w).manifest.None?
    ensures Classify(c, w).newerVersion.Some? ==>
      exists i :: 0 <= i < |Observed(c, w)| && Newer(Observed(c, w)[i])
                  && NewerVersion(Observed(c, w)[i].data) == Classify(c, w).newerVersion
  {
    hide Settle, FinalReads;
    SettleMissing(c, w);
    var first := FirstReads(w);
    var validated := first + ValidatorReads(w.candidates);
    var second := SecondReads(w);
    var final := FinalReads(c, w.candidates);
    var all := Observed(c, w);
    if AnyNewer(first) {
      MaxVersionIsMax(first);
    } else if AnyNewer(validated) {
      MaxVersionIsMax(validated);
    } else if AnyNewer(second) {
      assert Newer(second[0]);
      assert all[|validated|] == second[0];
    } else if AnyNewer(final) {
      var k := FirstNewer(final);
      assert all[|validated| + |second| + k] == final[k];
    } else {
      NewerInConcat(validated, second);
      NewerInConcat(validated + second, final);
    }
  }

  lemma {:induction false} LoadAllEmpty(c: Codec, rs: seq<Read>)
    ensures LoadAll(c, rs) == [] <==> forall i :: 0 <= i < |rs| ==> !Loads(c, rs[i])
    decreases |rs|
  {
    if rs != [] {
      var init := rs[..|rs| - 1];
      LoadAllEmpty(c, init);
      assert forall i :: 0 <= i < |init| ==> init[i] == rs[i];
    }
  }

  lemma {:induction false} FinalReadsEmpty(c: Codec, cs: seq<Candidate>)
    ensures FinalReads(c, cs) == [] <==> forall i :: 0 <= i < |cs| ==> !Validates(c, cs[i].validated)
    decreases |cs|
  {
    if cs != [] {
      var init := cs[..|cs| - 1];
      FinalReadsEmpty(c, init);
      assert forall i :: 0 <= i < |init| ==> init[i] == cs[i];
    }
  }

  predicate AllVanished(rs: seq<Read>) {
    forall i :: 0 <= i < |rs| ==> rs[i] == NotFound
  }

  lemma VanishedMeaning(c: Codec, rs: seq<Read>)
    ensures AllVanished(rs) <==> LoadAll(c, rs) == [] && !AnyUnreadable(c, rs)
  {
    LoadAllEmpty(c, rs);
    if !AllVanished(rs) {
      var i :| 0 <= i < |rs| && rs[i] != NotFound;
      assert Loads(c, rs[i]) || Unreadable(c, rs[i]);
    }
  }

  lemma SettleMissing(c: Codec, w: World)
    ensures Settle(c, w).newerVersion.None?
    ensures Settle(c, w).status == Missing <==>
      (!w.canonicalExists || CanonicalVanished(w)) && AllVanished(FinalReads(c, w.candidates))
  {
    hide AllVanished, AnyUnreadable, Merge;
    VanishedMeaning(c, FinalReads(c, w.candidates));
    if !w.canonicalExists || CanonicalVanished(w) {
      GoneLoadsNothing(c, w);
      assert LoadedCopies(c, w) == LoadAll(c, FinalReads(c, w.candidates));
    }
  }

  lemma GoneLoadsNothing(c: Codec, w: World)
    requires !w.canonicalExists || CanonicalVanished(w)
    ensures LoadAll(c, SecondReads(w)) == []
  {
    LoadAllEmpty(c, SecondReads(w));
  }

  /** Missing, exactly: no canonical was there or it vanished, and every validated copy
      vanished before its final read. */
  lemma MissingExactly(c: Codec, w: World)
    ensures Classify(c, w).status == Missing <==>
      && !AnyNewer(Observed(c, w))
      && (!w.canonicalExists || CanonicalVanished(w))
      && AllVanished(FinalReads(c, w.candidates))
  {
    hide Observed, Settle, AllVanished, CanonicalVanished;
    NewerBytesBlock(c, w);
    SettleMissing(c, w);
  }

  /** A canonical that was seen and not seen to vanish is never reported missing, and
      neither is a validated copy that later reads badly. */
  lemma SeenUnreadableIsNotMissing(c: Codec, w: World)
    requires (w.canonicalExists && !CanonicalVanished(w)) || AnyUnreadable(c, FinalReads(c, w.candidates))
    ensures Classify(c, w).status != Missing
  {
    MissingExactly(c, w);
  }

  /** The guarantee stops there: a conflict copy that cannot be read when it is validated
      is ignored, and the fetch reports a plain first push. */
  lemma UnreadableAtValidationIsMissing(c: Codec)
    ensures
      var w := World(false, Failed, [Failed], [Candidate(Failed, Failed)], Failed);
      Failed in Observed(c, w) && Classify(c, w) == Plain(Missing)
  {
    var w := World(false, Failed, [Failed], [Candidate(Failed, Failed)], Failed);
    assert w.candidates[..0] == [];
    assert FinalReads(c, w.candidates) == [];
    assert FirstReads(w) == [Failed] && ValidatorReads(w.candidates) == [Failed];
    assert Observed(c, w)[0] == Failed;
  }

  lemma {:induction false} MergeOne(hash: ContentHash, m: Manifest)
    ensures Merge(hash, [m]) == m
  {
    assert Sorted(hash, [m][1..]) == [];
    assert [m][..0] == [];
    assert MergedSources([m]).Keys == m.sources.Keys;
    forall n | n in m.sources
      ensures MergedSources([m])[n] == m.sources[n]
    {
      assert map[] + m.sources[n].files == m.sources[n].files;
    }
    assert MergedSources([m]) == m.sources;
    assert MergedTombstones([m]) == m.tombstones;
  }

  /** Ok, exactly: something loaded and nothing newer was observed. The manifest is the
      merge of what loaded, whatever their number. */
  lemma OkMeaning(c: Codec, w: World)
    ensures Classify(c, w).status == Ok <==> !AnyNewer(Observed(c, w)) && LoadedCopies(c, w) != []
    ensures Classify(c, w).status == Ok ==>
      && LoadedCopies(c, w) != []
      && Classify(c, w).manifest == Some(Merge(c.hash, LoadedCopies(c, w)))
      && (Classify(c, w).conflictCopiesOnly <==> !(SecondReads(w) != [] && Loads(c, w.canonicalSecond)))
  {
    NewerBytesBlock(c, w);
    var loaded := LoadedCopies(c, w);
    if |loaded| == 1 {
      assert loaded == [loaded[0]];
      MergeOne(c.hash, loaded[0]);
    }
    LoadAllEmpty(c, SecondReads(w));
  }

  /** Two fetches that load the same copies, in whatever order and number, agree. */
  lemma FetchIgnoresListing(c: Codec, v: World, w: World)
    requires Classify(c, v).status == Ok && Classify(c, w).status == Ok
    requires Members(LoadedCopies(c, v)) == Members(LoadedCopies(c, w))
    requires Distinguishes(c.hash, Members(LoadedCopies(c, v)))
    ensures Classify(c, v).manifest == Classify(c, w).manifest
  {
    OkMeaning(c, v);
    OkMeaning(c, w);
    MergeIgnoresListing(c.hash, LoadedCopies(c, v), LoadedCopies(c, w));
  }

  // ---- recovery of a prior state ----------------------------------------

  datatype Recovered = Abort | NoPrior | Prior(manifest: Manifest)

  function Synthetic(device: string, tombstones: map<string, Tombstone>): Manifest {
    Manifest(device, "", "", map[], tombstones)
  }

  /** `sidecar` is the device-matched local record, if it could be read. */
  function RecoverPrior(
    hash: ContentHash, f: Fetch, device: string, sidecar: Option<Manifest>, peers: map<string, Tombstone>): Recovered
  {
    if f.status == Ok && f.manifest.Some? then
      if !f.conflictCopiesOnly || sidecar.None? then Prior(f.manifest.value)
      else Prior(Merge(hash, [f.manifest.value, sidecar.value]))
    else if f.status == Missing && !f.vanished then NoPrior
    else if sidecar.Some? then Prior(sidecar.value)
    else if peers != map[] then Prior(Synthetic(device, peers))
    else Abort
  }

  /** A push starts from no prior only if no canonical was seen, no copy validated and no
      newer format was observed. */
  lemma NoPriorExactly(c: Codec, w: World, device: string, sidecar: Option<Manifest>, peers: map<string, Tombstone>)
    ensures RecoverPrior(c.hash, Classify(c, w), device, sidecar, peers) == NoPrior <==>
      && !AnyNewer(Observed(c, w))
      && !w.canonicalExists
      && forall i :: 0 <= i < |w.candidates| ==> !Validates(c, w.candidates[i].validated)
  {
    MissingExactly(c, w);
    OkMeaning(c, w);
    FinalReadsEmpty(c, w.candidates);
    var final := FinalReads(c, w.candidates);
    if Classify(c, w).status == Missing && final != [] {
      assert final[0] == NotFound;
    }
  }

  /** Whenever recovery is needed and a sidecar is readable, none of its deletions is
      lost: each keeps its key with the same or a later deletion time. */
  lemma RecoveryKeepsDeletions(
    hash: ContentHash, f: Fetch, device: string, sidecar: Manifest, peers: map<string, Tombstone>, k: string)
    requires f.status == Ok ==> f.manifest.Some?
    requires f.status == Ok ==> f.conflictCopiesOnly
    requires f.status == Missing ==> f.vanished
    requires k in sidecar.tombstones
    ensures
      var r := RecoverPrior(hash, f, device, Some(sidecar), peers);
      && r.Prior? && k in r.manifest.tombstones
      && !TextLess(r.manifest.tombstones[k].deletedAt, sidecar.tombstones[k].deletedAt)
  {
    if f.status == Ok {
      var copies := [f.manifest.value, sidecar];
      assert sidecar == copies[1] && sidecar in copies;
      MergeMeaning(hash, copies, "", "", k);
      var m :| WinsTombstone(hash, Members(copies), m, k)
               && Merge(hash, copies).tombstones[k] == m.tombstones[k];
      assert sidecar in Members(copies);
    } else {
      LessIrreflexive(Codes(sidecar.tombstones[k].deletedAt));
    }
  }

  /** A manifest held only by conflict copies keeps everything it says beside what the
      sidecar adds: each of its paths stays published, each path of the result is one of
      theirs, and each of its tombstones stays with the same or a later time. */
  lemma RecoveryKeepsCopies(
    hash: ContentHash, f: Fetch, device: string, sidecar: Option<Manifest>, peers: map<string, Tombstone>,
    n: string, p: string, k: string)
    requires f.status == Ok && f.manifest.Some?
    ensures
      var r := RecoverPrior(hash, f, device, sidecar, peers);
      && r.Prior?
      && (!f.conflictCopiesOnly || sidecar.None? ==> r.manifest == f.manifest.value)
      && (Lists(r.manifest.sources, n, p) ==>
            Lists(f.manifest.value.sources, n, p) || (sidecar.Some? && Lists(sidecar.value.sources, n, p)))
      && (Lists(f.manifest.value.sources, n, p) ==> Lists(r.manifest.sources, n, p))
      && (f.conflictCopiesOnly && sidecar.Some? && Lists(sidecar.value.sources, n, p) ==>
            Lists(r.manifest.sources, n, p))
      && (k in f.manifest.value.tombstones ==>
            k in r.manifest.tombstones
            && !TextLess(r.manifest.tombstones[k].deletedAt, f.manifest.value.tombstones[k].deletedAt))
  {
    hide TextLess, Before;
    if k in f.manifest.value.tombstones {
      TextLessIsOrder(f.manifest.value.tombstones[k].deletedAt, "", "");
    }
    if f.conflictCopiesOnly && sidecar.Some? {
      var copies := [f.manifest.value, sidecar.value];
      assert copies[0] in copies && copies[1] in copies;
      assert copies[0] in Members(copies);
      MergeMeaning(hash, copies, n, p, k);
    }
  }

  /** The canonical was read whole: seen, not gone at the first read, loaded at the second. */
  predicate LoadsCanonical(c: Codec, w: World) {
    w.canonicalExists && w.canonicalFirst != NotFound && Loads(c, w.canonicalSecond)
  }

  predicate LoadsCandidate(c: Codec, x: Candidate) {
    Validates(c, x.validated) && Loads(c, x.final)
  }

  lemma {:induction false} CandidateLoaded(c: Codec, cs: seq<Candidate>)
    ensures LoadAll(c, FinalReads(c, cs)) != [] <==> exists i :: 0 <= i < |cs| && LoadsCandidate(c, cs[i])
    decreases |cs|
  {
    hide Validates, Loads;
    if cs != [] {
      var init := cs[..|cs| - 1];
      var last := cs[|cs| - 1];
      CandidateLoaded(c, init);
      assert cs == init + [last];
      var before := FinalReads(c, init);
      if Validates(c, last.validated) {
        assert (before + [last.final])[..|before|] == before;
      }
      if i :| 0 <= i < |init| && LoadsCandidate(c, init[i]) {
        assert LoadsCandidate(c, cs[i]);
      }
      if i :| 0 <= i < |cs| && LoadsCandidate(c, cs[i]) && i < |init| {
        assert LoadsCandidate(c, init[i]);
      }
    }
  }

  lemma CopiesLoaded(c: Codec, w: World)
    ensures LoadedCopies(c, w) != [] <==>
      LoadsCanonical(c, w) || exists i :: 0 <= i < |w.candidates| && LoadsCandidate(c, w.candidates[i])
    ensures LoadAll(c, SecondReads(w)) != [] <==> LoadsCanonical(c, w)
  {
    hide Loads, LoadsCandidate, FinalReads;
    CandidateLoaded(c, w.candidates);
    LoadAllEmpty(c, SecondReads(w));
  }

  /** The prior by what was read. Copies that loaded are merged, with the sidecar if the
      canonical was not among them and there is a sidecar. Nothing seen at all - no
      canonical, no validated copy, no newer format - is a first push. Otherwise the sidecar
      as it is; else the peers' tombstones over no files; else the push is refused. */
  lemma RecoveryByReads(c: Codec, w: World, device: string, sidecar: Option<Manifest>, peers: map<string, Tombstone>)
    ensures
      var r := RecoverPrior(c.hash, Classify(c, w), device, sidecar, peers);
      var copies := LoadedCopies(c, w);
      var anyCandidate := exists i :: 0 <= i < |w.candidates| && LoadsCandidate(c, w.candidates[i]);
      var anyValidated := exists i :: 0 <= i < |w.candidates| && Validates(c, w.candidates[i].validated);
      if !AnyNewer(Observed(c, w)) && (LoadsCanonical(c, w) || anyCandidate) then
        && copies != []
        && r == Prior(if LoadsCanonical(c, w) || sidecar.None? then Merge(c.hash, copies)
                      else Merge(c.hash, [Merge(c.hash, copies), sidecar.value]))
      else if !AnyNewer(Observed(c, w)) && !w.canonicalExists && !anyValidated then r == NoPrior
      else if sidecar.Some? then r == Prior(sidecar.value)
      else if peers != map[] then r == Prior(Synthetic(device, peers))
      else r == Abort
  {
    hide Classify, Observed, LoadedCopies, FinalReads, Loads, Validates, LoadsCandidate, LoadsCanonical, Merge,
      AnyNewer;
    CopiesLoaded(c, w);
    OkMeaning(c, w);
    NoPriorExactly(c, w, device, sidecar, peers);
    CopiesOnlyExactly(c, w);
  }

  lemma CopiesOnlyExactly(c: Codec, w: World)
    ensures Classify(c, w).status == Ok ==> (Classify(c, w).conflictCopiesOnly <==> !LoadsCanonical(c, w))
  {
    hide Classify, Loads;
    OkMeaning(c, w);
  }
}
