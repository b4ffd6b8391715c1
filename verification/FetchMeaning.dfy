/** What a fetch reports, in terms of its reads alone: the bytes each returned, whether it
    found nothing or failed, and in which phase it came. */
module FetchMeaning {
  import opened Manifests
  import opened MergeCopies
  import opened RemoteFetch

  // ---- single reads -----------------------------------------------------------

  /** Bytes of a format that is reserved for later versions. */
  ghost predicate Reserved(r: Read) {
    r.Got? && r.data != [] && 3 <= r.data[0] <= 15
  }

  /** A conflict copy the second listing takes: bytes of the current format that parse. */
  ghost predicate Taken(c: Codec, x: Candidate) {
    x.validated.Got? && x.validated.data != [] && x.validated.data[0] == 2 && c.parses(x.validated.data)
  }

  ghost predicate Loadable(c: Codec, r: Read) {
    r.Got? && !Reserved(r) && c.load(r.data).Some?
  }

  lemma ReadsExactly(c: Codec, r: Read, x: Candidate)
    ensures Reserved(r) <==> Newer(r)
    ensures Reserved(r) ==> NewerVersion(r.data) == Some(r.data[0])
    ensures Taken(c, x) <==> Validates(c, x.validated)
    ensures Loadable(c, r) <==> Loads(c, r)
  {
  }

  // ---- the phases ----------------------------------------------------------------

  /** The canonical manifest and the listed copies, as first read. */
  ghost predicate ReservedFirst(w: World) {
    || (w.canonicalExists && Reserved(w.canonicalFirst))
    || exists i | 0 <= i < |w.noted| :: Reserved(w.noted[i])
  }

  ghost predicate ReservedValidated(w: World) {
    exists i | 0 <= i < |w.candidates| :: Reserved(w.candidates[i].validated)
  }

  /** The canonical manifest is read again unless it was gone at once. */
  ghost predicate ReadAgain(w: World) {
    w.canonicalExists && w.canonicalFirst != NotFound
  }

  ghost predicate ReservedFinal(c: Codec, w: World) {
    exists i | 0 <= i < |w.candidates| :: Taken(c, w.candidates[i]) && Reserved(w.candidates[i].final)
  }

  /** Some read returned bytes of a reserved format. */
  ghost predicate SawReserved(c: Codec, w: World) {
    || ReservedFirst(w) || ReservedValidated(w) || (ReadAgain(w) && Reserved(w.canonicalSecond))
    || ReservedFinal(c, w)
  }

  ghost predicate CanonicalLoads(c: Codec, w: World) {
    ReadAgain(w) && Loadable(c, w.canonicalSecond)
  }

  ghost predicate CopyLoads(c: Codec, w: World) {
    exists i | 0 <= i < |w.candidates| :: Taken(c, w.candidates[i]) && Loadable(c, w.candidates[i].final)
  }

  /** The canonical manifest was there and then was not. */
  ghost predicate CanonicalGone(w: World) {
    w.canonicalExists && (w.canonicalFirst == NotFound || w.canonicalSecond == NotFound)
  }

  ghost predicate CopiesGone(c: Codec, w: World) {
    forall i | 0 <= i < |w.candidates| && Taken(c, w.candidates[i]) :: w.candidates[i].final == NotFound
  }

  ghost predicate CopyGone(c: Codec, w: World) {
    exists i | 0 <= i < |w.candidates| :: Taken(c, w.candidates[i]) && w.candidates[i].final == NotFound
  }

  // ---- final reads ------------------------------------------------------------------

  lemma {:induction false} FinalReadsAre(c: Codec, cs: seq<Candidate>, r: Read)
    ensures r in FinalReads(c, cs) <==> exists i | 0 <= i < |cs| :: Taken(c, cs[i]) && cs[i].final == r
    decreases |cs|
  {
    hide Validates, Taken;
    if cs != [] {
      var init, last := cs[..|cs| - 1], cs[|cs| - 1];
      FinalReadsAre(c, init, r);
      ReadsExactly(c, r, last);
      assert forall i | 0 <= i < |init| :: init[i] == cs[i];
    }
  }

  lemma {:induction false} LoadedAre(c: Codec, rs: seq<Read>, m: Manifest)
    ensures m in LoadAll(c, rs) <==> exists r | r in rs :: Loadable(c, r) && c.load(r.data) == Some(m)
    decreases |rs|
  {
    hide Loads, Loadable;
    if rs != [] {
      var init, last := rs[..|rs| - 1], rs[|rs| - 1];
      LoadedAre(c, init, m);
      ReadsExactly(c, last, Candidate(last, last));
      assert rs == init + [last];
      if Loadable(c, last) {
        LoadableLoads(c, last);
      }
    }
  }

  lemma LoadableLoads(c: Codec, r: Read)
    requires Loadable(c, r)
    ensures r.Got? && c.load(r.data).Some?
  {
  }

  /** The manifests a fetch merges are exactly what loading made of the second canonical read
      and of the final reads of the copies taken. */
  lemma LoadedExactly(c: Codec, w: World, m: Manifest)
    ensures m in LoadedCopies(c, w) <==>
      || (CanonicalLoads(c, w) && c.load(w.canonicalSecond.data) == Some(m))
      || exists i | 0 <= i < |w.candidates| ::
           Taken(c, w.candidates[i]) && Loadable(c, w.candidates[i].final)
           && c.load(w.candidates[i].final.data) == Some(m)
  {
    hide Taken, Reserved, LoadAll, FinalReads;
    var second, final := SecondReads(w), FinalReads(c, w.candidates);
    LoadedAre(c, second, m);
    LoadedAre(c, final, m);
    forall r
      ensures r in final <==>
        exists i | 0 <= i < |w.candidates| :: Taken(c, w.candidates[i]) && w.candidates[i].final == r
    {
      FinalReadsAre(c, w.candidates, r);
    }
    assert forall r :: r in second <==> ReadAgain(w) && r == w.canonicalSecond;
    if m in LoadAll(c, final) {
      var r :| r in final && Loadable(c, r) && c.load(r.data) == Some(m);
      var i :| 0 <= i < |w.candidates| && Taken(c, w.candidates[i]) && w.candidates[i].final == r;
    }
    if i :| 0 <= i < |w.candidates| && Taken(c, w.candidates[i]) && Loadable(c, w.candidates[i].final)
            && c.load(w.candidates[i].final.data) == Some(m) {
      assert w.candidates[i].final in final;
    }
  }

  // ---- the report --------------------------------------------------------------------

  lemma ReservedIsNewer(c: Codec, w: World)
    ensures AnyNewer(FirstReads(w)) <==> ReservedFirst(w)
    ensures AnyNewer(FirstReads(w) + ValidatorReads(w.candidates)) <==> ReservedFirst(w) || ReservedValidated(w)
    ensures AnyNewer(SecondReads(w)) <==> ReadAgain(w) && Reserved(w.canonicalSecond)
    ensures AnyNewer(FinalReads(c, w.candidates)) <==> ReservedFinal(c, w)
  {
    hide Newer, Reserved, Taken, FinalReads, FirstReads, ReservedFirst;
    var validated, final := ValidatorReads(w.candidates), FinalReads(c, w.candidates);
    NewerIsReserved(FirstReads(w));
    NewerIsReserved(validated);
    NewerIsReserved(SecondReads(w));
    NewerIsReserved(final);
    FirstIsNewer(w);
    JoinedNewer(FirstReads(w), validated);
    assert ReadAgain(w) ==> SecondReads(w) == [w.canonicalSecond] && SecondReads(w)[0] == w.canonicalSecond;
    if i :| 0 <= i < |w.candidates| && Reserved(w.candidates[i].validated) {
      assert validated[i] == w.candidates[i].validated;
    }
    forall r
      ensures r in final <==>
        exists i | 0 <= i < |w.candidates| :: Taken(c, w.candidates[i]) && w.candidates[i].final == r
    {
      FinalReadsAre(c, w.candidates, r);
    }
    if i :| 0 <= i < |final| && Reserved(final[i]) {
      assert final[i] in final;
    }
    if i :| 0 <= i < |w.candidates| && Taken(c, w.candidates[i]) && Reserved(w.candidates[i].final) {
      assert w.candidates[i].final in final;
    }
  }

  lemma NewerIsReserved(rs: seq<Read>)
    ensures AnyNewer(rs) <==> exists i | 0 <= i < |rs| :: Reserved(rs[i])
  {
    if i :| 0 <= i < |rs| && Reserved(rs[i]) {
      assert Newer(rs[i]);
    }
  }

  lemma FirstIsNewer(w: World)
    ensures AnyNewer(FirstReads(w)) <==> ReservedFirst(w)
  {
    hide Newer, Reserved;
    var one := if w.canonicalExists then [w.canonicalFirst] else [];
    NewerIsReserved(one);
    NewerIsReserved(w.noted);
    JoinedNewer(one, w.noted);
    assert w.canonicalExists ==> one[0] == w.canonicalFirst;
  }

  lemma JoinedNewer(a: seq<Read>, b: seq<Read>)
    ensures AnyNewer(a + b) <==> AnyNewer(a) || AnyNewer(b)
  {
    NewerInConcat(a, b);
    if AnyNewer(a) {
      var i :| 0 <= i < |a| && Newer(a[i]);
      assert (a + b)[i] == a[i];
    }
    if AnyNewer(b) {
      var i :| 0 <= i < |b| && Newer(b[i]);
      assert (a + b)[|a| + i] == b[i];
    }
  }

  lemma SawIsObserved(c: Codec, w: World)
    ensures AnyNewer(Observed(c, w)) <==> SawReserved(c, w)
  {
    hide Newer, AnyNewer, FinalReads, FirstReads, ReservedFirst, ReservedValidated, ReservedFinal;
    ReservedIsNewer(c, w);
    NewerBytesBlock(c, w);
    var validated := FirstReads(w) + ValidatorReads(w.candidates);
    var final := FinalReads(c, w.candidates);
    JoinedNewer(FirstReads(w), ValidatorReads(w.candidates));
  }

  /** The whole report by the reads. A reserved format seen anywhere is corrupt. Otherwise:
      ok exactly when the canonical manifest or a taken copy loads; missing exactly when no
      canonical was there or it went away, and every taken copy did; else corrupt. */
  lemma ReportsExactly(c: Codec, w: World)
    ensures
      var f := Classify(c, w);
      && (f.newerVersion.Some? <==> SawReserved(c, w))
      && (f.status == Ok <==> !SawReserved(c, w) && (CanonicalLoads(c, w) || CopyLoads(c, w)))
      && (f.status == Missing <==>
            && !SawReserved(c, w) && (w.canonicalExists ==> CanonicalGone(w)) && CopiesGone(c, w))
      && (f.conflictCopiesOnly <==> f.status == Ok && !CanonicalLoads(c, w))
      && (f.vanished <==>
            || (f.status == Ok && CanonicalGone(w))
            || (f.status == Missing && (CanonicalGone(w) || CopyGone(c, w))))
      && (f.manifest.Some? <==> f.status == Ok)
  {
    hide Newer, AnyNewer, Observed, Loads, Validates, Taken, Reserved, FinalReads, LoadAll, Merge, SawReserved,
      LoadedCopies;
    SawIsObserved(c, w);
    NewerBytesBlock(c, w);
    OkMeaning(c, w);
    MissingExactly(c, w);
    GoneExactly(c, w);
    LoadsExactly(c, w);
  }

  lemma GoneExactly(c: Codec, w: World)
    ensures w.canonicalExists ==> (CanonicalVanished(w) <==> CanonicalGone(w))
    ensures !w.canonicalExists ==> !CanonicalVanished(w)
    ensures AllVanished(FinalReads(c, w.candidates)) <==> CopiesGone(c, w)
    ensures NotFound in FinalReads(c, w.candidates) <==> CopyGone(c, w)
  {
    hide Taken, FinalReads;
    var final := FinalReads(c, w.candidates);
    forall r
      ensures r in final <==>
        exists i | 0 <= i < |w.candidates| :: Taken(c, w.candidates[i]) && w.candidates[i].final == r
    {
      FinalReadsAre(c, w.candidates, r);
    }
    if AllVanished(final) {
      forall i | 0 <= i < |w.candidates| && Taken(c, w.candidates[i])
        ensures w.candidates[i].final == NotFound
      {
        assert w.candidates[i].final in final;
      }
    } else {
      var i :| 0 <= i < |final| && final[i] != NotFound;
      assert final[i] in final;
    }
  }

  lemma LoadsExactly(c: Codec, w: World)
    ensures LoadedCopies(c, w) != [] <==> CanonicalLoads(c, w) || CopyLoads(c, w)
    ensures LoadsCanonical(c, w) <==> CanonicalLoads(c, w)
  {
    hide Loads, Validates, Taken, Loadable, LoadedCopies;
    CopiesLoaded(c, w);
    ReadsExactly(c, w.canonicalSecond, Candidate(w.canonicalSecond, w.canonicalSecond));
    forall i | 0 <= i < |w.candidates|
      ensures LoadsCandidate(c, w.candidates[i]) <==>
        Taken(c, w.candidates[i]) && Loadable(c, w.candidates[i].final)
    {
      ReadsExactly(c, w.candidates[i].final, w.candidates[i]);
    }
  }

  /** `v` is the greatest reserved version among these reads. */
  ghost predicate Greatest(rs: seq<Read>, v: int) {
    && (exists i | 0 <= i < |rs| :: Reserved(rs[i]) && rs[i].data[0] == v)
    && forall i | 0 <= i < |rs| && Reserved(rs[i]) :: rs[i].data[0] <= v
  }

  lemma MaxIsGreatest(rs: seq<Read>)
    requires AnyNewer(rs)
    ensures Greatest(rs, MaxVersion(rs))
  {
    hide MaxVersion;
    MaxVersionIsMax(rs);
  }

  /** The version a blocked fetch names: the greatest of the first reads, else the greatest
      the validators saw, else the canonical's at its second read, else the first among the
      final reads. */
  lemma NamesVersion(c: Codec, w: World)
    requires SawReserved(c, w)
    ensures
      && Classify(c, w).newerVersion.Some?
      && var v := Classify(c, w).newerVersion.value;
      if ReservedFirst(w) then Greatest(FirstReads(w), v)
         else if ReservedValidated(w) then Greatest(FirstReads(w) + ValidatorReads(w.candidates), v)
         else if ReadAgain(w) && Reserved(w.canonicalSecond) then v == w.canonicalSecond.data[0]
         else
           exists i | 0 <= i < |FinalReads(c, w.candidates)| ::
             && Reserved(FinalReads(c, w.candidates)[i]) && FinalReads(c, w.candidates)[i].data[0] == v
             && forall j | 0 <= j < i :: !Reserved(FinalReads(c, w.candidates)[j])
  {
    hide AnyNewer, FinalReads, FirstReads, ReservedFirst, ReservedValidated, ReservedFinal, MaxVersion, Settle,
      ValidatorReads, Greatest;
    ReservedIsNewer(c, w);
    if ReservedFirst(w) {
      MaxIsGreatest(FirstReads(w));
    } else if ReservedValidated(w) {
      MaxIsGreatest(FirstReads(w) + ValidatorReads(w.candidates));
    } else if !(ReadAgain(w) && Reserved(w.canonicalSecond)) {
      var final := FinalReads(c, w.candidates);
      var k := FirstNewer(final);
      assert Reserved(final[k]);
    }
  }
}
