/** The key header by its bytes, and the fetch by the contents of the folder: what is newer,
    what is valid, which copy wins and which copies the plan deletes. */
module HeaderMeaning {
  import opened TextOrder
  import opened Manifests
  import opened KeyHeader

  // ---- the bytes of a header ---------------------------------------------------

  ghost predicate ReservedAt(data: Bytes, i: nat) {
    i < |data| && 3 <= data[i] <= 15
  }

  ghost function FourByteValue(a: int, b: int, c: int, d: int): int {
    ((a * 256 + b) * 256 + c) * 256 + d
  }

  /** The memory cost in bytes 1 to 4, most significant first. */
  ghost function CostOf(data: Bytes): int
    requires |data| >= 5
  {
    FourByteValue(data[1], data[2], data[3], data[4])
  }

  lemma CostIsBigEndian(field: Bytes)
    requires |field| == 4
    ensures FromBigEndian(field) == FourByteValue(field[0], field[1], field[2], field[3])
  {
    var three, two, one := field[..3], field[..2], field[..1];
    assert three[..2] == two && two[..1] == one && one[..0] == [];
    var a: int, b: int, c: int := field[0], field[1], field[2];
    assert FromBigEndian(one) == a;
    assert FromBigEndian(two) == a * 256 + b;
    assert FromBigEndian(three) == (a * 256 + b) * 256 + c;
  }

  /** The whole parser by the bytes: newer when the header, or the keycheck of a header of
      this format, begins with a reserved version; accepted when both are of this format,
      the cost is in range and the keycheck is long enough; corrupt otherwise. */
  lemma ParsesByBytes(data: Bytes)
    ensures Parse(data).Newer? <==> ReservedAt(data, 0) || (|data| >= 22 && data[0] == 2 && ReservedAt(data, 21))
    ensures Parse(data).Newer? ==> Parse(data).version == if ReservedAt(data, 0) then data[0] else data[21]
    ensures Parse(data).Ok? <==>
      |data| >= 51 && data[0] == 2 && data[21] == 2 && 1024 <= CostOf(data) <= 1048576
    ensures Parse(data).Ok? ==> Parse(data).header == Header(CostOf(data), data[5..21], data[21..])
  {
    if |data| >= 5 {
      var field := data[1..5];
      CostIsBigEndian(field);
      assert field[0] == data[1] && field[1] == data[2] && field[2] == data[3] && field[3] == data[4];
    }
  }

  /** Serializing fails only for a salt of another length or a cost that needs more than four
      bytes. */
  lemma SerializesExactly(h: Header)
    ensures Serialize(h).Some? <==> |h.salt| == 16 && 0 <= h.memoryKb < 256 * 256 * 256 * 256
    ensures Serialize(h).Some? ==>
      var data := Serialize(h).value;
      |data| == 21 + |h.keycheck| && data[0] == 2 && CostOf(data) == h.memoryKb && data[5..21] == h.salt
      && data[21..] == h.keycheck
  {
    if Serialize(h).Some? {
      var data := Serialize(h).value;
      var field := ToBigEndian(h.memoryKb, 4);
      FourBytes();
      BigEndianRoundTrip(h.memoryKb, 4);
      CostIsBigEndian(field);
      assert data == [FORMAT_VERSION] + field + h.salt + h.keycheck;
      assert data[1] == field[0] && data[2] == field[1] && data[3] == field[2] && data[4] == field[3];
    }
  }

  // ---- the folder ---------------------------------------------------------------------

  /** Some name of the folder is a readable file with these bytes. */
  ghost predicate Holds(f: Folder, x: Bytes) {
    f.canonical == Some(Regular(x)) || exists i | 0 <= i < |f.copies| :: f.copies[i].file == Regular(x)
  }

  lemma {:induction false} CopyDataAre(copies: seq<Copy>, x: Bytes)
    ensures x in CopyData(copies) <==> exists i | 0 <= i < |copies| :: copies[i].file == Regular(x)
    decreases |copies|
  {
    if copies != [] {
      CopyDataAre(copies[1..], x);
      if i :| 0 <= i < |copies| && copies[i].file == Regular(x) && i > 0 {
        assert copies[1..][i - 1].file == Regular(x);
      }
    }
  }

  lemma ReadableAre(f: Folder, x: Bytes)
    ensures x in Readable(f) <==> Holds(f, x)
  {
    CopyDataAre(f.copies, x);
  }

  ghost predicate HoldsNewer(f: Folder) {
    exists x :: Holds(f, x) && Parse(x).Newer?
  }

  ghost predicate HoldsValid(f: Folder) {
    exists x :: Holds(f, x) && Parse(x).Ok?
  }

  /** `x` is valid and no valid content has a smaller salt. */
  ghost predicate LeastSalt(f: Folder, x: Bytes) {
    && Holds(f, x) && Parse(x).Ok?
    && forall y :: Holds(f, y) && Parse(y).Ok? ==> !Less(Parse(y).header.salt, Parse(x).header.salt)
  }

  /** The whole fetch by the folder's contents: missing when it has no name at all, blocked
      when some content is newer, with the greatest version, found when none is and some
      content is valid, and then the winner has the least salt; corrupt otherwise. */
  lemma FetchesByContents(hash: Hash, f: Folder)
    ensures
      var r := FetchOf(hash, f);
      && (r.FetchMissing? <==> f.canonical.None? && f.copies == [])
      && (r.FetchNewer? <==> HoldsNewer(f))
      && (r.Found? <==> !HoldsNewer(f) && HoldsValid(f))
      && (r.FetchNewer? ==>
            && (exists x :: Holds(f, x) && Parse(x) == Newer(r.version))
            && (forall x :: Holds(f, x) && Parse(x).Newer? ==> Parse(x).version <= r.version)
            && (r.canonicalNewer <==>
                  f.canonical.Some? && f.canonical.value.Regular? && Parse(f.canonical.value.data).Newer?))
      && (r.Found? ==> LeastSalt(f, r.winner) && Parse(r.winner) == Ok(r.header))
  {
    hide Parse, Less, Readable, Holds, Best, Valid, NewerSeen, PlanOf;
    forall x
      ensures x in Readable(f) <==> Holds(f, x)
    {
      ReadableAre(f, x);
    }
    var k := WinnerMeaning(hash, f);
    var r := FetchOf(hash, f);
    if r.FetchNewer? {
      NewestVersionReported(hash, f);
    }
    if r.Found? {
      var valid := Valid(Readable(f));
      forall y
        ensures y in valid <==> Holds(f, y) && Parse(y).Ok?
      {
        ValidMembers(Readable(f), y);
      }
      assert valid[k] in valid;
    }
  }

  /** Among contents with the least salt the canonical wins. */
  lemma CanonicalWinsTies(hash: Hash, f: Folder, x: Bytes)
    requires FetchOf(hash, f).Found? && f.canonical == Some(Regular(x)) && LeastSalt(f, x)
    ensures FetchOf(hash, f).winner == x
  {
    hide Parse, Less, Holds, Best, PlanOf;
    var k := WinnerMeaning(hash, f);
    var valid := Valid(Readable(f));
    assert Readable(f)[0] == x;
    assert valid[0] == x;
    ReadableAre(f, valid[k]);
    ValidMembers(Readable(f), valid[k]);
    assert valid[k] in valid;
  }

  /** The plan, name by name: none without copies; else for every copy its name and its
      digest, and deletion exactly for one whose bytes are those of a readable canonical. */
  lemma PlansByContents(hash: Hash, f: Folder, i: nat)
    requires i < |f.copies|
    ensures
      var plan := PlanOf(hash, f);
      && plan.Some? && |plan.value.copies| == |f.copies|
      && plan.value.canonical
         == (match f.canonical case Some(Regular(x)) => Some(hash(x)) case _ => None)
      && var c := plan.value.copies[i];
      && c.name == f.copies[i].name
      && c.hash == (match f.copies[i].file case Regular(x) => Some(hash(x)) case Unreadable => None)
      && (c.delete <==> exists x :: f.canonical == Some(Regular(x)) && f.copies[i].file == Regular(x))
  {
    if f.canonical.Some? && f.canonical.value.Regular? && f.copies[i].file == f.canonical.value {
      assert f.canonical == Some(Regular(f.canonical.value.data));
    }
  }

  lemma NoCopiesNoPlan(hash: Hash, f: Folder)
    ensures PlanOf(hash, f).None? <==> f.copies == []
  {
  }

  /** The counts a user is shown: of a found fetch, as many deletions as the repair removes
      and as many preserved as it leaves; of any other, none. */
  lemma CountsExactly(hash: Hash, f: Folder)
    ensures RepairCounts(FetchOf(hash, f)) ==
            if FetchOf(hash, f).Found? then (|f.copies| - |Cleaned(f).copies|, |Cleaned(f).copies|) else (0, 0)
  {
    hide Parse, Readable, Valid, NewerSeen, Best;
    if f.copies != [] {
      PlannedSplit(hash, f.canonical, f.copies, PlanOf(hash, f).value.copies);
    } else {
      assert Kept(f.canonical, f.copies) == [];
    }
  }

  lemma {:induction false} PlannedSplit(hash: Hash, canonical: Option<File>, copies: seq<Copy>, plan: seq<Planned>)
    requires |plan| == |copies| && forall i | 0 <= i < |copies| :: plan[i] == PlanCopy(hash, canonical, copies[i])
    ensures CountDeletes(plan) + |Kept(canonical, copies)| == |copies|
    decreases |copies|
  {
    if copies != [] {
      PlannedSplit(hash, canonical, copies[1..], plan[1..]);
    }
  }
}
