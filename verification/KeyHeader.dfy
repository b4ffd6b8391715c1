/** The key header: its byte format, the choice between conflict copies, and the repair
    that removes redundant copies while other devices change the folder. */
module KeyHeader {
  import opened TextOrder
  import opened Manifests

  type Bytes = seq<Byte>

  const FORMAT_VERSION := 2
  const FORMAT_VERSION_MAX := 15
  const MEMORY_LEN := 4
  const ROOT_SALT_LEN := 16
  const SALT_LEN := 16
  const NONCE_LEN := 12
  const MEMORY_MIN := 1024
  const MEMORY_MAX := 1048576
  const HEADER_LEN := 1 + MEMORY_LEN + ROOT_SALT_LEN
  const KEYCHECK_MIN := 1 + SALT_LEN + NONCE_LEN + 1

  datatype Header = Header(memoryKb: int, salt: Bytes, keycheck: Bytes)

  datatype Parsed = Ok(header: Header) | Corrupt | Newer(version: int)

  // ---- big-endian memory cost ---------------------------------------------------

  function ToBigEndian(value: nat, width: nat): (r: Bytes)
    ensures |r| == width
  {
    if width == 0 then [] else ToBigEndian(value / 256, width - 1) + [value % 256]
  }

  function FromBigEndian(data: Bytes): (r: nat) {
    if data == [] then 0 else FromBigEndian(data[..|data| - 1]) * 256 + data[|data| - 1]
  }

  function Power256(width: nat): (r: nat)
    ensures r > 0
  {
    if width == 0 then 1 else 256 * Power256(width - 1)
  }

  lemma {:induction false} BigEndianRoundTrip(value: nat, width: nat)
    requires value < Power256(width)
    ensures FromBigEndian(ToBigEndian(value, width)) == value
  {
    if width > 0 {
      BigEndianRoundTrip(value / 256, width - 1);
      var r := ToBigEndian(value, width);
      assert r[..|r| - 1] == ToBigEndian(value / 256, width - 1);
    }
  }

  lemma {:induction false} BytesRoundTrip(data: Bytes)
    ensures ToBigEndian(FromBigEndian(data), |data|) == data
    ensures FromBigEndian(data) < Power256(|data|)
    decreases |data|
  {
    if data != [] {
      var init, last := data[..|data| - 1], data[|data| - 1];
      BytesRoundTrip(init);
      var v := FromBigEndian(init) * 256 + last;
      assert v / 256 == FromBigEndian(init) && v % 256 == last;
      assert data == init + [last];
    }
  }

  // ---- parse and serialize ---------------------------------------------------------

  function NewerVersion(data: Bytes): Option<int> {
    if data != [] && FORMAT_VERSION < data[0] <= FORMAT_VERSION_MAX then Some(data[0]) else None
  }

  function Parse(data: Bytes): Parsed {
    if NewerVersion(data).Some? then Newer(NewerVersion(data).value)
    else if |data| < HEADER_LEN + 1 then Corrupt
    else if data[0] != FORMAT_VERSION then Corrupt
    else
      var keycheck := data[HEADER_LEN..];
      if NewerVersion(keycheck).Some? then Newer(NewerVersion(keycheck).value)
      else
        var memoryKb := FromBigEndian(data[1..1 + MEMORY_LEN]);
        if memoryKb < MEMORY_MIN || memoryKb > MEMORY_MAX then Corrupt
        else if |keycheck| < KEYCHECK_MIN || keycheck[0] != FORMAT_VERSION then Corrupt
        else Ok(Header(memoryKb, data[1 + MEMORY_LEN..HEADER_LEN], keycheck))
  }

  /** None where the program raises: a salt of the wrong length or a cost that does not
      fit four bytes. */
  function Serialize(h: Header): Option<Bytes> {
    if |h.salt| != ROOT_SALT_LEN || h.memoryKb < 0 || h.memoryKb >= 0x1_0000_0000 then None
    else Some([FORMAT_VERSION] + ToBigEndian(h.memoryKb, MEMORY_LEN) + h.salt + h.keycheck)
  }

  /** A header a device may publish: a sane cost, a full salt, a well-headed keycheck. */
  predicate WellFormed(h: Header) {
    && MEMORY_MIN <= h.memoryKb <= MEMORY_MAX && |h.salt| == ROOT_SALT_LEN
    && |h.keycheck| >= KEYCHECK_MIN && h.keycheck[0] == FORMAT_VERSION
  }

  lemma FourBytes()
    ensures Power256(MEMORY_LEN) == 0x1_0000_0000
  {
    assert Power256(1) == 256;
    assert Power256(2) == 256 * 256;
    assert Power256(3) == 256 * 256 * 256;
  }

  /** Whatever is serialized from a well-formed header parses back to it. */
  lemma ParseOfSerialize(h: Header)
    requires WellFormed(h)
    ensures Serialize(h).Some? && Parse(Serialize(h).value) == Ok(h)
  {
    FourBytes();
    BigEndianRoundTrip(h.memoryKb, MEMORY_LEN);
    var field := ToBigEndian(h.memoryKb, MEMORY_LEN);
    var data := Serialize(h).value;
    assert data[1..1 + MEMORY_LEN] == field;
    assert data[1 + MEMORY_LEN..HEADER_LEN] == h.salt;
    assert data[HEADER_LEN..] == h.keycheck;
  }

  /** Whatever parses is well formed and serializes back to the same bytes. */
  lemma SerializeOfParse(data: Bytes)
    requires Parse(data).Ok?
    ensures WellFormed(Parse(data).header) && Serialize(Parse(data).header) == Some(data)
  {
    BytesRoundTrip(data[1..1 + MEMORY_LEN]);
    assert data == [data[0]] + data[1..1 + MEMORY_LEN] + data[1 + MEMORY_LEN..HEADER_LEN] + data[HEADER_LEN..];
  }

  /** The accepted blobs are exactly the serialized well-formed headers. */
  lemma ParsesExactly(data: Bytes)
    ensures Parse(data).Ok? <==> exists h :: WellFormed(h) && Serialize(h) == Some(data)
  {
    if Parse(data).Ok? {
      SerializeOfParse(data);
    }
    if h :| WellFormed(h) && Serialize(h) == Some(data) {
      ParseOfSerialize(h);
    }
  }

  // ---- choosing between copies --------------------------------------------------------

  /** What a name holds: bytes, or something that is not a readable regular file. */
  datatype File = Unreadable | Regular(data: Bytes)

  datatype Copy = Copy(name: string, file: File)

  /** The canonical name and its conflict copies, in the order a listing sorts them. */
  datatype Folder = Folder(canonical: Option<File>, copies: seq<Copy>)

  function DataOf(f: File): seq<Bytes> {
    if f.Regular? then [f.data] else []
  }

  function CopyData(copies: seq<Copy>): seq<Bytes> {
    if copies == [] then [] else DataOf(copies[0].file) + CopyData(copies[1..])
  }

  function CanonicalData(f: Folder): seq<Bytes> {
    if f.canonical.Some? then DataOf(f.canonical.value) else []
  }

  /** Readable contents in order, the canonical first. */
  function Readable(f: Folder): seq<Bytes> {
    CanonicalData(f) + CopyData(f.copies)
  }

  function Valid(rs: seq<Bytes>): (v: seq<Bytes>)
    ensures forall i :: 0 <= i < |v| ==> Parse(v[i]).Ok?
  {
    if rs == [] then [] else (if Parse(rs[0]).Ok? then [rs[0]] else []) + Valid(rs[1..])
  }

  function NewerSeen(rs: seq<Bytes>): seq<int> {
    if rs == [] then [] else (if Parse(rs[0]).Newer? then [Parse(rs[0]).version] else []) + NewerSeen(rs[1..])
  }

  function Max(vs: seq<int>): int
    requires vs != []
  {
    if |vs| == 1 then vs[0] else if vs[0] > Max(vs[1..]) then vs[0] else Max(vs[1..])
  }

  function Salt(data: Bytes): Bytes
    requires Parse(data).Ok?
  {
    Parse(data).header.salt
  }

  /** The running minimum by salt; an equal later salt never replaces it. */
  function Best(best: Bytes, rest: seq<Bytes>): (r: Bytes)
    requires Parse(best).Ok? && forall i :: 0 <= i < |rest| ==> Parse(rest[i]).Ok?
    ensures Parse(r).Ok?
    decreases |rest|
  {
    if rest == [] then best
    else Best(if Less(Salt(rest[0]), Salt(best)) then rest[0] else best, rest[1..])
  }

  /** A planned copy; only one with `delete` set may ever be removed. */
  datatype Planned = Planned(name: string, hash: Option<string>, delete: bool)

  datatype Plan = Plan(canonical: Option<string>, copies: seq<Planned>)

  datatype Fetch =
    | FetchMissing
    | FetchCorrupt
    | FetchNewer(version: int, canonicalNewer: bool)
    | Found(header: Header, winner: Bytes, plan: Option<Plan>)

  type Hash = Bytes -> string

  function HashOf(hash: Hash, f: Option<File>): Option<string> {
    if f.Some? && f.value.Regular? then Some(hash(f.value.data)) else None
  }

  /** Identical bytes in a readable canonical are the only licence to delete. */
  function PlanCopy(hash: Hash, canonical: Option<File>, c: Copy): Planned {
    Planned(
      c.name, HashOf(hash, Some(c.file)),
      canonical.Some? && canonical.value.Regular? && c.file == canonical.value)
  }

  function PlanOf(hash: Hash, f: Folder): Option<Plan> {
    if f.copies == [] then None
    else
      Some(Plan(HashOf(hash, f.canonical),
                seq(|f.copies|, i requires 0 <= i < |f.copies| => PlanCopy(hash, f.canonical, f.copies[i]))))
  }

  function FetchOf(hash: Hash, f: Folder): Fetch {
    var newer := NewerSeen(Readable(f));
    var valid := Valid(Readable(f));
    if f.canonical.None? && f.copies == [] then FetchMissing
    else if newer != [] then
      FetchNewer(Max(newer), f.canonical.Some? && f.canonical.value.Regular? && Parse(f.canonical.value.data).Newer?)
    else if valid == [] then FetchCorrupt
    else
      var winner := Best(valid[0], valid[1..]);
      Found(Parse(winner).header, winner, PlanOf(hash, f))
  }

  lemma {:induction false} ValidMembers(rs: seq<Bytes>, x: Bytes)
    ensures x in Valid(rs) <==> x in rs && Parse(x).Ok?
    decreases |rs|
  {
    if rs != [] {
      ValidMembers(rs[1..], x);
      assert rs == [rs[0]] + rs[1..];
    }
  }

  lemma {:induction false} NewerMembers(rs: seq<Bytes>, v: int)
    ensures v in NewerSeen(rs) <==> exists x :: x in rs && Parse(x) == Newer(v)
    decreases |rs|
  {
    if rs != [] {
      NewerMembers(rs[1..], v);
      assert rs == [rs[0]] + rs[1..];
      assert rs[0] in rs;
      assert forall x :: x in rs[1..] ==> x in rs;
    }
  }

  /** `k` is the first place with the least salt. */
  ghost predicate FirstMinimum(all: seq<Bytes>, k: nat) {
    && k < |all| && (forall i :: 0 <= i < |all| ==> Parse(all[i]).Ok?)
    && (forall i :: 0 <= i < |all| ==> !Less(Salt(all[i]), Salt(all[k])))
    && (forall i :: 0 <= i < k ==> Less(Salt(all[k]), Salt(all[i])))
  }

  lemma TakesSmaller(best: Bytes, rest: seq<Bytes>, j: nat)
    requires Parse(best).Ok? && FirstMinimum(rest, j) && Less(Salt(rest[0]), Salt(best))
    ensures FirstMinimum([best] + rest, j + 1)
  {
    hide Parse, Less;
    var all := [best] + rest;
    var least := Salt(rest[j]);
    if j > 0 {
      LessTransitive(least, Salt(rest[0]), Salt(best));
    }
    if Less(Salt(best), least) {
      LessTransitive(least, Salt(best), least);
      LessIrreflexive(least);
    }
    assert forall i :: 1 <= i < |all| ==> all[i] == rest[i - 1];
  }

  lemma KeepsBest(best: Bytes, rest: seq<Bytes>, j: nat)
    requires rest != [] && Parse(rest[0]).Ok? && Parse(best).Ok? && FirstMinimum([best] + rest[1..], j)
    requires !Less(Salt(rest[0]), Salt(best))
    ensures FirstMinimum([best] + rest, if j == 0 then 0 else j + 1)
  {
    hide Parse, Less;
    var all, tail := [best] + rest, [best] + rest[1..];
    var least := Salt(tail[j]);
    assert tail[0] == best && forall i :: 1 <= i < |tail| ==> tail[i] == all[i + 1];
    var skipped := Salt(rest[0]);
    LessTotal(skipped, Salt(best));
    if j > 0 {
      if skipped != Salt(best) {
        LessTransitive(least, Salt(best), skipped);
      }
      if Less(skipped, least) {
        LessTransitive(skipped, least, Salt(best));
      }
    }
    forall i | 0 <= i < |all|
      ensures Parse(all[i]).Ok? && !Less(Salt(all[i]), least)
      ensures i < (if j == 0 then 0 else j + 1) ==> Less(least, Salt(all[i]))
    {
      if i > 1 {
        assert all[i] == tail[i - 1];
      }
    }
  }

  /** The running minimum is one of the candidates, none has a smaller salt, and on equal
      salts the first one seen wins. */
  lemma {:induction false} BestIsFirstMinimum(best: Bytes, rest: seq<Bytes>) returns (k: nat)
    requires Parse(best).Ok? && forall i :: 0 <= i < |rest| ==> Parse(rest[i]).Ok?
    ensures FirstMinimum([best] + rest, k) && Best(best, rest) == ([best] + rest)[k]
    decreases |rest|
  {
    hide Parse, Less;
    if rest == [] {
      k := 0;
      LessIrreflexive(Salt(best));
    } else if Less(Salt(rest[0]), Salt(best)) {
      var j := BestIsFirstMinimum(rest[0], rest[1..]);
      assert [rest[0]] + rest[1..] == rest;
      TakesSmaller(best, rest, j);
      k := j + 1;
    } else {
      var j := BestIsFirstMinimum(best, rest[1..]);
      KeepsBest(best, rest, j);
      k := if j == 0 then 0 else j + 1;
    }
  }

  lemma SeenMeaning(rs: seq<Bytes>)
    ensures NewerSeen(rs) != [] <==> exists x :: x in rs && Parse(x).Newer?
    ensures Valid(rs) != [] <==> exists x :: x in rs && Parse(x).Ok?
  {
    hide Parse;
    if x :| x in rs && Parse(x).Newer? {
      NewerMembers(rs, Parse(x).version);
    }
    if NewerSeen(rs) != [] {
      NewerMembers(rs, NewerSeen(rs)[0]);
    }
    if x :| x in rs && Parse(x).Ok? {
      ValidMembers(rs, x);
    }
    if Valid(rs) != [] {
      ValidMembers(rs, Valid(rs)[0]);
    }
  }

  /** The fetch as its documentation promises it: a newer format anywhere blocks it; else
      the winner is the first readable valid copy, canonical first, with the least salt. */
  lemma WinnerMeaning(hash: Hash, f: Folder) returns (k: nat)
    ensures FetchOf(hash, f).FetchMissing? <==> f.canonical.None? && f.copies == []
    ensures FetchOf(hash, f).FetchNewer? <==> exists x :: x in Readable(f) && Parse(x).Newer?
    ensures FetchOf(hash, f).Found? <==>
      (forall x :: x in Readable(f) ==> !Parse(x).Newer?) && exists x :: x in Readable(f) && Parse(x).Ok?
    ensures FetchOf(hash, f).Found? ==>
      && FirstMinimum(Valid(Readable(f)), k) && FetchOf(hash, f).winner == Valid(Readable(f))[k]
      && Parse(FetchOf(hash, f).winner) == Ok(FetchOf(hash, f).header)
  {
    hide Parse, Best, NewerSeen, Valid, FirstMinimum, PlanOf, CopyData;
    SeenMeaning(Readable(f));
    var valid := Valid(Readable(f));
    k := 0;
    if f.canonical.None? && f.copies == [] {
      NothingReadable(f);
    }
    if valid != [] {
      k := BestIsFirstMinimum(valid[0], valid[1..]);
      assert [valid[0]] + valid[1..] == valid;
    }
  }

  lemma {:induction false} MaxIsMax(vs: seq<int>)
    requires vs != []
    ensures Max(vs) in vs && forall v :: v in vs ==> v <= Max(vs)
    decreases |vs|
  {
    if |vs| > 1 {
      MaxIsMax(vs[1..]);
      assert vs == [vs[0]] + vs[1..];
    }
  }

  /** The version a blocked fetch names is the greatest one any readable copy carries. */
  lemma NewestVersionReported(hash: Hash, f: Folder)
    requires FetchOf(hash, f).FetchNewer?
    ensures exists x :: x in Readable(f) && Parse(x) == Newer(FetchOf(hash, f).version)
    ensures forall x :: x in Readable(f) && Parse(x).Newer? ==> Parse(x).version <= FetchOf(hash, f).version
  {
    hide Parse, Valid, Best;
    var newer := NewerSeen(Readable(f));
    MaxIsMax(newer);
    NewerMembers(Readable(f), Max(newer));
    forall x | x in Readable(f) && Parse(x).Newer?
      ensures Parse(x).version <= Max(newer)
    {
      NewerMembers(Readable(f), Parse(x).version);
    }
  }

  lemma NothingReadable(f: Folder)
    requires f.canonical.None? && f.copies == []
    ensures Readable(f) == [] && NewerSeen([]) == [] && Valid([]) == []
  {
  }

  // ---- what repair leaves -----------------------------------------------------------------

  function CountDeletes(copies: seq<Planned>): nat {
    if copies == [] then 0 else (if copies[0].delete then 1 else 0) + CountDeletes(copies[1..])
  }

  /** Copies planned for deletion and copies preserved. */
  function RepairCounts(fetch: Fetch): (int, int) {
    if !fetch.Found? || fetch.plan.None? then (0, 0)
    else (CountDeletes(fetch.plan.value.copies), |fetch.plan.value.copies| - CountDeletes(fetch.plan.value.copies))
  }

  predicate Redundant(canonical: Option<File>, c: Copy) {
    canonical.Some? && canonical.value.Regular? && c.file == canonical.value
  }

  function Kept(canonical: Option<File>, copies: seq<Copy>): seq<Copy> {
    if copies == [] then []
    else (if Redundant(canonical, copies[0]) then [] else [copies[0]]) + Kept(canonical, copies[1..])
  }

  /** The folder without the copies identical to a readable canonical. */
  function Cleaned(f: Folder): Folder {
    f.(copies := Kept(f.canonical, f.copies))
  }

  /** The distinct contents stored under any of the names. */
  function Contents(f: Folder): set<Bytes> {
    set x | x in Readable(f)
  }

  lemma {:induction false} KeptContents(canonical: Option<File>, copies: seq<Copy>, x: Bytes)
    ensures x in CopyData(Kept(canonical, copies)) <==> x in CopyData(copies) && canonical != Some(Regular(x))
    decreases |copies|
  {
    if copies != [] {
      KeptContents(canonical, copies[1..], x);
      CopyDataConcat(if Redundant(canonical, copies[0]) then [] else [copies[0]], Kept(canonical, copies[1..]));
      assert CopyData([copies[0]]) == DataOf(copies[0].file) + CopyData([]);
    }
  }

  lemma {:induction false} CopyDataConcat(a: seq<Copy>, b: seq<Copy>)
    ensures CopyData(a + b) == CopyData(a) + CopyData(b)
    decreases |a|
  {
    if a == [] {
      assert a + b == b;
    } else {
      CopyDataConcat(a[1..], b);
      assert (a + b)[0] == a[0] && (a + b)[1..] == a[1..] + b;
    }
  }

  /** No content is lost: whatever was stored under some name still is. */
  lemma RepairKeepsContents(f: Folder)
    ensures Contents(Cleaned(f)) == Contents(f)
  {
    forall x
      ensures x in Contents(Cleaned(f)) <==> x in Contents(f)
    {
      KeptContents(f.canonical, f.copies, x);
    }
  }

  lemma {:induction false} ValidConcat(a: seq<Bytes>, b: seq<Bytes>)
    ensures Valid(a + b) == Valid(a) + Valid(b)
    decreases |a|
  {
    if a == [] {
      assert a + b == b;
    } else {
      ValidConcat(a[1..], b);
      assert (a + b)[0] == a[0] && (a + b)[1..] == a[1..] + b;
    }
  }

  function ValidOf(c: Copy): seq<Bytes> {
    if c.file.Regular? && Parse(c.file.data).Ok? then [c.file.data] else []
  }

  lemma ValidCopies(canonical: Option<File>, copies: seq<Copy>)
    requires copies != []
    ensures Valid(CopyData(copies)) == ValidOf(copies[0]) + Valid(CopyData(copies[1..]))
    ensures Valid(CopyData(Kept(canonical, copies))) ==
            (if Redundant(canonical, copies[0]) then [] else ValidOf(copies[0]))
            + Valid(CopyData(Kept(canonical, copies[1..])))
  {
    hide Parse, Redundant;
    var head, rest := copies[0], copies[1..];
    var first := if Redundant(canonical, head) then [] else [head];
    CopyDataConcat(first, Kept(canonical, rest));
    assert CopyData([head]) == DataOf(head.file) + CopyData([]);
    ValidConcat(DataOf(head.file), CopyData(rest));
    ValidConcat(CopyData(first), CopyData(Kept(canonical, rest)));
    if head.file.Regular? {
      assert [head.file.data][1..] == [];
    }
    assert Valid(DataOf(head.file)) == ValidOf(head);
  }

  /** Dropping later copies of contents no better than the running best changes nothing. */
  lemma {:induction false} BestSkipsRedundant(canonical: Option<File>, best: Bytes, copies: seq<Copy>)
    requires Parse(best).Ok?
    requires canonical.Some? && canonical.value.Regular? && Parse(canonical.value.data).Ok? ==>
      !Less(Salt(canonical.value.data), Salt(best))
    ensures Best(best, Valid(CopyData(Kept(canonical, copies)))) == Best(best, Valid(CopyData(copies)))
    decreases |copies|
  {
    hide Parse, Less, CopyData, Valid;
    if copies != [] {
      var head, rest := copies[0], copies[1..];
      ValidCopies(canonical, copies);
      var tail, keptTail := Valid(CopyData(rest)), Valid(CopyData(Kept(canonical, rest)));
      assert [] + tail == tail && [] + keptTail == keptTail;
      if ValidOf(head) != [] && !Redundant(canonical, head) {
        var x := head.file.data;
        var next := if Less(Salt(x), Salt(best)) then x else best;
        if canonical.Some? && canonical.value.Regular? && Parse(canonical.value.data).Ok? && next != best {
          StaysNoBetter(Salt(canonical.value.data), Salt(best), Salt(next));
        }
        BestSkipsRedundant(canonical, next, rest);
        assert ([x] + tail)[1..] == tail && ([x] + keptTail)[1..] == keptTail;
      } else {
        BestSkipsRedundant(canonical, best, rest);
        assert ValidOf(head) != [] ==> ([head.file.data] + tail)[1..] == tail;
      }
    } else {
      assert Kept(canonical, copies) == copies;
    }
  }

  lemma StaysNoBetter(a: Bytes, best: Bytes, next: Bytes)
    requires !Less(a, best) && Less(next, best)
    ensures !Less(a, next)
  {
    if Less(a, next) {
      LessTransitive(a, next, best);
    }
  }

  lemma {:induction false} KeptValidWhenInvalid(canonical: Option<File>, copies: seq<Copy>)
    requires canonical.Some? && canonical.value.Regular? ==> !Parse(canonical.value.data).Ok?
    ensures Valid(CopyData(Kept(canonical, copies))) == Valid(CopyData(copies))
    decreases |copies|
  {
    hide Parse, CopyData, Valid;
    if copies != [] {
      ValidCopies(canonical, copies);
      KeptValidWhenInvalid(canonical, copies[1..]);
    } else {
      assert Kept(canonical, copies) == copies;
    }
  }

  lemma CleanedSubset(f: Folder)
    ensures forall x :: x in Readable(Cleaned(f)) ==> x in Readable(f)
    ensures Cleaned(f).canonical == f.canonical
  {
    forall x | x in Readable(Cleaned(f))
      ensures x in Readable(f)
    {
      KeptContents(f.canonical, f.copies, x);
    }
  }

  lemma CleanedBest(f: Folder)
    requires Valid(Readable(f)) != []
    ensures
      var before, after := Valid(Readable(f)), Valid(Readable(Cleaned(f)));
      after != [] && Best(after[0], after[1..]) == Best(before[0], before[1..])
  {
    hide Parse, Less, CopyData, Valid;
    var canonical, copies := CanonicalData(f), CopyData(f.copies);
    var keptCopies := CopyData(Kept(f.canonical, f.copies));
    ValidConcat(canonical, copies);
    ValidConcat(canonical, keptCopies);
    CanonicalValid(f);
    if Valid(canonical) == [] {
      KeptValidWhenInvalid(f.canonical, f.copies);
    } else {
      var c := f.canonical.value.data;
      LessIrreflexive(Salt(c));
      BestSkipsRedundant(f.canonical, c, f.copies);
      assert ([c] + Valid(copies))[1..] == Valid(copies) && ([c] + Valid(keptCopies))[1..] == Valid(keptCopies);
    }
  }

  lemma CanonicalValid(f: Folder)
    ensures Valid(CanonicalData(f)) ==
            if f.canonical.Some? && f.canonical.value.Regular? && Parse(f.canonical.value.data).Ok?
            then [f.canonical.value.data] else []
  {
    if f.canonical.Some? && f.canonical.value.Regular? {
      assert [f.canonical.value.data][1..] == [];
    }
  }

  /** Repair changes neither the winner nor what any later fetch decides, and a second
      repair finds nothing to delete. */
  lemma RepairKeepsWinner(hash: Hash, f: Folder)
    requires FetchOf(hash, f).Found?
    ensures
      var after := FetchOf(hash, Cleaned(f));
      && after.Found? && after.winner == FetchOf(hash, f).winner && after.header == FetchOf(hash, f).header
      && RepairCounts(after).0 == 0 && Cleaned(Cleaned(f)) == Cleaned(f)
  {
    hide Parse, Less, CopyData, Valid, Best, PlanOf;
    SeenMeaning(Readable(f));
    SeenMeaning(Readable(Cleaned(f)));
    CleanedSubset(f);
    CleanedBest(f);
    KeptTwice(f.canonical, f.copies);
    NothingLeftToDelete(hash, f);
  }

  lemma {:induction false} KeptTwice(canonical: Option<File>, copies: seq<Copy>)
    ensures Kept(canonical, Kept(canonical, copies)) == Kept(canonical, copies)
    ensures forall i :: 0 <= i < |Kept(canonical, copies)| ==> !Redundant(canonical, Kept(canonical, copies)[i])
    decreases |copies|
  {
    if copies != [] {
      KeptTwice(canonical, copies[1..]);
      var rest := Kept(canonical, copies[1..]);
      if !Redundant(canonical, copies[0]) {
        assert ([copies[0]] + rest)[1..] == rest;
      } else {
        assert [] + rest == rest;
      }
    }
  }

  lemma {:induction false} CountNone(copies: seq<Planned>)
    requires forall i :: 0 <= i < |copies| ==> !copies[i].delete
    ensures CountDeletes(copies) == 0
    decreases |copies|
  {
    if copies != [] {
      CountNone(copies[1..]);
    }
  }

  lemma NothingLeftToDelete(hash: Hash, f: Folder)
    ensures RepairCounts(FetchOf(hash, Cleaned(f))).0 == 0
  {
    hide Parse, Valid, NewerSeen, Best;
    KeptTwice(f.canonical, f.copies);
    var g := Cleaned(f);
    if g.copies != [] {
      CountNone(PlanOf(hash, g).value.copies);
    }
  }

  /** The counts of a fetch split the copies it saw, and exactly the redundant ones are
      counted as deletable. */
  lemma {:induction false} CountsSplit(hash: Hash, canonical: Option<File>, copies: seq<Copy>)
    ensures
      CountDeletes(seq(|copies|, i requires 0 <= i < |copies| => PlanCopy(hash, canonical, copies[i])))
      + |Kept(canonical, copies)| == |copies|
    decreases |copies|
  {
    var plan := seq(|copies|, i requires 0 <= i < |copies| => PlanCopy(hash, canonical, copies[i]));
    if copies != [] {
      var rest := copies[1..];
      CountsSplit(hash, canonical, rest);
      assert plan[1..] == seq(|rest|, i requires 0 <= i < |rest| => PlanCopy(hash, canonical, rest[i]));
    }
  }
}
