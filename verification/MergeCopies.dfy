/** Merging the conflict copies of one device's manifest: files are united, the
    greatest (timestamp, content hash) copy wins each path, and each tombstone keeps
    its latest deletion time. */
module MergeCopies {
  import opened TextOrder
  import opened Manifests

  type ContentHash = Manifest -> string

  predicate Before(hash: ContentHash, a: Manifest, b: Manifest) {
    TextLess(a.timestamp, b.timestamp)
    || (a.timestamp == b.timestamp && TextLess(hash(a), hash(b)))
  }

  // ---- the stable sort ------------------------------------------------

  function Insert(hash: ContentHash, m: Manifest, s: seq<Manifest>): seq<Manifest> {
    if s == [] then [m]
    else if Before(hash, s[0], m) then [s[0]] + Insert(hash, m, s[1..])
    else [m] + s
  }

  /** `sorted` with the (timestamp, hash) key: equal keys keep their input order. */
  function Sorted(hash: ContentHash, s: seq<Manifest>): seq<Manifest> {
    if s == [] then [] else Insert(hash, s[0], Sorted(hash, s[1..]))
  }

  function Members(s: seq<Manifest>): set<Manifest> {
    set m | m in s
  }

  predicate Ordered(hash: ContentHash, s: seq<Manifest>) {
    forall i, j :: 0 <= i < j < |s| ==> !Before(hash, s[j], s[i])
  }

  /** Distinct copies have distinct keys. */
  predicate Distinguishes(hash: ContentHash, copies: set<Manifest>) {
    forall a, b :: a in copies && b in copies && hash(a) == hash(b) ==> a == b
  }

  lemma BeforeIsOrder(hash: ContentHash, a: Manifest, b: Manifest, c: Manifest)
    ensures !Before(hash, a, a)
    ensures Before(hash, a, b) && Before(hash, b, c) ==> Before(hash, a, c)
    ensures Before(hash, a, b) || Before(hash, b, a) || (a.timestamp == b.timestamp && hash(a) == hash(b))
    ensures Before(hash, a, b) ==> !Before(hash, b, a)
  {
    TextLessIsOrder(a.timestamp, b.timestamp, c.timestamp);
    TextLessIsOrder(a.timestamp, b.timestamp, a.timestamp);
    TextLessIsOrder(hash(a), hash(b), hash(c));
    TextLessIsOrder(hash(a), hash(b), hash(a));
  }

  /** Negated order is transitive: the order is a strict weak order on keys. */
  lemma NotBeforeTransitive(hash: ContentHash, a: Manifest, b: Manifest, c: Manifest)
    requires !Before(hash, b, a) && !Before(hash, c, b)
    ensures !Before(hash, c, a)
  {
    if Before(hash, c, a) {
      BeforeIsOrder(hash, a, b, c);
      BeforeIsOrder(hash, b, c, a);
      BeforeIsOrder(hash, c, a, b);
    }
  }

  lemma {:induction false} InsertMembers(hash: ContentHash, m: Manifest, s: seq<Manifest>)
    ensures multiset(Insert(hash, m, s)) == multiset(s) + multiset{m}
    decreases |s|
  {
    if s != [] {
      assert s == [s[0]] + s[1..];
      InsertMembers(hash, m, s[1..]);
    }
  }

  /** A copy put before an ordered sequence keeps it ordered when nothing there is before it. */
  lemma PrependKeepsOrder(hash: ContentHash, m: Manifest, t: seq<Manifest>)
    requires Ordered(hash, t)
    requires forall o :: o in t ==> !Before(hash, o, m)
    ensures Ordered(hash, [m] + t)
  {
    var r := [m] + t;
    forall i, j | 0 <= i < j < |r|
      ensures !Before(hash, r[j], r[i])
    {
      assert r[j] == t[j - 1];
      if i > 0 {
        assert r[i] == t[i - 1];
      }
    }
  }

  lemma {:induction false} InsertKeepsOrder(hash: ContentHash, m: Manifest, s: seq<Manifest>)
    requires Ordered(hash, s)
    ensures Ordered(hash, Insert(hash, m, s))
    decreases |s|
  {
    if s == [] {
    } else if Before(hash, s[0], m) {
      var t := Insert(hash, m, s[1..]);
      InsertKeepsOrder(hash, m, s[1..]);
      InsertMembers(hash, m, s[1..]);
      BeforeIsOrder(hash, s[0], m, m);
      forall o | o in t
        ensures !Before(hash, o, s[0])
      {
        assert o in multiset(t);
        if o != m {
          assert o in multiset(s[1..]);
        }
      }
      PrependKeepsOrder(hash, s[0], t);
    } else {
      forall o | o in s
        ensures !Before(hash, o, m)
      {
        var i :| 0 <= i < |s| && s[i] == o;
        if i > 0 {
          NotBeforeTransitive(hash, m, s[0], s[i]);
        }
      }
      PrependKeepsOrder(hash, m, s);
    }
  }

  lemma {:induction false} SortedIsOrdered(hash: ContentHash, s: seq<Manifest>)
    ensures Ordered(hash, Sorted(hash, s))
    ensures multiset(Sorted(hash, s)) == multiset(s)
    decreases |s|
  {
    if s != [] {
      SortedIsOrdered(hash, s[1..]);
      InsertKeepsOrder(hash, s[0], Sorted(hash, s[1..]));
      InsertMembers(hash, s[0], Sorted(hash, s[1..]));
      assert s == [s[0]] + s[1..];
    }
  }

  lemma SortedSameMembers(hash: ContentHash, s: seq<Manifest>)
    ensures |Sorted(hash, s)| == |s|
    ensures forall m :: m in Sorted(hash, s) <==> m in s
  {
    SortedIsOrdered(hash, s);
    var t := Sorted(hash, s);
    assert |multiset(t)| == |t| && |multiset(s)| == |s|;
    forall m
      ensures m in t <==> m in s
    {
      assert m in t <==> m in multiset(t);
      assert m in s <==> m in multiset(s);
    }
  }

  // ---- the merge itself -----------------------------------------------

  function AddFiles(acc: map<string, Source>, sources: map<string, Source>): map<string, Source> {
    map n | n in acc.Keys + sources.Keys ::
      if n in sources then
        Source(if n in acc then acc[n].basePath else sources[n].basePath, Files(acc, n) + sources[n].files)
      else acc[n]
  }

  function MergedSources(s: seq<Manifest>): map<string, Source> {
    if s == [] then map[] else AddFiles(MergedSources(s[..|s| - 1]), s[|s| - 1].sources)
  }

  function AddTombstones(acc: map<string, Tombstone>, ts: map<string, Tombstone>): map<string, Tombstone> {
    map k | k in acc.Keys + ts.Keys ::
      if k in ts && (k !in acc || TextLess(acc[k].deletedAt, ts[k].deletedAt)) then ts[k] else acc[k]
  }

  function MergedTombstones(s: seq<Manifest>): map<string, Tombstone> {
    if s == [] then map[] else AddTombstones(MergedTombstones(s[..|s| - 1]), s[|s| - 1].tombstones)
  }

  function MergeSorted(s: seq<Manifest>): Manifest
    requires s != []
  {
    s[|s| - 1].(sources := MergedSources(s), tombstones := MergedTombstones(s))
  }

  function Merge(hash: ContentHash, copies: seq<Manifest>): Manifest
    requires copies != []
  {
    SortedSameMembers(hash, copies);
    MergeSorted(Sorted(hash, copies))
  }

  /** The merge as the program runs it: update loops over sorted copies. */
  method MergeManifests(hash: ContentHash, copies: seq<Manifest>) returns (merged: Manifest)
    requires copies != []
    ensures merged == Merge(hash, copies)
  {
    var sorted := Sorted(hash, copies);
    SortedSameMembers(hash, copies);
    var sources: map<string, Source> := map[];
    var tombstones: map<string, Tombstone> := map[];
    for i := 0 to |sorted|
      invariant sources == MergedSources(sorted[..i])
      invariant tombstones == MergedTombstones(sorted[..i])
    {
      assert sorted[..i + 1][..i] == sorted[..i];
      sources := UpdateSources(sources, sorted[i].sources);
      tombstones := UpdateTombstones(tombstones, sorted[i].tombstones);
    }
    assert sorted[..|sorted|] == sorted;
    merged := sorted[|sorted| - 1].(sources := sources, tombstones := tombstones);
  }

  method UpdateSources(acc: map<string, Source>, sources: map<string, Source>) returns (r: map<string, Source>)
    ensures r == AddFiles(acc, sources)
  {
    r := acc;
    var todo := sources.Keys;
    while todo != {}
      invariant todo <= sources.Keys
      invariant r.Keys == acc.Keys + (sources.Keys - todo)
      invariant forall n :: n in r.Keys ==>
        r[n] == if n in sources && n !in todo then AddFiles(acc, sources)[n] else acc[n]
      decreases todo
    {
      var n :| n in todo;
      if n !in r {
        r := r[n := Source(sources[n].basePath, map[])];
      }
      r := r[n := Source(r[n].basePath, r[n].files + sources[n].files)];
      todo := todo - {n};
    }
  }

  method UpdateTombstones(acc: map<string, Tombstone>, ts: map<string, Tombstone>) returns (r: map<string, Tombstone>)
    ensures r == AddTombstones(acc, ts)
  {
    r := acc;
    var todo := ts.Keys;
    while todo != {}
      invariant todo <= ts.Keys
      invariant r.Keys == acc.Keys + (ts.Keys - todo)
      invariant forall k :: k in r.Keys ==>
        r[k] == if k in ts && k !in todo then AddTombstones(acc, ts)[k] else acc[k]
      decreases todo
    {
      var k :| k in todo;
      if k !in r || TextLess(r[k].deletedAt, ts[k].deletedAt) {
        r := r[k := ts[k]];
      }
      todo := todo - {k};
    }
  }

  // ---- what the merged manifest holds ---------------------------------

  /** `m` is the copy whose entry for the path wins: no copy that has the path is later. */
  ghost predicate WinsPath(hash: ContentHash, copies: set<Manifest>, m: Manifest, n: string, p: string) {
    m in copies && Lists(m.sources, n, p)
    && forall o :: o in copies && Lists(o.sources, n, p) ==> !Before(hash, m, o)
  }

  /** `m` is the earliest copy with the source; its base path is kept. */
  ghost predicate FirstWithSource(hash: ContentHash, copies: set<Manifest>, m: Manifest, n: string) {
    m in copies && n in m.sources
    && forall o :: o in copies && n in o.sources ==> !Before(hash, o, m)
  }

  /** `m` holds the kept tombstone: latest deletion time, then earliest copy. */
  ghost predicate WinsTombstone(hash: ContentHash, copies: set<Manifest>, m: Manifest, k: string) {
    m in copies && k in m.tombstones
    && forall o :: o in copies && k in o.tombstones ==>
      && !TextLess(m.tombstones[k].deletedAt, o.tombstones[k].deletedAt)
      && (o.tombstones[k].deletedAt == m.tombstones[k].deletedAt ==> !Before(hash, o, m))
  }

  lemma {:induction false} PathWinner(hash: ContentHash, s: seq<Manifest>, n: string, p: string) returns (m: Manifest)
    requires Ordered(hash, s)
    requires exists o :: o in s && Lists(o.sources, n, p)
    ensures WinsPath(hash, Members(s), m, n, p)
    ensures Lists(MergedSources(s), n, p)
    ensures Files(MergedSources(s), n)[p] == Files(m.sources, n)[p]
    decreases |s|
  {
    var last := s[|s| - 1];
    var init := s[..|s| - 1];
    assert s == init + [last];
    if Lists(last.sources, n, p) {
      m := last;
      forall o | o in s && Lists(o.sources, n, p)
        ensures !Before(hash, m, o)
      {
        var i :| 0 <= i < |s| && s[i] == o;
        if i == |s| - 1 {
          BeforeIsOrder(hash, m, m, m);
        }
      }
    } else {
      m := PathWinner(hash, init, n, p);
      forall o | o in s && Lists(o.sources, n, p)
        ensures !Before(hash, m, o)
      {
        assert o in init;
        assert o in Members(init);
      }
    }
  }

  lemma {:induction false} NothingInvented(s: seq<Manifest>, n: string, p: string)
    requires Lists(MergedSources(s), n, p)
    ensures exists o :: o in s && Lists(o.sources, n, p)
    decreases |s|
  {
    var last := s[|s| - 1];
    var init := s[..|s| - 1];
    assert s == init + [last];
    if Lists(last.sources, n, p) {
      assert last in s;
    } else {
      NothingInvented(init, n, p);
      var o :| o in init && Lists(o.sources, n, p);
      assert o in s;
    }
  }

  /** An ordered sequence is an ordered prefix and a last copy that precedes none of it. */
  lemma SplitLast(hash: ContentHash, s: seq<Manifest>)
    requires s != [] && Ordered(hash, s)
    ensures
      var init, last := s[..|s| - 1], s[|s| - 1];
      && Ordered(hash, init) && Members(s) == Members(init) + {last}
      && (forall o :: o in init <==> o in Members(init)) && (forall o :: o in s <==> o in Members(s))
      && forall o :: o in Members(init) ==> !Before(hash, last, o)
  {
    hide Before;
    var init, last := s[..|s| - 1], s[|s| - 1];
    assert s == init + [last];
    forall o | o in init
      ensures !Before(hash, last, o)
    {
      var i :| 0 <= i < |init| && init[i] == o;
      assert s[i] == o;
    }
  }

  lemma {:induction false} SourceWinner(hash: ContentHash, s: seq<Manifest>, n: string) returns (m: Manifest)
    requires Ordered(hash, s)
    requires exists o :: o in s && n in o.sources
    ensures FirstWithSource(hash, Members(s), m, n)
    ensures n in MergedSources(s) && MergedSources(s)[n].basePath == m.sources[n].basePath
    decreases |s|
  {
    hide Before, TextLess, Ordered, Members;
    var last := s[|s| - 1];
    var init := s[..|s| - 1];
    SplitLast(hash, s);
    if exists o :: o in init && n in o.sources {
      m := SourceWinner(hash, init, n);
    } else {
      SourcesFromCopies(init, n);
      m := last;
      BeforeIsOrder(hash, m, m, m);
    }
  }

  lemma {:induction false} SourcesFromCopies(s: seq<Manifest>, n: string)
    ensures n in MergedSources(s) <==> exists o :: o in s && n in o.sources
    decreases |s|
  {
    if s != [] {
      var last := s[|s| - 1];
      var init := s[..|s| - 1];
      assert s == init + [last];
      SourcesFromCopies(init, n);
      assert last in s;
      assert forall o :: o in init ==> o in s;
    }
  }

  /** Adding a later copy: its tombstone wins only with a strictly later deletion time. */
  lemma LaterTombstone(
    hash: ContentHash, copies: set<Manifest>, m: Manifest, last: Manifest, k: string) returns (w: Manifest)
    requires WinsTombstone(hash, copies, m, k)
    requires forall o :: o in copies ==> !Before(hash, last, o)
    ensures WinsTombstone(hash, copies + {last}, w, k)
    ensures w == if k in last.tombstones && TextLess(m.tombstones[k].deletedAt, last.tombstones[k].deletedAt)
                 then last else m
  {
    hide Before, TextLess;
    w := if k in last.tombstones && TextLess(m.tombstones[k].deletedAt, last.tombstones[k].deletedAt) then last else m;
    var at := w.tombstones[k].deletedAt;
    forall o | o in copies + {last} && k in o.tombstones
      ensures !TextLess(at, o.tombstones[k].deletedAt)
      ensures o.tombstones[k].deletedAt == at ==> !Before(hash, o, w)
    {
      TextLessIsOrder(m.tombstones[k].deletedAt, at, o.tombstones[k].deletedAt);
      TextLessIsOrder(at, at, at);
      BeforeIsOrder(hash, w, w, w);
    }
  }

  lemma {:induction false} TombstoneWinner(hash: ContentHash, s: seq<Manifest>, k: string) returns (m: Manifest)
    requires Ordered(hash, s)
    requires exists o :: o in s && k in o.tombstones
    ensures WinsTombstone(hash, Members(s), m, k)
    ensures k in MergedTombstones(s) && MergedTombstones(s)[k] == m.tombstones[k]
    decreases |s|
  {
    hide Before, TextLess, Ordered, Members;
    var last := s[|s| - 1];
    var init := s[..|s| - 1];
    SplitLast(hash, s);
    if exists o :: o in init && k in o.tombstones {
      m := TombstoneWinner(hash, init, k);
      m := LaterTombstone(hash, Members(init), m, last, k);
    } else {
      TombstonesFromCopies(init, k);
      m := last;
      BeforeIsOrder(hash, m, m, m);
      TextLessIsOrder(m.tombstones[k].deletedAt, m.tombstones[k].deletedAt, m.tombstones[k].deletedAt);
    }
  }

  lemma {:induction false} TombstonesFromCopies(s: seq<Manifest>, k: string)
    ensures k in MergedTombstones(s) <==> exists o :: o in s && k in o.tombstones
    decreases |s|
  {
    if s != [] {
      var last := s[|s| - 1];
      var init := s[..|s| - 1];
      assert s == init + [last];
      TombstonesFromCopies(init, k);
      assert last in s;
      assert forall o :: o in init ==> o in s;
    }
  }

  /** The merged manifest, described without its computation. */
  lemma MergeMeaning(hash: ContentHash, copies: seq<Manifest>, n: string, p: string, k: string)
    requires copies != []
    ensures
      var merged := Merge(hash, copies);
      && (Lists(merged.sources, n, p) <==> exists o :: o in copies && Lists(o.sources, n, p))
      && (Lists(merged.sources, n, p) ==>
            exists m :: WinsPath(hash, Members(copies), m, n, p)
                        && Files(merged.sources, n)[p] == Files(m.sources, n)[p])
      && (k in merged.tombstones <==> exists o :: o in copies && k in o.tombstones)
      && (k in merged.tombstones ==>
            exists m :: WinsTombstone(hash, Members(copies), m, k) && merged.tombstones[k] == m.tombstones[k])
  {
    var s := Sorted(hash, copies);
    SortedIsOrdered(hash, copies);
    SortedSameMembers(hash, copies);
    assert Members(s) == Members(copies);
    if exists o :: o in s && Lists(o.sources, n, p) {
      var _ := PathWinner(hash, s, n, p);
    } else if Lists(MergedSources(s), n, p) {
      NothingInvented(s, n, p);
    }
    TombstonesFromCopies(s, k);
    if exists o :: o in s && k in o.tombstones {
      var _ := TombstoneWinner(hash, s, k);
    }
  }

  /** The rest of the merged manifest: its own fields are those of a latest copy, and each
      source, there if any copy has it, keeps the base path of the earliest copy with it. */
  lemma MergeKeepsHeader(hash: ContentHash, copies: seq<Manifest>, n: string) returns (latest: Manifest)
    requires copies != []
    ensures latest in copies && forall o :: o in copies ==> !Before(hash, latest, o)
    ensures
      var merged := Merge(hash, copies);
      && merged == latest.(sources := merged.sources, tombstones := merged.tombstones)
      && (n in merged.sources <==> exists o :: o in copies && n in o.sources)
      && (n in merged.sources ==>
            exists m :: FirstWithSource(hash, Members(copies), m, n)
                        && merged.sources[n].basePath == m.sources[n].basePath)
  {
    hide Before, TextLess;
    var s := Sorted(hash, copies);
    SortedIsOrdered(hash, copies);
    SortedSameMembers(hash, copies);
    assert Members(s) == Members(copies);
    latest := s[|s| - 1];
    assert latest in s;
    forall o | o in copies
      ensures !Before(hash, latest, o)
    {
      assert o in s;
      var i :| 0 <= i < |s| && s[i] == o;
      BeforeIsOrder(hash, latest, latest, latest);
    }
    SourcesFromCopies(s, n);
    if exists o :: o in s && n in o.sources {
      var _ := SourceWinner(hash, s, n);
    }
  }

  /** Under an injective hash, two copies neither of which is before the other are equal. */
  lemma KeysDecide(hash: ContentHash, copies: set<Manifest>, a: Manifest, b: Manifest)
    requires Distinguishes(hash, copies) && a in copies && b in copies
    requires !Before(hash, a, b) && !Before(hash, b, a)
    ensures a == b
  {
    BeforeIsOrder(hash, a, b, a);
  }

  /** Listing order and duplicates of the copies do not matter. */
  lemma MergeIgnoresListing(hash: ContentHash, one: seq<Manifest>, two: seq<Manifest>)
    requires one != [] && two != []
    requires Members(one) == Members(two)
    requires Distinguishes(hash, Members(one))
    ensures Merge(hash, one) == Merge(hash, two)
  {
    var copies := Members(one);
    var s, t := Sorted(hash, one), Sorted(hash, two);
    SortedIsOrdered(hash, one);
    SortedIsOrdered(hash, two);
    SortedSameMembers(hash, one);
    SortedSameMembers(hash, two);
    assert forall m :: m in one <==> m in copies;
    assert forall m :: m in two <==> m in Members(two);
    assert Members(s) == copies && Members(t) == copies;
    SameLast(hash, s, t, copies);
    SameSources(hash, s, t, copies);
    SameTombstones(hash, s, t, copies);
  }

  lemma SameLast(hash: ContentHash, s: seq<Manifest>, t: seq<Manifest>, copies: set<Manifest>)
    requires s != [] && t != [] && Ordered(hash, s) && Ordered(hash, t)
    requires Members(s) == copies && Members(t) == copies
    requires Distinguishes(hash, copies)
    ensures s[|s| - 1] == t[|t| - 1]
  {
    var a, b := s[|s| - 1], t[|t| - 1];
    assert a in s && b in t;
    assert a in copies && b in copies;
    var i :| 0 <= i < |s| && s[i] == b;
    var j :| 0 <= j < |t| && t[j] == a;
    BeforeIsOrder(hash, a, a, a);
    BeforeIsOrder(hash, b, b, b);
    KeysDecide(hash, copies, a, b);
  }

  lemma SameSources(hash: ContentHash, s: seq<Manifest>, t: seq<Manifest>, copies: set<Manifest>)
    requires Ordered(hash, s) && Ordered(hash, t)
    requires Members(s) == copies && Members(t) == copies
    requires Distinguishes(hash, copies)
    ensures MergedSources(s) == MergedSources(t)
  {
    var a, b := MergedSources(s), MergedSources(t);
    assert forall m :: m in s <==> m in copies;
    assert forall m :: m in t <==> m in copies;
    forall n
      ensures n in a <==> n in b
    {
      SourcesFromCopies(s, n);
      SourcesFromCopies(t, n);
    }
    forall n | n in a
      ensures a[n] == b[n]
    {
      SourcesFromCopies(s, n);
      SourcesFromCopies(t, n);
      var x := SourceWinner(hash, s, n);
      var y := SourceWinner(hash, t, n);
      KeysDecide(hash, copies, x, y);
      forall p
        ensures p in a[n].files <==> p in b[n].files
        ensures p in a[n].files ==> a[n].files[p] == b[n].files[p]
      {
        if p in a[n].files || p in b[n].files {
          if p in a[n].files {
            NothingInvented(s, n, p);
          } else {
            NothingInvented(t, n, p);
          }
          var v := PathWinner(hash, s, n, p);
          var w := PathWinner(hash, t, n, p);
          KeysDecide(hash, copies, v, w);
        }
      }
      assert a[n].files == b[n].files;
    }
  }

  lemma SameTombstones(hash: ContentHash, s: seq<Manifest>, t: seq<Manifest>, copies: set<Manifest>)
    requires Ordered(hash, s) && Ordered(hash, t)
    requires Members(s) == copies && Members(t) == copies
    requires Distinguishes(hash, copies)
    ensures MergedTombstones(s) == MergedTombstones(t)
  {
    var a, b := MergedTombstones(s), MergedTombstones(t);
    assert forall m :: m in s <==> m in copies;
    assert forall m :: m in t <==> m in copies;
    forall k
      ensures k in a <==> k in b
      ensures k in a ==> a[k] == b[k]
    {
      TombstonesFromCopies(s, k);
      TombstonesFromCopies(t, k);
      if k in a {
        var x := TombstoneWinner(hash, s, k);
        var y := TombstoneWinner(hash, t, k);
        TextLessIsOrder(x.tombstones[k].deletedAt, y.tombstones[k].deletedAt, x.tombstones[k].deletedAt);
        KeysDecide(hash, copies, x, y);
      }
    }
  }
}
