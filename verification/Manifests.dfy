/** The manifest a device publishes, its tombstone keys, the byte diff between two
    manifests and the comparison that generates tombstones. */
module Manifests {

  datatype Option<+T> = None | Some(value: T)

  /** One published revision. `mtime` is None where a loaded manifest carried no string. */
  datatype Entry = Entry(sha: string, size: int, mtime: Option<string>)

  datatype Source = Source(basePath: string, files: map<string, Entry>)

  datatype Tombstone = Tombstone(deletedAt: string, device: string)

  datatype Manifest = Manifest(
    device: string,
    deviceName: string,
    timestamp: string,
    sources: map<string, Source>,
    tombstones: map<string, Tombstone>)

  const TOMBSTONE_TTL_SECONDS := 30 * 86400

  /** Files of one source, empty when the source is absent. */
  function Files(sources: map<string, Source>, name: string): map<string, Entry> {
    if name in sources then sources[name].files else map[]
  }

  predicate Lists(sources: map<string, Source>, name: string, path: string) {
    path in Files(sources, name)
  }

  // ---- tombstone keys -------------------------------------------------

  function Key(name: string, path: string): string {
    name + ":" + path
  }

  /** Splits a key at its first colon; a bare key belongs to the claude source. */
  function KeyOwner(key: string): (string, string) {
    if ':' in key then SplitAtColon(key) else ("claude", key)
  }

  function SplitAtColon(key: string): (r: (string, string))
    requires ':' in key
    ensures ':' !in r.0
    ensures key == Key(r.0, r.1)
  {
    if key[0] == ':' then
      assert key == [':'] + key[1..];
      ([], key[1..])
    else
      assert key == [key[0]] + key[1..];
      var rest := SplitAtColon(key[1..]);
      ([key[0]] + rest.0, rest.1)
  }

  /** With a colon-free source name the key names exactly one source and path. */
  lemma {:induction false} KeyOwnerOfKey(name: string, path: string)
    requires ':' !in name
    ensures ':' in Key(name, path)
    ensures KeyOwner(Key(name, path)) == (name, path)
    decreases |name|
  {
    var key := Key(name, path);
    assert key[|name|] == ':';
    if name == [] {
      assert key[1..] == path;
    } else {
      KeyOwnerOfKey(name[1..], path);
      assert key[1..] == Key(name[1..], path);
      assert name == [name[0]] + name[1..];
    }
  }

  /** No other of these source names, followed by a colon, begins the key. */
  predicate Unclaimed(names: set<string>, name: string, path: string) {
    forall x | x in names :: x == name || !(x + ":" <= Key(name, path))
  }

  /** Unclaimed, exactly: no other file of these sources can have the same key. */
  lemma UnclaimedExactly(names: set<string>, name: string, path: string)
    ensures Unclaimed(names, name, path) <==>
      forall x, y :: x in names && Key(x, y) == Key(name, path) ==> x == name && y == path
  {
    forall x, y | x in names && Key(x, y) == Key(name, path)
      ensures x + ":" <= Key(name, path)
      ensures x == name ==> y == path
    {
      SameKeySamePath(x, y, path);
      assert Key(x, y)[..|x| + 1] == x + ":";
    }
    if !Unclaimed(names, name, path) {
      var x :| x in names && x != name && x + ":" <= Key(name, path);
      assert Key(x, ClaimedBy(x, name, path)) == Key(name, path);
    }
  }

  /** Two paths of one source have two keys. */
  lemma SameKeySamePath(name: string, one: string, two: string)
    ensures Key(name, one) == Key(name, two) ==> one == two
  {
    assert Key(name, one)[|name| + 1..] == one && Key(name, two)[|name| + 1..] == two;
  }

  /** The path of source `x` that has the key of another source's `path`. */
  function ClaimedBy(x: string, name: string, path: string): (y: string)
    requires x + ":" <= Key(name, path)
    ensures Key(x, y) == Key(name, path)
  {
    assert Key(name, path) == (x + ":") + Key(name, path)[|x| + 1..];
    Key(name, path)[|x| + 1..]
  }

  predicate IsTombstoned(name: string, path: string, tombstones: map<string, Tombstone>) {
    Key(name, path) in tombstones
  }

  /** Keys of every file in `sources`. */
  function LiveKeys(sources: map<string, Source>): set<string> {
    set n, p | n in sources && p in sources[n].files :: Key(n, p)
  }

  // ---- prefixes -------------------------------------------------------

  /** True for a prefix itself and for every path below it; "." is the source root. */
  predicate UnderPrefix(path: string, prefixes: set<string>) {
    exists r | r in prefixes :: r == "." || path == r || r + "/" <= path
  }

  // ---- byte diff ------------------------------------------------------

  /** Paths whose bytes the remote does not hold: new, or with another digest. */
  function ChangedPaths(local: map<string, Entry>, remote: map<string, Entry>): set<string> {
    set p | p in local && (p !in remote || local[p].sha != remote[p].sha)
  }

  predicate HasChanges(local: map<string, Entry>, remote: map<string, Entry>) {
    ChangedPaths(local, remote) != {} || exists p | p in remote :: p !in local
  }

  /** A source of the local manifest differs from the remote in bytes or in its file set. */
  predicate AnySourceChanged(local: map<string, Source>, remote: map<string, Source>) {
    exists n | n in local :: HasChanges(local[n].files, Files(remote, n))
  }

  // ---- tombstones -----------------------------------------------------

  predicate Active(parse: string -> Option<int>, t: Tombstone, now: int) {
    parse(t.deletedAt).Some? && parse(t.deletedAt).value > now - TOMBSTONE_TTL_SECONDS
  }

  /** Prior tombstones that have not expired. */
  function Carried(parse: string -> Option<int>, prior: map<string, Tombstone>, now: int): map<string, Tombstone> {
    map k | k in prior && Active(parse, prior[k], now) :: prior[k]
  }

  /** Keys of the prior's paths that the local manifest no longer has. */
  function DroppedKeys(local: map<string, Source>, prior: map<string, Source>): set<string> {
    set n, p | n in prior && p in prior[n].files && p !in Files(local, n) :: Key(n, p)
  }

  /** A clock reading: the instant and the ISO string written for it. */
  datatype Clock = Clock(now: int, iso: string)

  function GenerateTombstones(
    parse: string -> Option<int>, local: map<string, Source>, prior: Option<Manifest>, clock: Clock, device: string)
    : map<string, Tombstone>
  {
    match prior
    case None => map[]
    case Some(m) =>
      var carried := Carried(parse, m.tombstones, clock.now);
      var minted := DroppedKeys(local, m.sources) - carried.Keys;
      var all := carried + map k | k in minted :: Tombstone(clock.iso, device);
      all - LiveKeys(local)
  }

  /** The generated keys, in terms of the three sets the comparison combines. */
  lemma GeneratedKeys(
    parse: string -> Option<int>, local: map<string, Source>, prior: Option<Manifest>, clock: Clock, device: string,
    k: string)
    ensures
      var t := GenerateTombstones(parse, local, prior, clock, device);
      k in t <==>
        && prior.Some?
        && k !in LiveKeys(local)
        && ((k in prior.value.tombstones && Active(parse, prior.value.tombstones[k], clock.now))
            || k in DroppedKeys(local, prior.value.sources))
    ensures
      var t := GenerateTombstones(parse, local, prior, clock, device);
      k in t ==> (t[k] ==
                  if k in prior.value.tombstones && Active(parse, prior.value.tombstones[k], clock.now)
                  then prior.value.tombstones[k] else Tombstone(clock.iso, device))
  {
  }

  /** The deletion is dated, less than thirty days before this clock. */
  predicate Dated(parse: string -> Option<int>, t: Tombstone, now: int) {
    parse(t.deletedAt).Some? && now - parse(t.deletedAt).value < 2592000
  }

  /** What a key of the result means, in both directions: a prior tombstone less than thirty
      days old, unchanged, or the key of a path the prior published and the local manifest
      lost; never the key of a path that is live. */
  lemma TombstoneMeaning(
    parse: string -> Option<int>, local: map<string, Source>, prior: Option<Manifest>, clock: Clock, device: string,
    k: string)
    ensures
      var t := GenerateTombstones(parse, local, prior, clock, device);
      k in t <==>
        && prior.Some?
        && !(exists n, p | n in local && p in local[n].files :: Key(n, p) == k)
        && ((k in prior.value.tombstones && Dated(parse, prior.value.tombstones[k], clock.now))
            || (exists n, p | Lists(prior.value.sources, n, p) && !Lists(local, n, p) :: Key(n, p) == k))
    ensures
      var t := GenerateTombstones(parse, local, prior, clock, device);
      k in t ==> (t[k] ==
                  if k in prior.value.tombstones && Dated(parse, prior.value.tombstones[k], clock.now)
                  then prior.value.tombstones[k] else Tombstone(clock.iso, device))
  {
    hide GenerateTombstones, LiveKeys, DroppedKeys, Lists, Key;
    GeneratedKeys(parse, local, prior, clock, device, k);
    LiveKeyMeaning(local, k);
    if prior.Some? {
      DroppedKeyMeaning(local, prior.value.sources, k);
    }
  }

  lemma LiveKeyMeaning(sources: map<string, Source>, k: string)
    ensures k in LiveKeys(sources) <==> exists n, p | n in sources && p in sources[n].files :: Key(n, p) == k
  {
  }

  lemma DroppedKeyMeaning(local: map<string, Source>, prior: map<string, Source>, k: string)
    ensures k in DroppedKeys(local, prior) <==>
      exists n, p | Lists(prior, n, p) && !Lists(local, n, p) :: Key(n, p) == k
  {
  }

  /** No file is both published and tombstoned by the same push. */
  predicate NoLiveTombstone(m: Manifest) {
    forall k :: k in m.tombstones ==> k !in LiveKeys(m.sources)
  }
}
