/** Durable JSON read-modify-write: a sibling lock file, a temp file written chunk by chunk
    and renamed over the data path, and readers that take no lock. Any process may fail or
    die between two system calls, also after the rename. */
module DurableJson {
  import opened TextOrder
  import opened Manifests
  import L = LockFile

  type Bytes = seq<Byte>
  type Pid = L.Pid
  type Inode = nat

  /** The caller's dictionary; what it does to it is arbitrary. */
  type Document = map<string, string>
  type Mutator = Document -> Document

  const MAX_BYTES := 64 * 1024 * 1024

  /** Foreign functions and the caller's default for a missing file. */
  datatype Format = Format(parse: Bytes -> Option<Document>, encode: Document -> Bytes, initial: Document)

  /** One visible replacement: the document read, the mutator, and what was written. */
  datatype Update = Update(read: Document, mutator: Mutator, written: Document)

  /** What the lock's owner has done since it acquired. */
  datatype Work =
    | Idle
    | HasRead(document: Document)
    | Mutated(read: Document, mutator: Mutator)
    | Staging(read: Document, mutator: Mutator, temp: Inode)
    | Published

  /** A lock-free reader's open descriptor, with the version the path named at the open. */
  datatype Reader = Reader(inode: Inode, version: nat)

  datatype State = State(
    lock: L.State,
    files: map<Inode, Bytes>,
    path: Option<Inode>,
    original: Option<Bytes>,
    work: map<Pid, Work>,
    readers: map<Pid, Reader>,
    history: seq<Update>)

  /** System calls. `WriteChunk` is one write to the temp file; `LockStep` is a step of the
      lock protocol, whose `Leave` is a finish, an error - a failed flush included - or a
      crash. */
  datatype Action =
    | LockStep(step: L.Action)
    | Read
    | Mutate(mutator: Mutator)
    | MakeTemp(unused: Inode)
    | WriteChunk(bytes: nat)
    | Replace
    | ReaderOpen
    | ReaderClose

  function WorkOf(s: State, p: Pid): Work {
    if p in s.work then s.work[p] else Idle
  }

  /** The bytes of the n-th visible version; version 0 is what was there at the start. */
  function Version(fmt: Format, s: State, n: nat): Option<Bytes>
    requires n <= |s.history|
  {
    if n == 0 then s.original else Some(fmt.encode(s.history[n - 1].written))
  }

  /** What a writer makes of the file it finds: None is a refusal. */
  function Parsed(fmt: Format, content: Option<Bytes>): Option<Document> {
    if content.None? then Some(fmt.initial)
    else if |content.value| > MAX_BYTES then None
    else fmt.parse(content.value)
  }

  function Content(s: State): Option<Bytes> {
    if s.path.None? then None
    else if s.path.value in s.files then Some(s.files[s.path.value])
    else None
  }

  /** Leaving drops the lock and forgets the work. */
  function Left(s: State, p: Pid): State {
    s.(lock := L.Closed(s.lock, p), work := s.work[p := Idle])
  }

  function Step(fmt: Format, s: State, p: Pid, a: Action): Option<State> {
    var w := WorkOf(s, p);
    var owns := L.Owns(L.ProcOf(s.lock, p));
    match a
    case LockStep(step) =>
      if step.Unlink? || L.Step(s.lock, p, step).None? then None
      else Some(s.(lock := L.Step(s.lock, p, step).value, work := if step.Leave? then s.work[p := Idle] else s.work))
    case Read =>
      if !owns || !w.Idle? then None
      else
        var document := Parsed(fmt, Content(s));
        if document.None? then Some(Left(s, p)) else Some(s.(work := s.work[p := HasRead(document.value)]))
    case Mutate(mutator) =>
      if !owns || !w.HasRead? then None else Some(s.(work := s.work[p := Mutated(w.document, mutator)]))
    case MakeTemp(unused) =>
      if !owns || !w.Mutated? || unused in s.files then None
      else if |fmt.encode(w.mutator(w.read))| > MAX_BYTES then Some(Left(s, p))
      else
        Some(s.(files := s.files[unused := []], work := s.work[p := Staging(w.read, w.mutator, unused)]))
    case WriteChunk(bytes) =>
      if !owns || !w.Staging? || w.temp !in s.files then None
      else
        var payload := fmt.encode(w.mutator(w.read));
        var done := |s.files[w.temp]|;
        if done + bytes > |payload| then None
        else Some(s.(files := s.files[w.temp := s.files[w.temp] + payload[done..done + bytes]]))
    case Replace =>
      if !owns || !w.Staging? || w.temp !in s.files then None
      else if |s.files[w.temp]| < |fmt.encode(w.mutator(w.read))| then None
      else
        Some(s.(path := Some(w.temp), history := s.history + [Update(w.read, w.mutator, w.mutator(w.read))],
                work := s.work[p := Published]))
    case ReaderOpen =>
      if s.path.None? then Some(s) else Some(s.(readers := s.readers[p := Reader(s.path.value, |s.history|)]))
    case ReaderClose => Some(s.(readers := map q | q in s.readers && q != p :: s.readers[q]))
  }

  // ---- the invariant -------------------------------------------------------------

  /** The path always names the complete current version. */
  ghost predicate CurrentIsComplete(fmt: Format, s: State) {
    && (s.path.Some? ==> s.path.value in s.files)
    && Content(s) == Version(fmt, s, |s.history|)
  }

  /** Each version is the mutator applied to the version visible just before it. */
  ghost predicate NoLostUpdate(fmt: Format, s: State) {
    forall k | 0 <= k < |s.history| ::
      && Parsed(fmt, Version(fmt, s, k)) == Some(s.history[k].read)
      && s.history[k].written == s.history[k].mutator(s.history[k].read)
  }

  /** The document a writer works on is the current one. */
  function ReadOf(w: Work): Option<Document> {
    match w
    case HasRead(document) => Some(document)
    case Mutated(read, _) => Some(read)
    case Staging(read, _, _) => Some(read)
    case _ => None
  }

  ghost predicate OwnWork(fmt: Format, s: State, p: Pid) {
    var w := WorkOf(s, p);
    && (!w.Idle? ==> L.Owns(L.ProcOf(s.lock, p)))
    && (ReadOf(w).Some? ==> Parsed(fmt, Content(s)) == ReadOf(w))
    && (w.Staging? ==>
          && w.temp in s.files && s.path != Some(w.temp) && s.files[w.temp] <= fmt.encode(w.mutator(w.read))
          && forall q :: q in s.readers ==> s.readers[q].inode != w.temp)
  }

  /** A reader holds one complete version: the one the path named when it opened it. */
  ghost predicate ReadersSeeVersions(fmt: Format, s: State) {
    forall q | q in s.readers ::
      && s.readers[q].inode in s.files && s.readers[q].version <= |s.history|
      && Version(fmt, s, s.readers[q].version) == Some(s.files[s.readers[q].inode])
  }

  ghost predicate Inv(fmt: Format, s: State) {
    && L.Inv(s.lock) && CurrentIsComplete(fmt, s) && NoLostUpdate(fmt, s)
    && (forall p :: OwnWork(fmt, s, p)) && ReadersSeeVersions(fmt, s)
  }

  // ---- every step keeps it ---------------------------------------------------------

  lemma VersionsGrow(fmt: Format, s: State, t: State, n: nat)
    requires s.history <= t.history && s.original == t.original && n <= |s.history|
    ensures Version(fmt, t, n) == Version(fmt, s, n)
  {
  }

  lemma StepHistory(fmt: Format, s: State, p: Pid, a: Action, t: State)
    requires Step(fmt, s, p, a) == Some(t)
    ensures t.original == s.original && s.history <= t.history
    ensures !a.Replace? ==> t.history == s.history && t.path == s.path
  {
  }

  /** The lock part of any step is a step of the lock protocol or leaves the lock alone. */
  lemma StepLock(fmt: Format, s: State, p: Pid, a: Action, t: State)
    requires L.Inv(s.lock) && Step(fmt, s, p, a) == Some(t)
    ensures L.Inv(t.lock)
    ensures forall q :: q != p ==> L.ProcOf(t.lock, q) == L.ProcOf(s.lock, q) && WorkOf(t, q) == WorkOf(s, q)
  {
    hide L.Inv;
    if a.LockStep? {
      L.StepKeepsInv(s.lock, p, a.step, t.lock);
    } else if t.lock != s.lock {
      assert L.Step(s.lock, p, L.Leave) == Some(t.lock);
      L.StepKeepsInv(s.lock, p, L.Leave, t.lock);
    }
  }

  /** Only the temp file of the process that owns the lock ever changes. */
  lemma StepWrites(fmt: Format, s: State, p: Pid, a: Action, t: State, i: Inode)
    requires Step(fmt, s, p, a) == Some(t) && i in s.files
    ensures i in t.files
    ensures t.files[i] != s.files[i] ==> WorkOf(s, p).Staging? && WorkOf(s, p).temp == i
  {
  }

  lemma StepKeepsCurrent(fmt: Format, s: State, p: Pid, a: Action, t: State)
    requires Inv(fmt, s) && Step(fmt, s, p, a) == Some(t)
    ensures CurrentIsComplete(fmt, t)
    ensures !a.Replace? ==> Content(t) == Content(s)
  {
    hide L.Inv, NoLostUpdate, ReadersSeeVersions;
    StepHistory(fmt, s, p, a, t);
    assert OwnWork(fmt, s, p);
    if s.path.Some? {
      StepWrites(fmt, s, p, a, t, s.path.value);
    }
    if a.Replace? {
      ReplaceIsComplete(fmt, s, p, t);
    }
  }

  lemma ReplaceIsComplete(fmt: Format, s: State, p: Pid, t: State)
    requires OwnWork(fmt, s, p) && Step(fmt, s, p, Replace) == Some(t)
    ensures t.path.Some? && t.path.value in t.files && Content(t) == Version(fmt, t, |t.history|)
    ensures |t.history| == |s.history| + 1
    ensures
      var u := t.history[|s.history|];
      Parsed(fmt, Content(s)) == Some(u.read) && u.written == u.mutator(u.read)
  {
    var w := WorkOf(s, p);
    var payload := fmt.encode(w.mutator(w.read));
    assert s.files[w.temp] == payload;
  }

  /** The version a replacement makes is its mutator applied to the one before it. */
  lemma ReplaceChains(fmt: Format, s: State, p: Pid, t: State)
    requires CurrentIsComplete(fmt, s) && OwnWork(fmt, s, p) && Step(fmt, s, p, Replace) == Some(t)
    ensures
      var k := |s.history|;
      && |t.history| == k + 1 && Parsed(fmt, Version(fmt, s, k)) == Some(t.history[k].read)
      && t.history[k].written == t.history[k].mutator(t.history[k].read)
  {
    hide Parsed, Content, Version, L.ProcOf, L.Owns;
  }

  lemma StepKeepsUpdates(fmt: Format, s: State, p: Pid, a: Action, t: State)
    requires Inv(fmt, s) && Step(fmt, s, p, a) == Some(t)
    ensures NoLostUpdate(fmt, t)
  {
    hide L.Inv, ReadersSeeVersions, CurrentIsComplete, Step, OwnWork, Parsed, Version;
    StepHistory(fmt, s, p, a, t);
    if a.Replace? {
      assert OwnWork(fmt, s, p);
      ReplaceChains(fmt, s, p, t);
    }
    forall k | 0 <= k < |t.history|
      ensures Parsed(fmt, Version(fmt, t, k)) == Some(t.history[k].read)
      ensures t.history[k].written == t.history[k].mutator(t.history[k].read)
    {
      VersionsGrow(fmt, s, t, k);
    }
  }

  lemma StepKeepsReaders(fmt: Format, s: State, p: Pid, a: Action, t: State)
    requires Inv(fmt, s) && Step(fmt, s, p, a) == Some(t)
    ensures ReadersSeeVersions(fmt, t)
  {
    hide L.Inv, NoLostUpdate;
    StepHistory(fmt, s, p, a, t);
    assert OwnWork(fmt, s, p);
    forall q | q in t.readers
      ensures t.readers[q].inode in t.files && t.readers[q].version <= |t.history|
      ensures Version(fmt, t, t.readers[q].version) == Some(t.files[t.readers[q].inode])
    {
      if q in s.readers && t.readers[q] == s.readers[q] {
        StepWrites(fmt, s, p, a, t, s.readers[q].inode);
        VersionsGrow(fmt, s, t, s.readers[q].version);
      }
    }
  }

  lemma StepKeepsWork(fmt: Format, s: State, p: Pid, a: Action, t: State, q: Pid)
    requires Inv(fmt, s) && Step(fmt, s, p, a) == Some(t)
    ensures OwnWork(fmt, t, q)
  {
    hide NoLostUpdate, L.Inv;
    assert OwnWork(fmt, s, p) && OwnWork(fmt, s, q);
    StepLock(fmt, s, p, a, t);
    StepKeepsCurrent(fmt, s, p, a, t);
    if q == p {
      OwnStepWork(fmt, s, p, a, t);
    } else {
      OtherStepWork(fmt, s, p, a, t, q);
    }
  }

  lemma OwnStepWork(fmt: Format, s: State, p: Pid, a: Action, t: State)
    requires Inv(fmt, s) && OwnWork(fmt, s, p) && Step(fmt, s, p, a) == Some(t)
    requires L.Inv(t.lock) && (!a.Replace? ==> Content(t) == Content(s))
    ensures OwnWork(fmt, t, p)
  {
    hide NoLostUpdate, L.Inv, Parsed;
    if a.LockStep? && !WorkOf(t, p).Idle? {
      OwnerStaysOwner(s.lock, p, a.step, t.lock);
    }
    if a.MakeTemp? && WorkOf(t, p).Staging? {
      NewTempIsApart(fmt, s, p, a.unused, t);
    }
  }

  lemma OwnerStaysOwner(l: L.State, p: Pid, step: L.Action, m: L.State)
    requires L.Owns(L.ProcOf(l, p)) && L.Step(l, p, step) == Some(m) && !step.Leave?
    ensures L.Owns(L.ProcOf(m, p))
  {
  }

  lemma NewTempIsApart(fmt: Format, s: State, p: Pid, unused: Inode, t: State)
    requires CurrentIsComplete(fmt, s) && ReadersSeeVersions(fmt, s)
    requires Step(fmt, s, p, MakeTemp(unused)) == Some(t) && WorkOf(t, p).Staging?
    ensures t.path != Some(unused) && forall q :: q in t.readers ==> t.readers[q].inode != unused
  {
  }

  lemma OtherStepWork(fmt: Format, s: State, p: Pid, a: Action, t: State, q: Pid)
    requires Inv(fmt, s) && OwnWork(fmt, s, p) && OwnWork(fmt, s, q) && q != p && Step(fmt, s, p, a) == Some(t)
    requires L.ProcOf(t.lock, q) == L.ProcOf(s.lock, q) && WorkOf(t, q) == WorkOf(s, q)
    requires !a.Replace? ==> Content(t) == Content(s)
    ensures OwnWork(fmt, t, q)
  {
    hide NoLostUpdate, Parsed, L.Step;
    var w := WorkOf(s, q);
    if !w.Idle? {
      if L.Owns(L.ProcOf(s.lock, p)) {
        L.OneOwner(s.lock, p, q);
      }
      if w.Staging? {
        StepWrites(fmt, s, p, a, t, w.temp);
      }
    }
  }

  lemma StepKeepsInv(fmt: Format, s: State, p: Pid, a: Action, t: State)
    requires Inv(fmt, s) && Step(fmt, s, p, a) == Some(t)
    ensures Inv(fmt, t)
  {
    hide L.Inv, CurrentIsComplete, NoLostUpdate, OwnWork, ReadersSeeVersions, Step;
    StepLock(fmt, s, p, a, t);
    StepKeepsCurrent(fmt, s, p, a, t);
    StepKeepsUpdates(fmt, s, p, a, t);
    StepKeepsReaders(fmt, s, p, a, t);
    forall q
      ensures OwnWork(fmt, t, q)
    {
      StepKeepsWork(fmt, s, p, a, t, q);
    }
  }

  // ---- every run ------------------------------------------------------------------

  datatype Event = Event(pid: Pid, action: Action)

  /** Nothing is running; the data file may be missing, valid or corrupt. */
  ghost predicate Start(s: State) {
    && L.Start(s.lock) && s.work == map[] && s.readers == map[] && s.history == []
    && (s.path.Some? ==> s.path.value in s.files) && s.original == Content(s)
  }

  ghost predicate Run(fmt: Format, states: seq<State>, events: seq<Event>) {
    && |states| == |events| + 1 && Start(states[0])
    && forall i | 0 <= i < |events| :: Step(fmt, states[i], events[i].pid, events[i].action) == Some(states[i + 1])
  }

  lemma {:induction false} RunKeepsInv(fmt: Format, states: seq<State>, events: seq<Event>, i: nat)
    requires Run(fmt, states, events) && i < |states|
    ensures Inv(fmt, states[i])
    ensures states[0].original == states[i].original
  {
    if i > 0 {
      hide Inv, Step;
      RunKeepsInv(fmt, states, events, i - 1);
      StepKeepsInv(fmt, states[i - 1], events[i - 1].pid, events[i - 1].action, states[i]);
      StepHistory(fmt, states[i - 1], events[i - 1].pid, events[i - 1].action, states[i]);
    }
  }

  /** Over every interleaving, with failures and crashes anywhere: the visible file is the
      last version, and each version is the mutator of one update applied to the document
      of the version before it. */
  lemma VisibleVersionsChain(fmt: Format, states: seq<State>, events: seq<Event>, i: nat, k: nat)
    requires Run(fmt, states, events) && i < |states|
    ensures
      var s := states[i];
      && (s.path.Some? ==> s.path.value in s.files)
      && (if s.path.Some? then Some(s.files[s.path.value]) else None)
         == (if |s.history| == 0 then states[0].original else Some(fmt.encode(s.history[|s.history| - 1].written)))
      && (k < |s.history| ==>
            && s.history[k].written == s.history[k].mutator(s.history[k].read)
            && ReadFrom(fmt, if k == 0 then states[0].original else Some(fmt.encode(s.history[k - 1].written)),
                        s.history[k].read))
  {
    RunKeepsInv(fmt, states, events, i);
  }

  /** A writer takes a missing file for the default, and any other only if it is not too
      large and parses. */
  ghost predicate ReadFrom(fmt: Format, content: Option<Bytes>, document: Document) {
    if content.None? then document == fmt.initial
    else |content.value| <= MAX_BYTES && fmt.parse(content.value) == Some(document)
  }

  /** At most one process works on the store, and only while it owns the lock. */
  lemma OneWriter(fmt: Format, states: seq<State>, events: seq<Event>, i: nat, p: Pid, q: Pid)
    requires Run(fmt, states, events) && i < |states|
    requires !WorkOf(states[i], p).Idle? && !WorkOf(states[i], q).Idle?
    ensures p == q && L.Owns(L.ProcOf(states[i].lock, p))
  {
    RunKeepsInv(fmt, states, events, i);
    assert OwnWork(fmt, states[i], p) && OwnWork(fmt, states[i], q);
    L.OneOwner(states[i].lock, p, q);
  }

  lemma {:induction false} HistoryGrows(fmt: Format, states: seq<State>, events: seq<Event>, i: nat, k: nat)
    requires Run(fmt, states, events) && i <= k < |states|
    ensures states[i].history <= states[k].history && states[i].original == states[k].original
    decreases k
  {
    if k > i {
      hide Step, Run;
      RunSteps(fmt, states, events, k - 1);
      HistoryGrows(fmt, states, events, i, k - 1);
      StepHistory(fmt, states[k - 1], events[k - 1].pid, events[k - 1].action, states[k]);
    }
  }

  lemma RunSteps(fmt: Format, states: seq<State>, events: seq<Event>, i: nat)
    requires Run(fmt, states, events) && i + 1 < |states|
    ensures i < |events| && Step(fmt, states[i], events[i].pid, events[i].action) == Some(states[i + 1])
  {
    hide Step;
  }

  lemma OpenNotesVersion(fmt: Format, s: State, q: Pid, t: State)
    requires Step(fmt, s, q, ReaderOpen) == Some(t) && s.path.Some?
    ensures q in t.readers && t.readers[q].version == |s.history|
  {
  }

  lemma ReaderHasVersion(fmt: Format, s: State, q: Pid)
    requires Inv(fmt, s) && q in s.readers
    ensures s.readers[q].inode in s.files && s.readers[q].version <= |s.history|
    ensures Some(s.files[s.readers[q].inode]) == Version(fmt, s, s.readers[q].version)
  {
    hide L.Inv, NoLostUpdate, OwnWork;
  }

  lemma {:induction false} ReaderStays(
    fmt: Format, states: seq<State>, events: seq<Event>, i: nat, k: nat, q: Pid)
    requires Run(fmt, states, events) && i <= k < |states| && q in states[i].readers
    requires forall j | i <= j < k && events[j].pid == q ::
               !events[j].action.ReaderOpen? && !events[j].action.ReaderClose?
    ensures q in states[k].readers && states[k].readers[q] == states[i].readers[q]
    decreases k - i
  {
    hide L.Step, Parsed;
    if i < k {
      ReaderStays(fmt, states, events, i, k - 1, q);
      assert Step(fmt, states[k - 1], events[k - 1].pid, events[k - 1].action) == Some(states[k]);
    }
  }

  /** A reader that took no lock holds, until it closes, the complete bytes of the version
      that was visible when it opened the file, whatever was published since. */
  lemma ReaderSeesOneVersion(fmt: Format, states: seq<State>, events: seq<Event>, i: nat, k: nat, q: Pid)
    requires Run(fmt, states, events) && i < k < |states|
    requires events[i] == Event(q, ReaderOpen) && states[i].path.Some?
    requires forall j | i < j < k && events[j].pid == q ::
               !events[j].action.ReaderOpen? && !events[j].action.ReaderClose?
    ensures q in states[k].readers && states[k].readers[q].inode in states[k].files
    ensures states[i].path.value in states[i].files
    ensures states[k].files[states[k].readers[q].inode] == states[i].files[states[i].path.value]
  {
    hide Step, L.Inv, NoLostUpdate, OwnWork, ReadersSeeVersions, Version, Start;
    RunKeepsInv(fmt, states, events, i);
    RunKeepsInv(fmt, states, events, k);
    OpenNotesVersion(fmt, states[i], q, states[i + 1]);
    ReaderStays(fmt, states, events, i + 1, k, q);
    ReaderHasVersion(fmt, states[k], q);
    HistoryGrows(fmt, states, events, i, k);
    VersionsGrow(fmt, states[i], states[k], |states[i].history|);
  }
}
