/** The rotatable spool: writers append rows under a flock they re-check against the
    directory entry, rotators rename the spool aside under the same lock, and any process
    may fail or die between any two system calls. */
module Spool {
  import opened TextOrder
  import opened Manifests

  type Bytes = seq<Byte>
  type Pid = nat
  type Inode = nat

  const NEWLINE: Byte := 10
  const ATTEMPTS := 8
  const LOCK_TRIES := 4

  /** Where one process is between two system calls. A writer that is `Named` or later has
      seen the path name its locked inode; so has a rotator that is `ReadyToRename`. */
  datatype Proc =
    | Out
    | Opening(row: Bytes, left: nat)
    | Waiting(inode: Inode, row: Bytes, left: nat)
    | Locked(inode: Inode, row: Bytes, left: nat)
    | Named(inode: Inode, row: Bytes)
    | Sized(inode: Inode, row: Bytes, start: nat)
    | Short(inode: Inode, row: Bytes, start: nat)
    | Wrote(inode: Inode, row: Bytes, start: nat)
    | Trying(inode: Inode, dest: string, left: nat)
    | RotatorLocked(inode: Inode, dest: string)
    | ReadyToRename(inode: Inode, dest: string)
    | Renamed(inode: Inode)

  /** A row whose append returned: the file and the offset it was written at. */
  datatype Landed = Landed(row: Bytes, inode: Inode, at: nat)

  datatype State = State(
    files: map<Inode, Bytes>,
    spool: Option<Inode>,
    taken: map<string, Inode>,
    owner: map<Inode, Pid>,
    procs: map<Pid, Proc>,
    done: seq<Landed>)

  /** One system call of one process, with the choices the world makes: the number of a
      created inode and how many bytes a write accepts. `Leave` is an error or a crash. */
  datatype Action =
    | BeginAppend(row: Bytes)
    | Open(unused: Inode)
    | Flock
    | Lstat
    | Size
    | Write(accepted: nat)
    | Truncate
    | Return
    | BeginRotate(dest: string)
    | TryLock
    | RotatorLstat
    | Rename
    | Leave

  function ProcOf(s: State, p: Pid): Proc {
    if p in s.procs then s.procs[p] else Out
  }

  /** The inode whose flock this process holds. */
  function Holds(c: Proc): Option<Inode> {
    if c.Locked? || c.Named? || c.Sized? || c.Short? || c.Wrote? || c.RotatorLocked? || c.ReadyToRename? || c.Renamed?
    then Some(c.inode) else None
  }

  /** Past the inode check and before the rename or the close. */
  predicate Checked(c: Proc) {
    c.Named? || c.Sized? || c.Short? || c.Wrote? || c.ReadyToRename?
  }

  /** A torn last row is closed by a newline before the new row. */
  function Separator(content: Bytes): Bytes {
    if content != [] && content[|content| - 1] != NEWLINE then [NEWLINE] else []
  }

  function Payload(content: Bytes, row: Bytes): Bytes {
    Separator(content) + row + [NEWLINE]
  }

  predicate OneLine(row: Bytes) {
    NEWLINE !in row
  }

  // ---- steps ------------------------------------------------------------------

  function Dropped(owner: map<Inode, Pid>, p: Pid): map<Inode, Pid> {
    map i | i in owner && owner[i] != p :: owner[i]
  }

  /** Closing the descriptor drops the lock. */
  function Closed(s: State, p: Pid, next: Proc): State {
    s.(owner := Dropped(s.owner, p), procs := s.procs[p := next])
  }

  function Moved(s: State, p: Pid, next: Proc): State {
    s.(procs := s.procs[p := next])
  }

  /** The state after `a` by `p`, or None when the process cannot take that step. */
  function Step(max: nat, s: State, p: Pid, a: Action): Option<State> {
    var c := ProcOf(s, p);
    match a
    case BeginAppend(row) =>
      if c.Out? && OneLine(row) then Some(Moved(s, p, Opening(row, ATTEMPTS))) else None
    case Open(unused) =>
      if !c.Opening? then None
      else if c.left == 0 then Some(Moved(s, p, Out))
      else if s.spool.Some? then Some(Moved(s, p, Waiting(s.spool.value, c.row, c.left - 1)))
      else if unused in s.files then None
      else
        Some(s.(files := s.files[unused := []], spool := Some(unused),
                procs := s.procs[p := Waiting(unused, c.row, c.left - 1)]))
    case Flock =>
      if c.Waiting? && c.inode !in s.owner
      then Some(s.(owner := s.owner[c.inode := p], procs := s.procs[p := Locked(c.inode, c.row, c.left)]))
      else None
    case Lstat =>
      if !c.Locked? then None
      else if s.spool == Some(c.inode) then Some(Moved(s, p, Named(c.inode, c.row)))
      else Some(Closed(s, p, Opening(c.row, c.left)))
    case Size =>
      if !c.Named? || c.inode !in s.files then None
      else if |s.files[c.inode]| + |Payload(s.files[c.inode], c.row)| > max then Some(Closed(s, p, Out))
      else Some(Moved(s, p, Sized(c.inode, c.row, |s.files[c.inode]|)))
    case Write(accepted) =>
      if !c.Sized? || c.inode !in s.files || accepted > |Payload(s.files[c.inode], c.row)| then None
      else
        var data := Payload(s.files[c.inode], c.row);
        Some(s.(files := s.files[c.inode := s.files[c.inode] + data[..accepted]],
                procs := s.procs[p := if accepted == |data| then Wrote(c.inode, c.row, c.start)
                                      else Short(c.inode, c.row, c.start)]))
    case Truncate =>
      if !c.Short? || c.inode !in s.files || c.start > |s.files[c.inode]| then None
      else Some(Closed(s.(files := s.files[c.inode := s.files[c.inode][..c.start]]), p, Out))
    case Return =>
      if !c.Wrote? || c.inode !in s.files || |s.files[c.inode]| < |c.row| + 1 then None
      else
        var at := |s.files[c.inode]| - |c.row| - 1;
        Some(Closed(s.(done := s.done + [Landed(c.row, c.inode, at)]), p, Out))
    case BeginRotate(dest) =>
      if !c.Out? then None
      else if s.spool.None? then Some(s)
      else Some(Moved(s, p, Trying(s.spool.value, dest, LOCK_TRIES)))
    case TryLock =>
      if !c.Trying? then None
      else if c.left == 0 then Some(Moved(s, p, Out))
      else if c.inode in s.owner then Some(Moved(s, p, Trying(c.inode, c.dest, c.left - 1)))
      else Some(s.(owner := s.owner[c.inode := p], procs := s.procs[p := RotatorLocked(c.inode, c.dest)]))
    case RotatorLstat =>
      if !c.RotatorLocked? then None
      else if s.spool == Some(c.inode) then Some(Moved(s, p, ReadyToRename(c.inode, c.dest)))
      else Some(Closed(s, p, Out))
    case Rename =>
      if !c.ReadyToRename? || c.dest in s.taken then None
      else
        Some(s.(spool := None, taken := s.taken[c.dest := c.inode], procs := s.procs[p := Renamed(c.inode)]))
    case Leave => Some(Closed(s, p, Out))
  }

  // ---- the invariant -------------------------------------------------------------

  /** A flock is held by exactly the process whose program counter says so. */
  ghost predicate LocksMatch(s: State) {
    forall p, i :: Holds(ProcOf(s, p)) == Some(i) <==> i in s.owner && s.owner[i] == p
  }

  /** Every file has exactly one name: the spool path or one rotation target. */
  ghost predicate NamesMatch(s: State) {
    && (forall i :: i in s.files <==> s.spool == Some(i) || exists d :: d in s.taken && s.taken[d] == i)
    && (forall d :: d in s.taken ==> s.spool != Some(s.taken[d]))
    && (forall d, e :: d in s.taken && e in s.taken && s.taken[d] == s.taken[e] ==> d == e)
  }

  /** Past the inode check the path names the locked inode, and what the writer measured
      or wrote is still there. */
  ghost predicate Working(max: nat, s: State, c: Proc) {
    && (Checked(c) ==> s.spool == Some(c.inode))
    && (c.Locked? || c.Waiting? || c.Trying? || c.RotatorLocked? ==> c.inode in s.files)
    && (c.Opening? || c.Waiting? || c.Locked? || c.Named? || c.Sized? || c.Short? || c.Wrote? ==> OneLine(c.row))
    && (c.Sized? ==> c.inode in s.files && c.start == |s.files[c.inode]|
                     && c.start + |Payload(s.files[c.inode], c.row)| <= max)
    && (c.Short? ==> c.inode in s.files && c.start <= |s.files[c.inode]|)
    && (c.Wrote? ==> c.inode in s.files && c.start <= |s.files[c.inode]|
                     && s.files[c.inode][c.start..] == Payload(s.files[c.inode][..c.start], c.row))
  }

  /** The bytes below this offset are settled while a writer is at work. */
  function Settled(s: State, i: Inode, c: Proc): nat
    requires i in s.files
  {
    if (c.Sized? || c.Short? || c.Wrote?) && c.inode == i then c.start else |s.files[i]|
  }

  function End(l: Landed): nat {
    l.at + |l.row| + 1
  }

  /** `l` is a whole line of its file: it starts a line, holds the row and ends it. */
  predicate WholeLine(files: map<Inode, Bytes>, l: Landed) {
    && l.inode in files && End(l) <= |files[l.inode]| && OneLine(l.row)
    && files[l.inode][l.at..End(l)] == l.row + [NEWLINE]
    && (l.at == 0 || files[l.inode][l.at - 1] == NEWLINE)
  }

  /** Returned rows are whole settled lines at disjoint places, in append order. */
  ghost predicate RowsStand(s: State) {
    && (forall k :: 0 <= k < |s.done| ==> WholeLine(s.files, s.done[k]))
    && (forall k, p :: 0 <= k < |s.done| ==> End(s.done[k]) <= Settled(s, s.done[k].inode, ProcOf(s, p)))
    && (forall j, k :: 0 <= j < k < |s.done| && s.done[j].inode == s.done[k].inode ==>
          End(s.done[j]) <= s.done[k].at)
  }

  ghost predicate Inv(max: nat, s: State) {
    LocksMatch(s) && NamesMatch(s) && (forall p :: Working(max, s, ProcOf(s, p))) && RowsStand(s)
  }

  // ---- every step keeps it ---------------------------------------------------------

  lemma OneHolder(s: State, p: Pid, q: Pid)
    requires LocksMatch(s) && Holds(ProcOf(s, p)).Some? && Holds(ProcOf(s, p)) == Holds(ProcOf(s, q))
    ensures p == q
  {
  }

  lemma StepIsLocal(max: nat, s: State, p: Pid, a: Action, t: State)
    requires Step(max, s, p, a) == Some(t)
    ensures forall q :: q != p ==> ProcOf(t, q) == ProcOf(s, q)
  {
    hide Payload, Dropped;
  }

  predicate OwnLockOnly(before: map<Inode, Pid>, after: map<Inode, Pid>, p: Pid, c: Proc, d: Proc) {
    if Holds(d) == Holds(c) && after == before then true
    else if Holds(d).Some? then Holds(c) == None && Holds(d).value !in before && after == before[Holds(d).value := p]
    else after == Dropped(before, p)
  }

  /** A step keeps, takes or drops its own lock. */
  lemma StepLocks(max: nat, s: State, p: Pid, a: Action, t: State)
    requires Step(max, s, p, a) == Some(t)
    ensures OwnLockOnly(s.owner, t.owner, p, ProcOf(s, p), ProcOf(t, p))
  {
    hide Payload, Dropped, OneLine;
  }

  lemma StepKeepsLocks(max: nat, s: State, p: Pid, a: Action, t: State)
    requires LocksMatch(s) && Step(max, s, p, a) == Some(t)
    ensures LocksMatch(t)
    ensures forall q :: q != p ==> ProcOf(t, q) == ProcOf(s, q)
  {
    hide Step, Holds, ProcOf;
    StepIsLocal(max, s, p, a, t);
    StepLocks(max, s, p, a, t);
  }

  /** A step that creates no file and renames none leaves every name alone. */
  lemma StepKeepsNames(max: nat, s: State, p: Pid, a: Action, t: State)
    requires Inv(max, s) && Step(max, s, p, a) == Some(t)
    ensures NamesMatch(t)
    ensures s.files.Keys <= t.files.Keys
  {
    hide Payload, RowsStand, LocksMatch, NamesMatch;
    if a.Rename? {
      assert Working(max, s, ProcOf(s, p));
      RenameKeepsNames(max, s, p, t);
    } else if a.Open? {
      OpenKeepsNames(max, s, p, a, t);
    } else {
      assert t.files.Keys == s.files.Keys && t.spool == s.spool && t.taken == s.taken;
      SameNames(s, t);
    }
  }

  lemma SameNames(s: State, t: State)
    requires NamesMatch(s) && t.files.Keys == s.files.Keys && t.spool == s.spool && t.taken == s.taken
    ensures NamesMatch(t)
  {
  }

  lemma OpenKeepsNames(max: nat, s: State, p: Pid, a: Action, t: State)
    requires NamesMatch(s) && a.Open? && Step(max, s, p, a) == Some(t)
    ensures NamesMatch(t) && s.files.Keys <= t.files.Keys
  {
    if t.spool != s.spool {
      assert t.taken == s.taken && t.files.Keys == s.files.Keys + {a.unused};
    } else {
      SameNames(s, t);
    }
  }

  lemma RenameKeepsNames(max: nat, s: State, p: Pid, t: State)
    requires NamesMatch(s) && Step(max, s, p, Rename) == Some(t) && s.spool == Some(ProcOf(s, p).inode)
    ensures NamesMatch(t) && s.files.Keys <= t.files.Keys
  {
    var c := ProcOf(s, p);
    assert t.taken[c.dest] == c.inode;
    forall i
      ensures i in t.files <==> t.spool == Some(i) || exists d :: d in t.taken && t.taken[d] == i
    {
      if i in t.files && i != c.inode {
        var d :| d in s.taken && s.taken[d] == i;
        assert t.taken[d] == i;
      }
      if d :| d in t.taken && t.taken[d] == i {
        assert d == c.dest || (d in s.taken && s.taken[d] == i);
      }
    }
  }

  /** What one step does to the contents: at most one file changes, and then its writer
      held the lock on it and the path named it. */
  lemma StepWrites(max: nat, s: State, p: Pid, a: Action, t: State, i: Inode)
    requires Inv(max, s) && Step(max, s, p, a) == Some(t)
    requires i in s.files
    ensures i in t.files
    ensures t.files[i] != s.files[i] ==>
      && s.spool == Some(i) && Holds(ProcOf(s, p)) == Some(i)
      && (ProcOf(s, p).Sized? || ProcOf(s, p).Short?)
    ensures t.files[i] != s.files[i] && ProcOf(s, p).Sized? ==> s.files[i] <= t.files[i] && |t.files[i]| <= max
    ensures t.files[i] != s.files[i] && ProcOf(s, p).Short? ==> t.files[i] == s.files[i][..ProcOf(s, p).start]
  {
    hide RowsStand, NamesMatch, LocksMatch;
    assert Working(max, s, ProcOf(s, p));
  }

  lemma StepKeepsWorking(max: nat, s: State, p: Pid, a: Action, t: State, q: Pid)
    requires Inv(max, s) && Step(max, s, p, a) == Some(t)
    ensures Working(max, t, ProcOf(t, q))
  {
    hide RowsStand, NamesMatch;
    assert Working(max, s, ProcOf(s, p)) && Working(max, s, ProcOf(s, q));
    if q == p {
      OwnStepWorks(max, s, p, a, t);
    } else {
      StepKeepsLocks(max, s, p, a, t);
      OtherStepWorks(max, s, p, a, t, q);
    }
  }

  lemma OwnStepWorks(max: nat, s: State, p: Pid, a: Action, t: State)
    requires Working(max, s, ProcOf(s, p)) && NamesMatch(s) && Step(max, s, p, a) == Some(t)
    ensures Working(max, t, ProcOf(t, p))
  {
    hide Payload, Dropped, NamesMatch;
    if a.Write? {
      WriteWorks(max, s, p, a.accepted, t);
    } else if a.Open? || a.BeginRotate? {
      assert s.spool.Some? ==> s.spool.value in s.files by {
        SpoolExists(s);
      }
    }
  }

  lemma SpoolExists(s: State)
    requires NamesMatch(s)
    ensures s.spool.Some? ==> s.spool.value in s.files
  {
  }

  lemma WriteWorks(max: nat, s: State, p: Pid, accepted: nat, t: State)
    requires Working(max, s, ProcOf(s, p)) && Step(max, s, p, Write(accepted)) == Some(t)
    ensures Working(max, t, ProcOf(t, p))
  {
    hide Payload;
    var c := ProcOf(s, p);
    var content, data := s.files[c.inode], Payload(s.files[c.inode], c.row);
    if accepted == |data| {
      assert data[..|data|] == data;
      assert (content + data)[..|content|] == content && (content + data)[|content|..] == data;
    }
  }

  lemma OtherStepWorks(max: nat, s: State, p: Pid, a: Action, t: State, q: Pid)
    requires Inv(max, s) && Step(max, s, p, a) == Some(t) && q != p
    requires ProcOf(t, q) == ProcOf(s, q) && Working(max, s, ProcOf(s, q))
    ensures Working(max, t, ProcOf(t, q))
  {
    hide RowsStand, Payload;
    var c := ProcOf(s, q);
    StepKeepsNames(max, s, p, a, t);
    if Checked(c) && t.spool != s.spool {
      assert Working(max, s, ProcOf(s, p));
      OneHolder(s, p, q);
    }
    if (c.Sized? || c.Short? || c.Wrote?) && t.files[c.inode] != s.files[c.inode] {
      StepWrites(max, s, p, a, t, c.inode);
      OneHolder(s, p, q);
    }
  }

  lemma StepKeepsRows(max: nat, s: State, p: Pid, a: Action, t: State)
    requires Inv(max, s) && Step(max, s, p, a) == Some(t)
    ensures RowsStand(t)
  {
    hide NamesMatch, Payload, WholeLine;
    forall k | 0 <= k < |s.done|
      ensures WholeLine(t.files, s.done[k]) && s.done[k].inode in t.files
      ensures forall q :: End(s.done[k]) <= Settled(t, s.done[k].inode, ProcOf(t, q))
    {
      LandedStays(max, s, p, a, t, k);
    }
    StepAppendsRows(max, s, p, a, t);
    if a.Return? {
      NewRowStands(max, s, p, t);
    }
  }

  lemma StepAppendsRows(max: nat, s: State, p: Pid, a: Action, t: State)
    requires Step(max, s, p, a) == Some(t)
    ensures !a.Return? ==> t.done == s.done
    ensures a.Return? ==> t.files == s.files && |t.done| == |s.done| + 1 && t.done[..|s.done|] == s.done
  {
  }

  /** A settled row is untouched by any step. */
  lemma LandedStays(max: nat, s: State, p: Pid, a: Action, t: State, k: nat)
    requires Inv(max, s) && Step(max, s, p, a) == Some(t) && k < |s.done|
    ensures s.done[k].inode in t.files && WholeLine(t.files, s.done[k])
    ensures forall q :: End(s.done[k]) <= Settled(t, s.done[k].inode, ProcOf(t, q))
  {
    hide NamesMatch, Payload;
    var l := s.done[k];
    StepWrites(max, s, p, a, t, l.inode);
    assert End(l) <= Settled(s, l.inode, ProcOf(s, p));
    StepKeepsLocks(max, s, p, a, t);
    var before, after := s.files[l.inode], t.files[l.inode];
    assert End(l) <= |after| && before[..End(l)] == after[..End(l)];
    assert before[l.at..End(l)] == before[..End(l)][l.at..];
    assert after[l.at..End(l)] == after[..End(l)][l.at..];
    assert l.at > 0 ==> before[l.at - 1] == before[..End(l)][l.at - 1] == after[..End(l)][l.at - 1] == after[l.at - 1];
    forall q
      ensures End(l) <= Settled(t, l.inode, ProcOf(t, q))
    {
      assert End(l) <= Settled(s, l.inode, ProcOf(s, q));
      StepKeepsWorking(max, s, p, a, t, q);
    }
  }

  /** The row of a returning append is a whole line after every row that landed before. */
  lemma NewRowStands(max: nat, s: State, p: Pid, t: State)
    requires Inv(max, s) && Step(max, s, p, Return) == Some(t)
    ensures
      var l := t.done[|s.done|];
      && WholeLine(t.files, l)
      && (forall q :: End(l) <= Settled(t, l.inode, ProcOf(t, q)))
      && (forall j :: 0 <= j < |s.done| && s.done[j].inode == l.inode ==> End(s.done[j]) <= l.at)
  {
    hide NamesMatch;
    var c := ProcOf(s, p);
    var l := t.done[|s.done|];
    var content := s.files[c.inode];
    assert Working(max, s, c);
    PayloadPlaces(content, c.start, c.row);
    StepKeepsLocks(max, s, p, Return, t);
    forall q
      ensures End(l) <= Settled(t, l.inode, ProcOf(t, q))
    {
      if q != p && Holds(ProcOf(s, q)) == Some(c.inode) {
        OneHolder(s, p, q);
      }
    }
    forall j | 0 <= j < |s.done| && s.done[j].inode == l.inode
      ensures End(s.done[j]) <= l.at
    {
      assert End(s.done[j]) <= Settled(s, s.done[j].inode, c);
    }
  }

  lemma PayloadPlaces(content: Bytes, start: nat, row: Bytes)
    requires start <= |content| && content[start..] == Payload(content[..start], row)
    ensures |content| >= start + |row| + 1
    ensures
      var at := |content| - |row| - 1;
      && content[at..|content|] == row + [NEWLINE] && at >= start
      && (at == 0 || content[at - 1] == NEWLINE)
  {
    var sep := Separator(content[..start]);
    var tail := content[start..];
    assert |tail| == |sep| + |row| + 1;
    var at := start + |sep|;
    assert tail[|sep|..] == row + [NEWLINE];
    assert content[at..] == tail[|sep|..];
    if sep == [NEWLINE] {
      assert tail[0] == NEWLINE;
    }
  }

  lemma StepKeepsInv(max: nat, s: State, p: Pid, a: Action, t: State)
    requires Inv(max, s) && Step(max, s, p, a) == Some(t)
    ensures Inv(max, t)
  {
    hide LocksMatch, NamesMatch, Working, RowsStand, Step;
    StepKeepsLocks(max, s, p, a, t) by {
      assert LocksMatch(s);
    }
    StepKeepsNames(max, s, p, a, t);
    StepKeepsRows(max, s, p, a, t);
    forall q
      ensures Working(max, t, ProcOf(t, q))
    {
      StepKeepsWorking(max, s, p, a, t, q);
    }
  }

  // ---- every run ------------------------------------------------------------------

  datatype Event = Event(pid: Pid, action: Action)

  /** No process is running; the files may hold anything. */
  ghost predicate Start(s: State) {
    s.owner == map[] && s.procs == map[] && s.done == [] && NamesMatch(s)
  }

  /** Any interleaving of any processes' system calls, failures and crashes. */
  ghost predicate Run(max: nat, states: seq<State>, events: seq<Event>) {
    && |states| == |events| + 1 && Start(states[0])
    && forall i | 0 <= i < |events| :: Step(max, states[i], events[i].pid, events[i].action) == Some(states[i + 1])
  }

  lemma {:induction false} RunKeepsInv(max: nat, states: seq<State>, events: seq<Event>, i: nat)
    requires Run(max, states, events) && i < |states|
    ensures Inv(max, states[i])
  {
    if i == 0 {
    } else {
      RunKeepsInv(max, states, events, i - 1);
      StepKeepsInv(max, states[i - 1], events[i - 1].pid, events[i - 1].action, states[i]);
    }
  }

  /** Whoever is past the inode check holds the flock on the inode the path names, and is
      the only one. */
  lemma CheckedHoldsTheSpool(max: nat, states: seq<State>, events: seq<Event>, i: nat, p: Pid, q: Pid)
    requires Run(max, states, events) && i < |states|
    requires Checked(ProcOf(states[i], p))
    ensures
      var s := states[i];
      var inode := ProcOf(s, p).inode;
      && s.spool == Some(inode) && inode in s.owner && s.owner[inode] == p
      && (Checked(ProcOf(s, q)) ==> q == p)
  {
    RunKeepsInv(max, states, events, i);
    var s := states[i];
    assert Working(max, s, ProcOf(s, p)) && Working(max, s, ProcOf(s, q));
    assert Holds(ProcOf(s, p)) == Some(ProcOf(s, p).inode);
    if Checked(ProcOf(s, q)) {
      OneHolder(s, p, q);
    }
  }

  /** Once a file has been renamed away it keeps its name and its bytes for ever. */
  lemma {:induction false} RenamedIsFrozen(
    max: nat, states: seq<State>, events: seq<Event>, i: nat, k: nat, dest: string)
    requires Run(max, states, events) && i <= k < |states| && dest in states[i].taken
    ensures dest in states[k].taken && states[k].taken[dest] == states[i].taken[dest]
    ensures states[i].taken[dest] in states[i].files && states[i].taken[dest] in states[k].files
    ensures states[k].files[states[i].taken[dest]] == states[i].files[states[i].taken[dest]]
    decreases k
  {
    hide Inv, Step;
    RunKeepsInv(max, states, events, i);
    TakenExists(max, states[i], dest);
    if k > i {
      RenamedIsFrozen(max, states, events, i, k - 1, dest);
      RunKeepsInv(max, states, events, k - 1);
      StepFreezes(max, states[k - 1], events[k - 1].pid, events[k - 1].action, states[k], dest);
    }
  }

  lemma TakenExists(max: nat, s: State, dest: string)
    requires Inv(max, s) && dest in s.taken
    ensures s.taken[dest] in s.files && s.spool != Some(s.taken[dest])
  {
    hide Working, LocksMatch, RowsStand;
  }

  lemma StepFreezes(max: nat, s: State, p: Pid, a: Action, t: State, dest: string)
    requires Inv(max, s) && Step(max, s, p, a) == Some(t) && dest in s.taken
    ensures dest in t.taken && t.taken[dest] == s.taken[dest]
    ensures s.taken[dest] in s.files && s.taken[dest] in t.files
    ensures t.files[s.taken[dest]] == s.files[s.taken[dest]]
  {
    hide Inv, Step;
    TakenExists(max, s, dest);
    KeepsTaken(max, s, p, a, t, dest);
    StepWrites(max, s, p, a, t, s.taken[dest]);
  }

  lemma KeepsTaken(max: nat, s: State, p: Pid, a: Action, t: State, dest: string)
    requires Step(max, s, p, a) == Some(t) && dest in s.taken
    ensures dest in t.taken && t.taken[dest] == s.taken[dest]
  {
    hide Payload, Dropped;
  }

  lemma {:induction false} ReturnedStaysReturned(max: nat, states: seq<State>, events: seq<Event>, i: nat, k: nat)
    requires Run(max, states, events) && i <= k < |states|
    ensures states[i].done <= states[k].done
    decreases k
  {
    if k > i {
      ReturnedStaysReturned(max, states, events, i, k - 1);
      StepAppendsRows(max, states[k - 1], events[k - 1].pid, events[k - 1].action, states[k]);
      assert states[k - 1].done <= states[k].done;
    }
  }

  /** Every row whose append returned by step `i` is, at every later step `k`, one whole
      line of a file with exactly one name, apart from every other returned row. */
  lemma ReturnedRowsStand(max: nat, states: seq<State>, events: seq<Event>, i: nat, k: nat, j: nat)
    requires Run(max, states, events) && i <= k < |states| && j < |states[i].done|
    ensures j < |states[k].done| && states[k].done[j] == states[i].done[j]
    ensures
      var l, t := states[i].done[j], states[k];
      && WholeLine(t.files, l)
      && (t.spool == Some(l.inode) <==> forall d :: d in t.taken ==> t.taken[d] != l.inode)
      && (forall d, e :: d in t.taken && e in t.taken && t.taken[d] == l.inode == t.taken[e] ==> d == e)
      && (forall m :: 0 <= m < |t.done| && m != j && t.done[m].inode == l.inode ==>
            End(t.done[m]) <= l.at || End(l) <= t.done[m].at)
  {
    ReturnedStaysReturned(max, states, events, i, k);
    RunKeepsInv(max, states, events, k);
    hide Run, Working, LocksMatch, WholeLine;
    var l, t := states[i].done[j], states[k];
    assert t.done[j] == l && WholeLine(t.files, l);
    assert l.inode in t.files;
  }

  /** An append returns only while the path still names the file the row went to. */
  lemma ReturnsIntoTheSpool(max: nat, states: seq<State>, events: seq<Event>, i: nat)
    requires Run(max, states, events) && i < |events| && events[i].action.Return?
    ensures |states[i + 1].done| == |states[i].done| + 1
    ensures
      var l, c := states[i + 1].done[|states[i].done|], ProcOf(states[i], events[i].pid);
      c.Wrote? && c.row == l.row && c.inode == l.inode && states[i + 1].spool == Some(l.inode)
  {
    RunKeepsInv(max, states, events, i);
    assert Working(max, states[i], ProcOf(states[i], events[i].pid));
  }

  /** No step leaves a file above the ceiling unless it was already that long. */
  lemma NoStepOverflows(max: nat, states: seq<State>, events: seq<Event>, i: nat, x: Inode)
    requires Run(max, states, events) && i < |events| && x in states[i + 1].files
    ensures |states[i + 1].files[x]| <= max
            || (x in states[i].files && |states[i + 1].files[x]| <= |states[i].files[x]|)
  {
    RunKeepsInv(max, states, events, i);
    var s, t := states[i], states[i + 1];
    if x in s.files {
      StepWrites(max, s, events[i].pid, events[i].action, t, x);
      if t.files[x] != s.files[x] {
        assert Working(max, s, ProcOf(s, events[i].pid));
      }
    } else {
      CreatesEmpty(max, s, events[i].pid, events[i].action, t, x);
    }
  }

  /** While a process holds a file's lock nobody else changes the file. */
  lemma OnlyTheHolderWrites(max: nat, s: State, q: Pid, a: Action, t: State, p: Pid, x: Inode)
    requires Inv(max, s) && Step(max, s, q, a) == Some(t)
    requires Holds(ProcOf(s, p)) == Some(x) && q != p && x in s.files
    ensures x in t.files && t.files[x] == s.files[x] && ProcOf(t, p) == ProcOf(s, p)
  {
    hide Step, NamesMatch, RowsStand, Working;
    StepWrites(max, s, q, a, t, x);
    StepIsLocal(max, s, q, a, t);
    if t.files[x] != s.files[x] {
      OneHolder(s, p, q);
    }
  }

  /** A short append can be truncated, which leaves the file as it found it. */
  lemma ShortAppendIsUndone(max: nat, s: State, p: Pid, accepted: nat, t: State)
    requires Inv(max, s) && Step(max, s, p, Write(accepted)) == Some(t)
    ensures accepted < |Payload(s.files[ProcOf(s, p).inode], ProcOf(s, p).row)| <==> ProcOf(t, p).Short?
    ensures ProcOf(t, p).Short? ==>
      var u := Step(max, t, p, Truncate);
      u.Some? && u.value.files == s.files && u.value.spool == s.spool && ProcOf(u.value, p) == Out
      && u.value.done == s.done
  {
    hide NamesMatch, RowsStand, LocksMatch, Payload;
    var c := ProcOf(s, p);
    assert Working(max, s, c);
    if ProcOf(t, p).Short? {
      assert t.files[c.inode][..c.start] == s.files[c.inode];
      assert t.files[c.inode := s.files[c.inode]] == s.files;
    }
  }

  lemma CreatesEmpty(max: nat, s: State, p: Pid, a: Action, t: State, x: Inode)
    requires Step(max, s, p, a) == Some(t) && x in t.files && x !in s.files
    ensures t.files[x] == []
  {
    hide Payload, Dropped;
  }
}
