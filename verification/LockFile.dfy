/** The lock file: an flock on a file that is never unlinked. At most one process owns it,
    whatever opens, locks, fails or dies in between - and unlinking it would break that. */
module LockFile {
  import opened Manifests

  type Pid = nat
  type Inode = nat

  const FLOCK_TRIES := 2

  /** `Owning` holds the flock; `Held` has also written its PID as the hint. */
  datatype Proc = Out | Opened(inode: Inode, left: nat) | Owning(inode: Inode) | Held(inode: Inode)

  datatype State = State(
    path: Option<Inode>,
    made: set<Inode>,
    owner: map<Inode, Pid>,
    procs: map<Pid, Proc>)

  /** `Interrupt` is a flock call broken by a signal. `Leave` is an error, a release or a
      crash. `Unlink` removes the directory entry; no command does it. */
  datatype Action = Open(unused: Inode) | TryLock | Interrupt | WritePid | Leave | Unlink

  function ProcOf(s: State, p: Pid): Proc {
    if p in s.procs then s.procs[p] else Out
  }

  predicate Owns(c: Proc) {
    c.Owning? || c.Held?
  }

  function Closed(s: State, p: Pid): State {
    s.(owner := map i | i in s.owner && s.owner[i] != p :: s.owner[i], procs := s.procs[p := Out])
  }

  /** None where the process cannot take the step; a second acquire by a holder is one. */
  function Step(s: State, p: Pid, a: Action): Option<State> {
    var c := ProcOf(s, p);
    match a
    case Open(unused) =>
      if !c.Out? then None
      else if s.path.Some? then Some(s.(procs := s.procs[p := Opened(s.path.value, FLOCK_TRIES)]))
      else if unused in s.made then None
      else
        Some(s.(path := Some(unused), made := s.made + {unused}, procs := s.procs[p := Opened(unused, FLOCK_TRIES)]))
    case TryLock =>
      if !c.Opened? then None
      else if c.inode in s.owner then Some(Closed(s, p))
      else Some(s.(owner := s.owner[c.inode := p], procs := s.procs[p := Owning(c.inode)]))
    case Interrupt =>
      if !c.Opened? || c.left == 0 then None
      else if c.left == 1 then Some(Closed(s, p))
      else Some(s.(procs := s.procs[p := Opened(c.inode, c.left - 1)]))
    case WritePid =>
      if !c.Owning? then None else Some(s.(procs := s.procs[p := Held(c.inode)]))
    case Leave => Some(Closed(s, p))
    case Unlink => Some(s.(path := None))
  }

  /** Every process that has the file open has the one inode the path names, and owns its
      flock exactly when its program counter says so. */
  ghost predicate Inv(s: State) {
    && (forall p :: !ProcOf(s, p).Out? ==> s.path == Some(ProcOf(s, p).inode))
    && (forall i :: i in s.owner ==> s.path == Some(i))
    && (forall p :: Owns(ProcOf(s, p)) <==> s.path.Some? && s.path.value in s.owner && s.owner[s.path.value] == p)
  }

  lemma StepKeepsInv(s: State, p: Pid, a: Action, t: State)
    requires Inv(s) && !a.Unlink? && Step(s, p, a) == Some(t)
    ensures Inv(t)
    ensures s.path.Some? ==> t.path == s.path
    ensures forall q :: q != p ==> ProcOf(t, q) == ProcOf(s, q)
  {
    var c := ProcOf(s, p);
    forall q
      ensures !ProcOf(t, q).Out? ==> t.path == Some(ProcOf(t, q).inode)
      ensures Owns(ProcOf(t, q)) <==> t.path.Some? && t.path.value in t.owner && t.owner[t.path.value] == q
    {
      assert !ProcOf(s, q).Out? ==> s.path == Some(ProcOf(s, q).inode);
      assert Owns(ProcOf(s, q)) <==> s.path.Some? && s.path.value in s.owner && s.owner[s.path.value] == q;
      assert !c.Out? ==> s.path == Some(c.inode);
      assert Owns(c) <==> s.path.Some? && s.path.value in s.owner && s.owner[s.path.value] == p;
    }
  }

  lemma OneOwner(s: State, p: Pid, q: Pid)
    requires Inv(s) && Owns(ProcOf(s, p)) && Owns(ProcOf(s, q))
    ensures p == q
  {
  }

  // ---- runs -----------------------------------------------------------------

  datatype Event = Event(pid: Pid, action: Action)

  /** No process has the file open; it may or may not exist. */
  ghost predicate Start(s: State) {
    s.owner == map[] && s.procs == map[]
  }

  ghost predicate Run(states: seq<State>, events: seq<Event>) {
    && |states| == |events| + 1 && Start(states[0])
    && forall i | 0 <= i < |events| :: Step(states[i], events[i].pid, events[i].action) == Some(states[i + 1])
  }

  predicate NeverUnlinks(events: seq<Event>) {
    forall i | 0 <= i < |events| :: !events[i].action.Unlink?
  }

  lemma {:induction false} RunKeepsInv(states: seq<State>, events: seq<Event>, i: nat)
    requires Run(states, events) && NeverUnlinks(events) && i < |states|
    ensures Inv(states[i])
  {
    if i > 0 {
      RunKeepsInv(states, events, i - 1);
      StepKeepsInv(states[i - 1], events[i - 1].pid, events[i - 1].action, states[i]);
    }
  }

  /** Over every run, at most one process owns the lock, and the path keeps its inode. */
  lemma AtMostOneOwner(states: seq<State>, events: seq<Event>, i: nat, p: Pid, q: Pid)
    requires Run(states, events) && NeverUnlinks(events) && i < |states|
    requires Owns(ProcOf(states[i], p)) && Owns(ProcOf(states[i], q))
    ensures p == q && states[i].path == Some(ProcOf(states[i], p).inode)
  {
    RunKeepsInv(states, events, i);
    OneOwner(states[i], p, q);
  }

  // ---- why the file is never unlinked ---------------------------------------------

  /** If whoever released the lock then unlinked the file, a process that had it open and
      one that creates it anew would both own the lock. */
  lemma UnlinkingBreaksIt() returns (states: seq<State>, events: seq<Event>)
    ensures Run(states, events)
    ensures
      var last := states[|states| - 1];
      Owns(ProcOf(last, 1)) && Owns(ProcOf(last, 2))
    ensures forall i | 0 <= i < |events| && events[i].action.Unlink? :: ProcOf(states[i], events[i].pid).Out?
  {
    var a := State(Some(7), {7}, map[], map[]);
    var b := State(Some(7), {7}, map[], map[1 := Opened(7, 2)]);
    var c := State(None, {7}, map[], map[1 := Opened(7, 2)]);
    var d := State(Some(8), {7, 8}, map[], map[1 := Opened(7, 2), 2 := Opened(8, 2)]);
    var e := State(Some(8), {7, 8}, map[7 := 1], map[1 := Owning(7), 2 := Opened(8, 2)]);
    var f := State(Some(8), {7, 8}, map[7 := 1, 8 := 2], map[1 := Owning(7), 2 := Owning(8)]);
    assert Step(a, 1, Open(8)) == Some(b);
    assert Step(b, 0, Unlink) == Some(c);
    assert d.procs == c.procs[2 := Opened(8, 2)] && d.made == c.made + {8};
    assert Step(c, 2, Open(8)) == Some(d);
    assert e.procs == d.procs[1 := Owning(7)];
    assert Step(d, 1, TryLock) == Some(e);
    assert f.procs == e.procs[2 := Owning(8)] && f.owner == e.owner[8 := 2];
    assert Step(e, 2, TryLock) == Some(f);
    states := [a, b, c, d, e, f];
    events := [Event(1, Open(8)), Event(0, Unlink), Event(2, Open(8)), Event(1, TryLock), Event(2, TryLock)];
  }
}
