/** The append and the rotation as the program runs them, call by call, on a filesystem
    that other processes use between any two calls. Every execution is a run of Spool. */
module SpoolRun {
  import opened Manifests
  import opened Spool

  /** Where a call may take the process that makes it. */
  predicate Moves(c: Proc, a: Action, d: Proc) {
    match a
    case BeginAppend(row) => d == Opening(row, ATTEMPTS)
    case Open(_) => c.Opening? && if c.left == 0 then d == Out else d.Waiting? && d.row == c.row && d.left == c.left - 1
    case Flock => c.Waiting? && d == Locked(c.inode, c.row, c.left)
    case Lstat => c.Locked? && (d == Named(c.inode, c.row) || d == Opening(c.row, c.left))
    case Size => c.Named? && (d == Out || (d.Sized? && d.row == c.row && d.inode == c.inode))
    case Write(_) => c.Sized? && (d.Short? || d.Wrote?) && d.row == c.row && d.inode == c.inode
    case Truncate => c.Short? && d == Out
    case Return => c.Wrote? && d == Out
    case BeginRotate(dest) => d == Out || (d.Trying? && d.dest == dest && d.left == LOCK_TRIES)
    case TryLock =>
      c.Trying? && if c.left == 0 then d == Out
                   else d == Trying(c.inode, c.dest, c.left - 1) || d == RotatorLocked(c.inode, c.dest)
    case RotatorLstat => c.RotatorLocked? && (d == ReadyToRename(c.inode, c.dest) || d == Out)
    case Rename => c.ReadyToRename? && d == Renamed(c.inode)
    case Leave => d == Out
  }

  lemma StepMoves(max: nat, s: State, p: Pid, a: Action, t: State)
    requires Step(max, s, p, a) == Some(t)
    ensures Moves(ProcOf(s, p), a, ProcOf(t, p))
    ensures a.Return? ==> |t.done| == |s.done| + 1 && t.done[|s.done|].row == ProcOf(s, p).row
    ensures a.BeginRotate? && ProcOf(t, p).Trying? ==> s.spool == Some(ProcOf(t, p).inode)
    ensures a.Rename? ==> ProcOf(s, p).ReadyToRename? && NamedIn(t, ProcOf(s, p).dest, ProcOf(s, p).inode)
  {
    hide Payload, Dropped, OneLine;
  }

  /** A rotation target names this file. */
  predicate NamedIn(s: State, dest: string, inode: Inode) {
    dest in s.taken && s.taken[dest] == inode
  }

  /** Every rotation target still names the file it named. */
  ghost predicate KeepsTargets(s: State, t: State) {
    forall d | d in s.taken :: NamedIn(t, d, s.taken[d])
  }

  // ---- why an append may not land -------------------------------------------------

  /** The call cannot do what an append needs of it: the number for a created file is taken,
      the lock is still held, the row does not fit, or the write is not whole. */
  predicate Hindered(max: nat, s: State, p: Pid, a: Action) {
    var c := ProcOf(s, p);
    match a
    case Open(unused) => c.Opening? && s.spool.None? && unused in s.files
    case Flock => c.Waiting? && c.inode in s.owner
    case Size => c.Named? && c.inode in s.files && |s.files[c.inode]| + |Payload(s.files[c.inode], c.row)| > max
    case Write(accepted) => c.Sized? && c.inode in s.files && accepted != |Payload(s.files[c.inode], c.row)|
    case _ => false
  }

  /** A call failed between these two times. */
  ghost predicate Died(dies: nat -> bool, since: nat, now: nat) {
    exists k | since <= k <= now :: dies(k)
  }

  lemma OpenTells(max: nat, s: State, p: Pid, row: Bytes, left: nat, unused: Inode)
    requires ProcOf(s, p) == Opening(row, left) && left > 0
    ensures
      match Step(max, s, p, Open(unused))
      case None => Hindered(max, s, p, Open(unused))
      case Some(t) => ProcOf(t, p).Waiting? && ProcOf(t, p).row == row && ProcOf(t, p).left == left - 1
  {
  }

  lemma FlockTells(max: nat, s: State, p: Pid)
    requires ProcOf(s, p).Waiting?
    ensures
      var c := ProcOf(s, p);
      match Step(max, s, p, Flock)
      case None => Hindered(max, s, p, Flock)
      case Some(t) => ProcOf(t, p) == Locked(c.inode, c.row, c.left)
  {
  }

  lemma LstatTells(max: nat, s: State, p: Pid)
    requires ProcOf(s, p).Locked?
    ensures
      var c := ProcOf(s, p);
      && Step(max, s, p, Lstat).Some?
      && ProcOf(Step(max, s, p, Lstat).value, p) ==
         if s.spool == Some(c.inode) then Named(c.inode, c.row) else Opening(c.row, c.left)
  {
  }

  lemma SizeTells(max: nat, s: State, p: Pid)
    requires Inv(max, s) && ProcOf(s, p).Named?
    ensures
      var t := Step(max, s, p, Size);
      && t.Some?
      && if Hindered(max, s, p, Size) then ProcOf(t.value, p) == Out
         else ProcOf(t.value, p).Sized? && ProcOf(t.value, p).row == ProcOf(s, p).row
  {
    hide LocksMatch, RowsStand, Payload;
    assert Working(max, s, ProcOf(s, p));
  }

  lemma WriteTells(max: nat, s: State, p: Pid, accepted: nat)
    requires Inv(max, s) && ProcOf(s, p).Sized?
    ensures
      var t := Step(max, s, p, Write(accepted));
      if Hindered(max, s, p, Write(accepted)) then t.Some? ==> ProcOf(t.value, p).Short?
      else t.Some? && ProcOf(t.value, p).Wrote? && ProcOf(t.value, p).row == ProcOf(s, p).row
  {
    hide LocksMatch, NamesMatch, RowsStand, Payload;
    assert Working(max, s, ProcOf(s, p));
  }

  /** Same names and locks. */
  ghost predicate SameLocks(s: State, t: State) {
    t.spool == s.spool && t.taken == s.taken && t.owner == s.owner
  }

  lemma BeginRotateTells(max: nat, s: State, p: Pid, dest: string)
    requires ProcOf(s, p) == Out
    ensures
      var t := Step(max, s, p, BeginRotate(dest));
      t.Some? && SameLocks(s, t.value)
      && ProcOf(t.value, p) == if s.spool.Some? then Trying(s.spool.value, dest, LOCK_TRIES) else Out
  {
  }

  lemma TryLockTells(max: nat, s: State, p: Pid)
    requires ProcOf(s, p).Trying? && ProcOf(s, p).left > 0
    ensures
      var c := ProcOf(s, p);
      var t := Step(max, s, p, TryLock);
      && t.Some? && t.value.spool == s.spool && t.value.taken == s.taken
      && if c.inode in s.owner then
           SameLocks(s, t.value) && ProcOf(t.value, p) == Trying(c.inode, c.dest, c.left - 1)
         else ProcOf(t.value, p) == RotatorLocked(c.inode, c.dest)
  {
  }

  lemma RenameTells(max: nat, s: State, p: Pid)
    requires ProcOf(s, p).RotatorLocked? && s.spool == Some(ProcOf(s, p).inode)
    ensures
      var t := Step(max, s, p, RotatorLstat);
      && t.Some? && ProcOf(t.value, p).ReadyToRename?
      && (Step(max, t.value, p, Rename).Some? <==> ProcOf(s, p).dest !in s.taken)
  {
  }

  lemma ShortIsCut(max: nat, s: State, p: Pid, accepted: nat)
    requires Inv(max, s) && Step(max, s, p, Write(accepted)).Some?
    ensures
      var t := Step(max, s, p, Write(accepted)).value;
      ProcOf(t, p).Short? ==>
        Step(max, t, p, Truncate).Some? && SpoolContent(Step(max, t, p, Truncate).value) == SpoolContent(s)
  {
    hide Step, Inv, Payload;
    ShortAppendIsUndone(max, s, p, accepted, Step(max, s, p, Write(accepted)).value);
  }

  lemma ReturnIsPossible(max: nat, s: State, p: Pid)
    requires Inv(max, s) && ProcOf(s, p).Wrote?
    ensures Step(max, s, p, Return).Some? && ProcOf(Step(max, s, p, Return).value, p) == Out
  {
    hide LocksMatch, NamesMatch, RowsStand, Payload;
    assert Working(max, s, ProcOf(s, p));
    WroteIsLongEnough(max, s, p);
  }

  lemma WroteIsLongEnough(max: nat, s: State, p: Pid)
    requires Working(max, s, ProcOf(s, p)) && ProcOf(s, p).Wrote?
    ensures |s.files[ProcOf(s, p).inode]| >= |ProcOf(s, p).row| + 1
  {
    var c := ProcOf(s, p);
    assert |s.files[c.inode][c.start..]| == |Payload(s.files[c.inode][..c.start], c.row)|;
  }

  // ---- an undisturbed append --------------------------------------------------------

  /** What the path names, empty when there is no spool. */
  function SpoolContent(s: State): Bytes {
    if s.spool.Some? && s.spool.value in s.files then s.files[s.spool.value] else []
  }

  /** The row can be appended: the spool's lock is free, a created file gets a new number,
      and the row fits. */
  predicate Ready(max: nat, s: State, row: Bytes, unused: Inode) {
    && (if s.spool.Some? then s.spool.value in s.files && s.spool.value !in s.owner
        else unused !in s.files && unused !in s.owner)
    && |SpoolContent(s)| + |Payload(SpoolContent(s), row)| <= max
  }

  /** `p` holds the spool's lock, has checked the path, and the row fits. */
  ghost predicate AtSpool(max: nat, s: State, p: Pid, row: Bytes, content: Bytes) {
    var c := ProcOf(s, p);
    && c.Named? && c.row == row && s.spool == Some(c.inode) && c.inode in s.files && s.files[c.inode] == content
    && |content| + |Payload(content, row)| <= max
  }

  /** `p` has locked the file the path names, and the row fits. */
  ghost predicate AtLock(max: nat, s: State, p: Pid, row: Bytes, content: Bytes) {
    var c := ProcOf(s, p);
    && c.Locked? && c.row == row && s.spool == Some(c.inode) && c.inode in s.files && s.files[c.inode] == content
    && |content| + |Payload(content, row)| <= max
  }

  lemma LocksSpool(max: nat, s: State, p: Pid, row: Bytes, left: nat, unused: Inode)
    requires ProcOf(s, p) == Opening(row, left) && left > 0 && Ready(max, s, row, unused)
    ensures
      var t := Step(max, s, p, Open(unused));
      && t.Some?
      && var u := Step(max, t.value, p, Flock);
      u.Some? && AtLock(max, u.value, p, row, SpoolContent(s))
  {
    hide Payload;
  }

  lemma ChecksSpool(max: nat, s: State, p: Pid, row: Bytes, content: Bytes)
    requires AtLock(max, s, p, row, content)
    ensures
      var t := Step(max, s, p, Lstat);
      t.Some? && AtSpool(max, t.value, p, row, content) && ProcOf(t.value, p).Named?
  {
    hide Payload;
  }

  /** Every call but a write, a truncation and a rename leaves what the path names alone. */
  lemma StepKeepsContent(max: nat, s: State, p: Pid, a: Action, t: State)
    requires Step(max, s, p, a) == Some(t) && !a.Write? && !a.Truncate? && !a.Rename?
    ensures SpoolContent(t) == SpoolContent(s)
  {
    hide Payload, Dropped;
  }

  lemma WritesAtSpool(max: nat, s: State, p: Pid, row: Bytes, content: Bytes)
    requires AtSpool(max, s, p, row, content)
    ensures
      var data := Payload(content, row);
      var t := Step(max, s, p, Size);
      && t.Some? && ProcOf(t.value, p).Sized?
      && var u := Step(max, t.value, p, Write(|data|));
      && u.Some? && ProcOf(u.value, p).Wrote?
      && !Hindered(max, s, p, Size) && !Hindered(max, t.value, p, Write(|data|))
      && var v := Step(max, u.value, p, Return);
      v.Some? && SpoolContent(v.value) == content + data
  {
    var data := Payload(content, row);
    assert data[..|data|] == data;
  }

  /** How one attempt's look at the path ended. */
  datatype Looked = AtPath | Elsewhere | GaveUp

  /** What the others make of a state: in turn, each does what it can. */
  ghost function AfterOthers(max: nat, s: State, p: Pid, todo: seq<Event>): State
    decreases |todo|
  {
    if todo == [] then s
    else
      var t, e := AfterOthers(max, s, p, todo[..|todo| - 1]), todo[|todo| - 1];
      var next := Step(max, t, e.pid, e.action);
      if e.pid != p && next.Some? then next.value else t
  }

  class Filesystem {
    var state: State
    var clock: nat
    const max: nat
    /** What other processes try to do after each call. */
    const others: nat -> seq<Event>
    ghost var states: seq<State>
    ghost var events: seq<Event>
    /** How often a writer that had locked a file found that the path names another. */
    ghost var turnedAway: nat
    /** How often a call was hindered. */
    ghost var hindrances: nat

    constructor (state: State, max: nat, others: nat -> seq<Event>)
      requires Start(state)
      ensures Valid() && this.state == state && this.max == max && this.others == others && events == []
    {
      this.state, clock, this.max, this.others := state, 0, max, others;
      states, events, turnedAway, hindrances := [state], [], 0, 0;
    }

    /** The history is a run, and it ended in the present state. */
    ghost predicate Valid()
      reads this
    {
      Run(max, states, events) && states[|states| - 1] == state
    }

    method Take(p: Pid, a: Action) returns (ok: bool)
      requires Valid()
      modifies this`state, this`states, this`events
      ensures Valid() && old(events) <= events
      ensures ok <==> Step(max, old(state), p, a).Some?
      ensures ok ==> Step(max, old(state), p, a) == Some(state) && events == old(events) + [Event(p, a)]
      ensures !ok ==> state == old(state) && events == old(events)
    {
      hide Step, Start;
      var next := Step(max, state, p, a);
      ok := next.Some?;
      if ok {
        state := next.value;
        states, events := states + [next.value], events + [Event(p, a)];
      }
    }

    /** Nobody else ever runs. */
    ghost predicate Undisturbed() {
      forall k :: others(k) == []
    }

    /** Other processes run for a while. */
    method Interfere(p: Pid)
      requires Valid()
      modifies this
      ensures Valid() && old(events) <= events && clock == old(clock) + 1
      ensures turnedAway == old(turnedAway) && hindrances == old(hindrances)
      ensures Undisturbed() ==> state == old(state)
      ensures ProcOf(state, p) == ProcOf(old(state), p) && old(state).done <= state.done
      ensures KeepsTargets(old(state), state)
      ensures state == AfterOthers(max, old(state), p, others(old(clock)))
    {
      hide Step, Run;
      var todo := others(clock);
      clock := clock + 1;
      for i := 0 to |todo|
        invariant Valid() && old(events) <= events && clock == old(clock) + 1
        invariant turnedAway == old(turnedAway) && hindrances == old(hindrances)
        invariant i == 0 ==> state == old(state)
        invariant ProcOf(state, p) == ProcOf(old(state), p) && old(state).done <= state.done
        invariant KeepsTargets(old(state), state)
        invariant state == AfterOthers(max, old(state), p, todo[..i])
      {
        assert todo[..i + 1][..i] == todo[..i];
        if todo[i].pid != p {
          ghost var before := state;
          var ok := Take(todo[i].pid, todo[i].action);
          if ok {
            StepIsLocal(max, before, todo[i].pid, todo[i].action, state);
            StepAppendsRows(max, before, todo[i].pid, todo[i].action, state);
            TakenGrows(max, before, todo[i].pid, todo[i].action, state);
          }
        }
      }
      assert todo[..|todo|] == todo;
    }

    lemma Now()
      requires Valid()
      ensures Inv(max, state)
    {
      RunKeepsInv(max, states, events, |states| - 1);
    }

    /** One call of process `p`, and then whatever the others do. */
    method Do(p: Pid, a: Action) returns (ok: bool)
      requires Valid()
      modifies this
      ensures Valid() && old(events) <= events && old(state).done <= state.done
      ensures clock == old(clock) + 1
      ensures Undisturbed() ==> if ok then Step(max, old(state), p, a) == Some(state) else state == old(state)
      ensures turnedAway == old(turnedAway) + if ok && a.Lstat? && !ProcOf(state, p).Named? then 1 else 0
      ensures hindrances == old(hindrances) + if Hindered(max, old(state), p, a) then 1 else 0
      ensures Undisturbed() && !a.Write? && !a.Truncate? && !a.Rename? ==>
        SpoolContent(state) == SpoolContent(old(state))
      ensures ok <==> Step(max, old(state), p, a).Some?
      ensures KeepsTargets(old(state), state)
      ensures ok && a.BeginRotate? && ProcOf(state, p).Trying? ==> old(state).spool == Some(ProcOf(state, p).inode)
      ensures ok && a.Rename? ==>
        ProcOf(old(state), p).ReadyToRename? && NamedIn(state, ProcOf(old(state), p).dest, ProcOf(old(state), p).inode)
      ensures ok ==> Moves(ProcOf(old(state), p), a, ProcOf(state, p))
      ensures ok ==> ProcOf(state, p) == ProcOf(Step(max, old(state), p, a).value, p)
      ensures ok && a.Return? ==>
        |state.done| > |old(state).done| && state.done[|old(state).done|].row == ProcOf(old(state), p).row
      ensures !ok ==> ProcOf(state, p) == ProcOf(old(state), p)
    {
      hide Step, Run, Moves, ProcOf, Hindered, SpoolContent;
      if Hindered(max, state, p, a) {
        hindrances := hindrances + 1;
      }
      ok := Take(p, a);
      if ok {
        StepMoves(max, old(state), p, a, state);
        StepAppendsRows(max, old(state), p, a, state);
        TakenGrows(max, old(state), p, a, state);
        if !a.Write? && !a.Truncate? && !a.Rename? {
          StepKeepsContent(max, old(state), p, a, state);
        }
      }
      Interfere(p);
      if ok && a.Lstat? && !ProcOf(state, p).Named? {
        turnedAway := turnedAway + 1;
      }
    }

    /** Gives up: an error or a kill. The descriptor closes and the lock goes. */
    method GiveUp(p: Pid)
      requires Valid()
      modifies this
      ensures Valid() && old(events) <= events && ProcOf(state, p) == Out && old(state).done <= state.done
      ensures clock >= old(clock)
      ensures turnedAway == old(turnedAway) && hindrances == old(hindrances)
      ensures Undisturbed() ==> SpoolContent(state) == SpoolContent(old(state))
      ensures KeepsTargets(old(state), state)
    {
      hide Run, Valid, SpoolContent;
      LeaveIsAlwaysPossible(max, state, p);
      var ok := Do(p, Leave);
    }

    /** Appends one row; true only once it is in the file and flushed. `unused` and
        `accepted` are the world's choices, `dies` whether a call fails or kills. When it does
        not land, a call failed or was hindered, or the spool was rotated away at every one of
        its attempts. Undisturbed it lands, if the row fits and is written whole; when it does
        not land, the spool is as it was. */
    method Append(p: Pid, row: Bytes, unused: nat -> Inode, accepted: nat -> nat, dies: nat -> bool)
      returns (landed: bool, ghost k: nat)
      requires Valid() && ProcOf(state, p) == Out && OneLine(row)
      modifies this
      ensures Valid() && old(events) <= events && ProcOf(state, p) == Out
      ensures landed ==> |old(state).done| <= k < |state.done| && state.done[k].row == row
      ensures landed ==> forall k | old(clock) + 1 < k < clock :: !dies(k)
      ensures !landed ==>
        || hindrances > old(hindrances) || Died(dies, old(clock), clock)
        || turnedAway == old(turnedAway) + ATTEMPTS
      ensures
        var content := SpoolContent(old(state));
        Undisturbed() && (forall k :: !dies(k)) && Ready(max, old(state), row, unused(old(clock) + 1))
        && accepted(old(clock) + 5) == |Payload(content, row)| ==>
          && landed
          && SpoolContent(state)
             == content + (if content == [] || content[|content| - 1] == NEWLINE then [] else [NEWLINE])
                + row + [NEWLINE]
      ensures Undisturbed() && (forall k :: !dies(k)) && !landed ==> SpoolContent(state) == SpoolContent(old(state))
    {
      hide Run, Valid, ProcOf, OneLine, Step, Ready, SpoolContent, Payload, Inv, KeepsTargets;
      landed, k := false, 0;
      BeginIsPossible(max, state, p, row);
      PayloadIs(SpoolContent(state), row);
      ghost var begun := Step(max, state, p, BeginAppend(row)).value;
      assert forall unused :: Ready(max, begun, row, unused) == Ready(max, state, row, unused);
      var ok := Do(p, BeginAppend(row));
      for attempt := 0 to ATTEMPTS
        invariant Valid() && old(events) <= events && old(state).done <= state.done && clock > old(clock)
        invariant ProcOf(state, p) == Opening(row, ATTEMPTS - attempt)
        invariant attempt == 0 ==> clock == old(clock) + 1
        invariant attempt > 0 && Undisturbed() && (forall k :: !dies(k)) ==>
          !Ready(max, old(state), row, unused(old(clock) + 1))
          || accepted(old(clock) + 5) != |Payload(SpoolContent(old(state)), row)|
        invariant turnedAway == old(turnedAway) + attempt && hindrances >= old(hindrances)
        invariant forall k | old(clock) + 1 < k <= clock :: !dies(k)
        invariant attempt == 0 && Undisturbed() ==> state == begun
        invariant Undisturbed() && (forall k :: !dies(k)) ==> SpoolContent(state) == SpoolContent(old(state))
      {
        var again;
        again, landed, k := Attempt(p, row, ATTEMPTS - attempt, unused, accepted, dies);
        if !again {
          return;
        }
      }
      landed := false;
      GiveUp(p);
    }

    /** One attempt: open or create, wait for the flock, compare the inode. The row is
        written only when the path still names the locked file; otherwise, try again. */
    method Attempt(p: Pid, row: Bytes, left: nat, unused: nat -> Inode, accepted: nat -> nat, dies: nat -> bool)
      returns (again: bool, landed: bool, ghost k: nat)
      requires Valid() && left > 0 && ProcOf(state, p) == Opening(row, left)
      modifies this
      ensures Valid() && old(events) <= events && old(state).done <= state.done
      ensures clock >= old(clock)
      ensures again ==> ProcOf(state, p) == Opening(row, left - 1)
      ensures !again ==> ProcOf(state, p) == Out
      ensures landed ==> !again && |old(state).done| <= k < |state.done| && state.done[k].row == row
      ensures again ==> turnedAway == old(turnedAway) + 1
      ensures again ==> forall k | old(clock) < k <= clock :: !dies(k)
      ensures landed ==> forall k | old(clock) < k < clock :: !dies(k)
      ensures hindrances >= old(hindrances)
      ensures !again && !landed ==> hindrances > old(hindrances) || Died(dies, old(clock), clock)
      ensures
        var content := SpoolContent(old(state));
        Undisturbed() && (forall k :: !dies(k)) && Ready(max, old(state), row, unused(old(clock)))
        && accepted(old(clock) + 4) == |Payload(content, row)| ==>
          landed && SpoolContent(state) == content + Payload(content, row)
      ensures Undisturbed() && (forall k :: !dies(k)) && !landed ==> SpoolContent(state) == SpoolContent(old(state))
    {
      hide Run, Valid, ProcOf, Step, Ready, AtSpool, Payload, SpoolContent, Inv, KeepsTargets;
      again, landed, k := false, false, 0;
      var looked := Look(p, row, left, unused, dies);
      if looked.Elsewhere? {
        again := true;
      } else if looked.AtPath? {
        landed, k := WriteRow(p, row, SpoolContent(old(state)), accepted, dies);
      }
    }

    /** Up to the inode check. Giving up closes the descriptor. */
    method Look(p: Pid, row: Bytes, left: nat, unused: nat -> Inode, dies: nat -> bool) returns (r: Looked)
      requires Valid() && left > 0 && ProcOf(state, p) == Opening(row, left)
      modifies this
      ensures Valid() && old(events) <= events && old(state).done <= state.done
      ensures clock >= old(clock)
      ensures r.AtPath? ==> ProcOf(state, p).Named? && ProcOf(state, p).row == row
      ensures r.Elsewhere? ==> ProcOf(state, p) == Opening(row, left - 1)
      ensures r.GaveUp? ==>
        ProcOf(state, p) == Out && (hindrances > old(hindrances) || Died(dies, old(clock), clock))
      ensures hindrances >= old(hindrances)
      ensures !r.GaveUp? ==> turnedAway == old(turnedAway) + if r.Elsewhere? then 1 else 0
      ensures !r.GaveUp? ==> clock == old(clock) + 3 && forall k | old(clock) < k <= clock :: !dies(k)
      ensures Undisturbed() && (forall k :: !dies(k)) && Ready(max, old(state), row, unused(old(clock))) ==>
        r.AtPath? && AtSpool(max, state, p, row, SpoolContent(old(state)))
      ensures Undisturbed() ==> SpoolContent(state) == SpoolContent(old(state))
    {
      hide Run, Valid, ProcOf, Step, Ready, AtSpool, AtLock, SpoolContent, Hindered, KeepsTargets, Moves;
      var ok := OpenAndLock(p, row, left, unused, dies);
      if ok {
        if AtLock(max, state, p, row, SpoolContent(old(state))) {
          ChecksSpool(max, state, p, row, SpoolContent(old(state)));
        }
        LstatTells(max, state, p);
        ok := Do(p, Lstat);
        if !dies(clock) {
          return if ProcOf(state, p).Named? then AtPath else Elsewhere;
        }
      }
      GiveUp(p);
      r := GaveUp;
    }

    /** Opens or creates the spool and waits for its lock. */
    method OpenAndLock(p: Pid, row: Bytes, left: nat, unused: nat -> Inode, dies: nat -> bool) returns (ok: bool)
      requires Valid() && left > 0 && ProcOf(state, p) == Opening(row, left)
      modifies this
      ensures Valid() && old(events) <= events && old(state).done <= state.done
      ensures clock >= old(clock) && turnedAway == old(turnedAway) && hindrances >= old(hindrances)
      ensures ok ==> ProcOf(state, p).Locked? && ProcOf(state, p).row == row && ProcOf(state, p).left == left - 1
      ensures ok ==> clock == old(clock) + 2 && forall k | old(clock) < k <= clock :: !dies(k)
      ensures !ok ==> hindrances > old(hindrances) || Died(dies, old(clock), clock)
      ensures Undisturbed() && (forall k :: !dies(k)) && Ready(max, old(state), row, unused(old(clock))) ==>
        ok && AtLock(max, state, p, row, SpoolContent(old(state)))
      ensures Undisturbed() ==> SpoolContent(state) == SpoolContent(old(state))
    {
      hide Run, Valid, ProcOf, Step, Ready, AtLock, SpoolContent, Hindered, KeepsTargets, Moves;
      if Ready(max, state, row, unused(clock)) {
        LocksSpool(max, state, p, row, left, unused(clock));
      }
      OpenTells(max, state, p, row, left, unused(clock));
      ok := Do(p, Open(unused(clock)));
      if ok && !dies(clock) {
        FlockTells(max, state, p);
        ok := Do(p, Flock);
      }
      ok := ok && !dies(clock);
    }

    /** From a confirmed inode: size check, one write, and either a flush or an undo. */
    method WriteRow(p: Pid, row: Bytes, ghost content: Bytes, accepted: nat -> nat, dies: nat -> bool)
      returns (landed: bool, ghost k: nat)
      requires Valid() && ProcOf(state, p).Named? && ProcOf(state, p).row == row
      modifies this
      ensures Valid() && old(events) <= events && ProcOf(state, p) == Out && old(state).done <= state.done
      ensures clock >= old(clock)
      ensures landed ==> |old(state).done| <= k < |state.done| && state.done[k].row == row
      ensures turnedAway == old(turnedAway) && hindrances >= old(hindrances)
      ensures landed ==> forall k | old(clock) < k < clock :: !dies(k)
      ensures !landed ==> hindrances > old(hindrances) || Died(dies, old(clock), clock)
      ensures
        Undisturbed() && (forall k :: !dies(k)) && AtSpool(max, old(state), p, row, content)
        && accepted(old(clock) + 1) == |Payload(content, row)| ==>
          landed && SpoolContent(state) == content + Payload(content, row)
      ensures Undisturbed() && (forall k :: !dies(k)) && !landed ==> SpoolContent(state) == SpoolContent(old(state))
    {
      hide Run, Valid, ProcOf, Step, AtSpool, SpoolContent, Inv, Hindered, Payload, KeepsTargets, Moves;
      landed, k := false, 0;
      Now();
      SizeTells(max, state, p);
      if AtSpool(max, state, p, row, content) {
        WritesAtSpool(max, state, p, row, content);
      }
      var ok := Do(p, Size);
      if !ProcOf(state, p).Sized? || dies(clock) {
        GiveUp(p);
        return;
      }
      landed, k := WriteSized(p, row, accepted, dies);
    }

    /** The one write, and the flush. */
    method WriteSized(p: Pid, row: Bytes, accepted: nat -> nat, dies: nat -> bool)
      returns (landed: bool, ghost k: nat)
      requires Valid() && ProcOf(state, p).Sized? && ProcOf(state, p).row == row
      modifies this
      ensures Valid() && old(events) <= events && ProcOf(state, p) == Out && old(state).done <= state.done
      ensures clock >= old(clock) && turnedAway == old(turnedAway) && hindrances >= old(hindrances)
      ensures landed ==> clock == old(clock) + 2
      ensures landed ==> |old(state).done| <= k < |state.done| && state.done[k].row == row
      ensures !landed ==> hindrances > old(hindrances) || Died(dies, old(clock), clock)
      ensures landed <==> !Hindered(max, old(state), p, Write(accepted(old(clock)))) && !dies(old(clock) + 1)
      ensures landed && Undisturbed() ==>
        var t := Step(max, old(state), p, Write(accepted(old(clock))));
        t.Some? && Step(max, t.value, p, Return) == Some(state)
      ensures Undisturbed() && (forall k :: !dies(k)) && !landed ==> SpoolContent(state) == SpoolContent(old(state))
    {
      hide Run, Valid, ProcOf, Step, Inv, Hindered, Payload, KeepsTargets, Moves, SpoolContent;
      landed, k := false, 0;
      Now();
      if Step(max, state, p, Write(accepted(clock))).Some? {
        ShortIsCut(max, state, p, accepted(clock));
      }
      WriteTells(max, state, p, accepted(clock));
      var ok := Do(p, Write(accepted(clock)));
      if !ok || dies(clock) || !ProcOf(state, p).Wrote? {
        Undo(p, ok && !dies(clock));
        return;
      }
      k := |state.done|;
      Now();
      ReturnIsPossible(max, state, p);
      ok := Do(p, Return);
      landed := true;
    }

    /** Cuts a short write off again, unless that fails too, and closes the descriptor. */
    method Undo(p: Pid, alive: bool)
      requires Valid()
      modifies this
      ensures Valid() && old(events) <= events && ProcOf(state, p) == Out && old(state).done <= state.done
      ensures clock >= old(clock)
      ensures turnedAway == old(turnedAway) && hindrances == old(hindrances)
      ensures Undisturbed() ==>
        var cut := if alive then Step(max, old(state), p, Truncate) else None;
        SpoolContent(state) == if cut.Some? then SpoolContent(cut.value) else SpoolContent(old(state))
    {
      hide Run, Valid, ProcOf, Step, SpoolContent;
      if alive {
        var ok := Do(p, Truncate);
      }
      GiveUp(p);
    }

    /** Renames the spool aside if no writer holds it; a few tries, never a wait. Success
        means that the file the path named at the start now has the new name. Undisturbed it
        succeeds exactly when there is a spool, its lock and the new name are free, and no
        call fails. */
    method Rotate(p: Pid, dest: string, dies: nat -> bool) returns (taken: bool)
      requires Valid() && ProcOf(state, p) == Out
      modifies this
      ensures Valid() && old(events) <= events && ProcOf(state, p) == Out
      ensures taken ==> dest in state.taken && old(state).spool == Some(state.taken[dest])
      ensures Undisturbed() ==>
        (taken <==> && old(state).spool.Some? && old(state).spool.value !in old(state).owner
                    && dest !in old(state).taken && !dies(old(clock) + 3) && !dies(old(clock) + 4))
    {
      hide Run, Valid, ProcOf, Step;
      taken := false;
      BeginRotateTells(max, state, p, dest);
      var ok := Do(p, BeginRotate(dest));
      if !ok || !ProcOf(state, p).Trying? {
        GiveUp(p);
        return;
      }
      var target := ProcOf(state, p).inode;
      for try := 0 to LOCK_TRIES
        invariant Valid() && old(events) <= events
        invariant ProcOf(state, p) == Trying(target, dest, LOCK_TRIES - try)
        invariant Undisturbed() ==> SameLocks(old(state), state) && (try > 0 ==> target in state.owner)
        invariant try == 0 ==> clock == old(clock) + 1
      {
        TryLockTells(max, state, p);
        ok := Do(p, TryLock);
        if ProcOf(state, p).RotatorLocked? {
          taken := RenameLocked(p, target, dest, dies);
          return;
        }
      }
      GiveUp(p);
    }

    method RenameLocked(p: Pid, locked: Inode, dest: string, dies: nat -> bool) returns (taken: bool)
      requires Valid() && ProcOf(state, p) == RotatorLocked(locked, dest)
      modifies this
      ensures Valid() && old(events) <= events && ProcOf(state, p) == Out
      ensures taken ==> NamedIn(state, dest, locked)
      ensures Undisturbed() && old(state).spool == Some(locked) ==>
        (taken <==> dest !in old(state).taken && !dies(old(clock) + 1) && !dies(old(clock) + 2))
    {
      hide Run, Valid, ProcOf, Step;
      taken := false;
      if state.spool == Some(locked) {
        RenameTells(max, state, p);
      }
      var ok := Do(p, RotatorLstat);
      if !ok || !ProcOf(state, p).ReadyToRename? || dies(clock) {
        GiveUp(p);
        return;
      }
      ok := Do(p, Rename);
      taken := ok && !dies(clock);
      GiveUp(p);
    }
  }

  lemma TakenGrows(max: nat, s: State, p: Pid, a: Action, t: State)
    requires Step(max, s, p, a) == Some(t)
    ensures KeepsTargets(s, t)
  {
    hide Step;
    forall d | d in s.taken
      ensures NamedIn(t, d, s.taken[d])
    {
      KeepsTaken(max, s, p, a, t, d);
    }
  }

  /** A row goes on its own line: only a torn last line is ended first. */
  lemma PayloadIs(content: Bytes, row: Bytes)
    ensures content + Payload(content, row)
            == content + (if content == [] || content[|content| - 1] == NEWLINE then [] else [NEWLINE])
               + row + [NEWLINE]
  {
  }

  lemma BeginIsPossible(max: nat, s: State, p: Pid, row: Bytes)
    requires ProcOf(s, p) == Out && OneLine(row)
    ensures
      var t := Step(max, s, p, BeginAppend(row));
      && t.Some? && SpoolContent(t.value) == SpoolContent(s)
      && forall unused :: Ready(max, t.value, row, unused) == Ready(max, s, row, unused)
  {
  }

  lemma LeaveIsAlwaysPossible(max: nat, s: State, p: Pid)
    ensures Step(max, s, p, Leave).Some?
  {
  }
}
