/** Acquiring and releasing the lock as the program does it, with other processes doing the
    same between any two calls. Every execution is a run of LockFile. */
module LockRun {
  import opened Manifests
  import opened LockFile

  /** What the others make of a state: in turn, each does what it can. */
  ghost function AfterOthers(s: State, p: Pid, todo: seq<Event>): State
    decreases |todo|
  {
    if todo == [] then s
    else
      var t, e := AfterOthers(s, p, todo[..|todo| - 1]), todo[|todo| - 1];
      var next := Step(t, e.pid, e.action);
      if e.pid != p && !e.action.Unlink? && next.Some? then next.value else t
  }

  class Machine {
    var state: State
    var clock: nat
    /** What other processes try to do after each call; none of them unlinks the file. */
    const others: nat -> seq<Event>
    ghost var states: seq<State>
    ghost var events: seq<Event>

    constructor (state: State, others: nat -> seq<Event>)
      requires Start(state)
      ensures Valid() && this.state == state && this.others == others
    {
      this.state, clock, this.others := state, 0, others;
      states, events := [state], [];
    }

    ghost predicate Valid()
      reads this
    {
      Run(states, events) && NeverUnlinks(events) && states[|states| - 1] == state
    }

    method Take(p: Pid, a: Action) returns (ok: bool)
      requires Valid() && !a.Unlink?
      modifies this`state, this`states, this`events
      ensures Valid()
      ensures ok <==> Step(old(state), p, a).Some?
      ensures ok ==> Step(old(state), p, a) == Some(state)
      ensures !ok ==> state == old(state)
      ensures forall q :: q != p ==> ProcOf(state, q) == ProcOf(old(state), q)
    {
      hide Step, Start;
      RunKeepsInv(states, events, |states| - 1);
      var next := Step(state, p, a);
      ok := next.Some?;
      if ok {
        StepKeepsInv(state, p, a, next.value);
        state := next.value;
        states, events := states + [next.value], events + [Event(p, a)];
      }
    }

    /** Nobody else ever runs. */
    ghost predicate Undisturbed() {
      forall k :: others(k) == []
    }

    method Interfere(p: Pid)
      requires Valid()
      modifies this
      ensures Valid() && ProcOf(state, p) == ProcOf(old(state), p) && clock == old(clock) + 1
      ensures Undisturbed() ==> state == old(state)
      ensures state == AfterOthers(old(state), p, others(old(clock)))
    {
      hide Step, Run, NeverUnlinks, ProcOf;
      var todo := others(clock);
      clock := clock + 1;
      for i := 0 to |todo|
        invariant Valid() && ProcOf(state, p) == ProcOf(old(state), p) && clock == old(clock) + 1
        invariant i == 0 ==> state == old(state)
        invariant state == AfterOthers(old(state), p, todo[..i])
      {
        assert todo[..i + 1][..i] == todo[..i];
        if todo[i].pid != p && !todo[i].action.Unlink? {
          var ok := Take(todo[i].pid, todo[i].action);
        }
      }
      assert todo[..|todo|] == todo;
    }

    method Do(p: Pid, a: Action) returns (ok: bool)
      requires Valid() && !a.Unlink?
      modifies this
      ensures Valid() && (ok <==> Step(old(state), p, a).Some?)
      ensures ok ==> ProcOf(state, p) == ProcOf(Step(old(state), p, a).value, p)
      ensures !ok ==> ProcOf(state, p) == ProcOf(old(state), p)
      ensures clock == old(clock) + 1
      ensures Undisturbed() ==> if ok then Step(old(state), p, a) == Some(state) else state == old(state)
    {
      hide Step, Run, NeverUnlinks, ProcOf;
      ok := Take(p, a);
      Interfere(p);
    }

    /** Acquires the lock or fails at once; true makes `p` its only owner. `opens` and
        `writesPid` say whether those calls succeed, `interrupted` whether a signal breaks
        a flock call. A second acquire by its holder fails and changes nothing. Undisturbed,
        it succeeds exactly when those calls do, nobody holds the lock and not both flock
        calls are interrupted. */
    method Acquire(p: Pid, unused: Inode, opens: bool, interrupted: nat -> bool, writesPid: bool) returns (held: bool)
      requires Valid() && (ProcOf(state, p) == Out || ProcOf(state, p).Held?)
      modifies this
      ensures Valid()
      ensures held ==> ProcOf(state, p).Held? && forall q :: Owns(ProcOf(state, q)) ==> q == p
      ensures old(ProcOf(state, p)).Held? ==> !held && ProcOf(state, p) == old(ProcOf(state, p))
      ensures !held && old(ProcOf(state, p)) == Out ==> ProcOf(state, p) == Out
      ensures Undisturbed() && old(ProcOf(state, p)) == Out && old(state.path.Some? || unused !in state.made) ==>
        (held <==> && opens && writesPid && old(NobodyOwns())
                   && !(interrupted(old(clock) + 1) && interrupted(old(clock) + 2)))
    {
      hide Run, NeverUnlinks;
      InvNow();
      if ProcOf(state, p).Held? || !opens {
        return false;
      }
      var ok := Do(p, Open(unused));
      if !ok {
        return false;
      }
      var locked := Lock(p, interrupted);
      if !locked {
        return false;
      }
      if !writesPid {
        ok := Do(p, Leave);
        return false;
      }
      ok := Do(p, WritePid);
      SoleOwner(p);
      held := true;
    }

    ghost predicate NobodyOwns()
      reads this
    {
      forall q :: !Owns(ProcOf(state, q))
    }

    lemma InvNow()
      requires Valid()
      ensures Inv(state) && (NobodyOwns() <==> state.owner == map[])
    {
      RunKeepsInv(states, events, |states| - 1);
      if i :| i in state.owner {
        assert Owns(ProcOf(state, state.owner[i]));
      }
    }

    /** The non-blocking flock, tried again once when a signal breaks it. */
    method Lock(p: Pid, interrupted: nat -> bool) returns (locked: bool)
      requires Valid() && ProcOf(state, p).Opened? && ProcOf(state, p).left == FLOCK_TRIES
      modifies this
      ensures Valid() && (if locked then ProcOf(state, p).Owning? else ProcOf(state, p) == Out)
      ensures Undisturbed() ==>
        (locked <==> old(ProcOf(state, p)).inode !in old(state).owner
                     && !(interrupted(old(clock)) && interrupted(old(clock) + 1)))
    {
      hide Run, NeverUnlinks;
      var ok;
      for attempt := 0 to FLOCK_TRIES
        invariant attempt < FLOCK_TRIES
        invariant Valid() && ProcOf(state, p).Opened? && ProcOf(state, p).left == FLOCK_TRIES - attempt
        invariant clock == old(clock) + attempt && forall k | old(clock) <= k < clock :: interrupted(k)
        invariant Undisturbed() ==>
          ProcOf(state, p).inode == old(ProcOf(state, p)).inode && state.owner == old(state).owner
      {
        if interrupted(clock) {
          ok := Do(p, Interrupt);
          if ProcOf(state, p) == Out {
            return false;
          }
        } else {
          ok := Do(p, TryLock);
          return ProcOf(state, p).Owning?;
        }
      }
      assert false;
    }

    /** Releases the lock by closing it; a no-op for a process that does not hold it. */
    method Release(p: Pid)
      requires Valid() && (ProcOf(state, p) == Out || ProcOf(state, p).Held?)
      modifies this
      ensures Valid() && ProcOf(state, p) == Out
      ensures Undisturbed() && old(ProcOf(state, p)).Held? ==> NobodyOwns()
      ensures Undisturbed() && old(ProcOf(state, p)) == Out ==> state == old(state)
    {
      hide Run, NeverUnlinks;
      if ProcOf(state, p).Held? {
        SoleOwner(p);
        ghost var was := state;
        var ok := Do(p, Leave);
        if Undisturbed() {
          assert forall q :: q != p ==> ProcOf(state, q) == ProcOf(was, q);
        }
      }
    }

    lemma SoleOwner(p: Pid)
      requires Valid() && Owns(ProcOf(state, p))
      ensures forall q :: Owns(ProcOf(state, q)) ==> q == p
    {
      forall q | Owns(ProcOf(state, q))
        ensures q == p
      {
        AtMostOneOwner(states, events, |states| - 1, p, q);
      }
    }
  }
}
