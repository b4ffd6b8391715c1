/** The durable read-modify-write as the program runs it, with other writers and readers
    between any two calls. Every execution is a run of DurableJson. */
module DurableRun {
  import opened Manifests
  import opened DurableJson
  import L = LockFile

  /** How one read-modify-write ended. `Unconfirmed` is a failure after the rename: the new
      version is visible but its flush is not confirmed. */
  datatype Outcome = Contended | Refused | Skipped | Failed | Unconfirmed | Written

  /** Where a call may take the process that makes it. */
  ghost predicate Moves(fmt: Format, c: Work, a: Action, d: Work) {
    match a
    case LockStep(step) => d == (if step.Leave? then Idle else c)
    case Read => c.Idle? && (d.Idle? || d.HasRead?)
    case Mutate(mutator) => c.HasRead? && d == Mutated(c.document, mutator)
    case MakeTemp(_) =>
      && c.Mutated?
      && if |fmt.encode(c.mutator(c.read))| > MAX_BYTES then d.Idle?
         else d.Staging? && d.read == c.read && d.mutator == c.mutator
    case WriteChunk(_) => c.Staging? && d == c
    case Replace => c.Staging? && d.Published?
    case _ => d == c
  }

  lemma StepMoves(fmt: Format, s: State, p: Pid, a: Action, t: State)
    requires Step(fmt, s, p, a) == Some(t)
    ensures Moves(fmt, WorkOf(s, p), a, WorkOf(t, p))
    ensures a.Replace? ==>
      WorkOf(s, p).Staging? && |t.history| == |s.history| + 1 && t.history[|s.history|].mutator == WorkOf(s, p).mutator
  {
  }

  // ---- what each call does to a process that is not disturbed -----------------------

  /** Lock-free parts: the files, the visible one and the history. */
  ghost predicate SameData(s: State, t: State) {
    t.files == s.files && t.path == s.path && t.history == s.history
  }

  /** `p` can start: it has nothing open and nobody holds the lock. */
  ghost predicate Free(s: State, p: Pid) {
    L.ProcOf(s.lock, p).Out? && s.lock.owner == map[]
  }

  /** `p` has nothing open and somebody holds the lock. */
  ghost predicate Held(s: State, p: Pid) {
    L.ProcOf(s.lock, p).Out? && s.lock.path.Some? && s.lock.path.value in s.lock.owner
  }

  /** `p` owns the lock, alone. */
  ghost predicate Alone(s: State, p: Pid) {
    L.Owns(L.ProcOf(s.lock, p)) && forall i | i in s.lock.owner :: s.lock.owner[i] == p
  }

  lemma OpensAndLocks(fmt: Format, s: State, p: Pid, unused: Inode)
    requires Free(s, p) && unused !in s.lock.made
    ensures
      var t := Step(fmt, s, p, LockStep(L.Open(unused)));
      && t.Some? && SameData(s, t.value) && WorkOf(t.value, p) == WorkOf(s, p)
      && var u := Step(fmt, t.value, p, LockStep(L.TryLock));
      u.Some? && SameData(s, u.value) && WorkOf(u.value, p) == WorkOf(s, p) && Alone(u.value, p)
  {
  }

  lemma OpensButWaits(fmt: Format, s: State, p: Pid, unused: Inode)
    requires Held(s, p)
    ensures
      var t := Step(fmt, s, p, LockStep(L.Open(unused)));
      && t.Some?
      && var u := Step(fmt, t.value, p, LockStep(L.TryLock));
      u.Some? && SameData(s, u.value) && Step(fmt, u.value, p, Read).None?
  {
  }

  lemma ReadsCurrent(fmt: Format, s: State, p: Pid)
    requires Alone(s, p) && WorkOf(s, p).Idle?
    ensures
      var t := Step(fmt, s, p, Read);
      && t.Some? && SameData(s, t.value)
      && match Parsed(fmt, Content(s))
         case None => WorkOf(t.value, p).Idle?
         case Some(document) => WorkOf(t.value, p) == HasRead(document) && Alone(t.value, p)
  {
  }

  lemma Mutates(fmt: Format, s: State, p: Pid, mutator: Mutator)
    requires Alone(s, p) && WorkOf(s, p).HasRead?
    ensures
      var t := Step(fmt, s, p, Mutate(mutator));
      && t.Some? && SameData(s, t.value) && Alone(t.value, p)
      && WorkOf(t.value, p) == Mutated(WorkOf(s, p).document, mutator)
  {
  }

  /** The outcome of writing what the mutator makes of `document`: refused when that is too
      large, else visible, as the one next version. */
  ghost predicate MadeOf(
    fmt: Format, s: State, t: State, document: Document, mutator: Mutator, flushes: bool, out: Outcome)
  {
    if |fmt.encode(mutator(document))| > MAX_BYTES then out == Refused && SameData(s, t)
    else
      && out == (if flushes then Written else Unconfirmed)
      && Content(t) == Some(fmt.encode(mutator(document)))
      && t.history == s.history + [Update(document, mutator, mutator(document))]
  }

  lemma SameContent(s: State, t: State)
    requires SameData(s, t)
    ensures Content(t) == Content(s)
  {
  }

  lemma MadeFromSame(
    fmt: Format, s: State, mid: State, t: State, document: Document, mutator: Mutator, flushes: bool, out: Outcome)
    requires SameData(s, mid)
    ensures MadeOf(fmt, mid, t, document, mutator, flushes, out) ==> MadeOf(fmt, s, t, document, mutator, flushes, out)
  {
  }

  lemma TooLargeIsMade(fmt: Format, s: State, t: State, document: Document, mutator: Mutator, flushes: bool)
    requires SameData(s, t) && |fmt.encode(mutator(document))| > MAX_BYTES
    ensures MadeOf(fmt, s, t, document, mutator, flushes, Refused)
  {
  }

  lemma MakesTemp(fmt: Format, s: State, p: Pid, unused: Inode)
    requires Alone(s, p) && WorkOf(s, p).Mutated? && unused !in s.files
    ensures
      var w := WorkOf(s, p);
      var t := Step(fmt, s, p, MakeTemp(unused));
      && t.Some?
      && if |fmt.encode(w.mutator(w.read))| > MAX_BYTES then SameData(s, t.value) && WorkOf(t.value, p).Idle?
         else
           && t.value.files == s.files[unused := []] && t.value.path == s.path && t.value.history == s.history
           && Alone(t.value, p) && WorkOf(t.value, p) == Staging(w.read, w.mutator, unused)
  {
  }

  /** The temp file holds the first `written` bytes of what `p` writes. */
  ghost predicate Filled(fmt: Format, s: State, p: Pid, written: nat) {
    var w := WorkOf(s, p);
    && w.Staging? && Alone(s, p) && w.temp in s.files
    && written <= |fmt.encode(w.mutator(w.read))|
    && s.files[w.temp] == fmt.encode(w.mutator(w.read))[..written]
  }

  lemma WritesChunk(fmt: Format, s: State, p: Pid, written: nat, bytes: nat)
    requires Filled(fmt, s, p, written)
    requires written + bytes <= |fmt.encode(WorkOf(s, p).mutator(WorkOf(s, p).read))|
    ensures
      var t := Step(fmt, s, p, WriteChunk(bytes));
      && t.Some? && Filled(fmt, t.value, p, written + bytes) && WorkOf(t.value, p) == WorkOf(s, p)
      && t.value.path == s.path && t.value.history == s.history
  {
    var w := WorkOf(s, p);
    var payload := fmt.encode(w.mutator(w.read));
    assert payload[..written] + payload[written..written + bytes] == payload[..written + bytes];
  }

  lemma ReplacesWhole(fmt: Format, s: State, p: Pid)
    requires WorkOf(s, p).Staging? && Filled(fmt, s, p, |fmt.encode(WorkOf(s, p).mutator(WorkOf(s, p).read))|)
    ensures
      var w := WorkOf(s, p);
      var t := Step(fmt, s, p, Replace);
      && t.Some? && Content(t.value) == Some(fmt.encode(w.mutator(w.read)))
      && t.value.history == s.history + [Update(w.read, w.mutator, w.mutator(w.read))]
  {
    var payload := fmt.encode(WorkOf(s, p).mutator(WorkOf(s, p).read));
    assert payload[..|payload|] == payload;
  }

  lemma LeavesFree(fmt: Format, s: State, p: Pid)
    ensures
      var t := Step(fmt, s, p, LockStep(L.Leave));
      t.Some? && SameData(s, t.value) && L.ProcOf(t.value.lock, p).Out?
  {
  }

  // ---- the program -------------------------------------------------------------------

  /** `p` renamed nothing over the data path from place `from` on. */
  ghost predicate NoReplace(p: Pid, events: seq<Event>, from: nat) {
    forall i | from <= i < |events| :: !(events[i].pid == p && events[i].action.Replace?)
  }

  /** `p` did it just once there. */
  ghost predicate OneReplace(p: Pid, events: seq<Event>, from: nat) {
    exists i :: from <= i < |events| && events[i].pid == p && events[i].action.Replace?
                && NoReplace(p, events[..i], from) && NoReplace(p, events, i + 1)
  }

  lemma ReplacesAdd(p: Pid, one: seq<Event>, two: seq<Event>, all: seq<Event>)
    requires one <= two <= all
    ensures NoReplace(p, two, |one|) && NoReplace(p, all, |two|) ==> NoReplace(p, all, |one|)
    ensures NoReplace(p, two, |one|) && OneReplace(p, all, |two|) ==> OneReplace(p, all, |one|)
    ensures OneReplace(p, two, |one|) && NoReplace(p, all, |two|) ==> OneReplace(p, all, |one|)
  {
    if NoReplace(p, two, |one|) && OneReplace(p, all, |two|) {
      var i :| |two| <= i < |all| && NoReplace(p, all[..i], |two|) && all[i].pid == p && all[i].action.Replace?
               && NoReplace(p, all, i + 1);
      assert NoReplace(p, all[..i], |one|);
    }
    if OneReplace(p, two, |one|) && NoReplace(p, all, |two|) {
      var i :| |one| <= i < |two| && NoReplace(p, two[..i], |one|) && two[i].pid == p && two[i].action.Replace?
               && NoReplace(p, two, i + 1);
      assert all[..i] == two[..i];
    }
  }

  /** What the others make of a state: in turn, each does what it can. */
  ghost function AfterOthers(fmt: Format, s: State, p: Pid, todo: seq<Event>): State
    decreases |todo|
  {
    if todo == [] then s
    else
      var t, e := AfterOthers(fmt, s, p, todo[..|todo| - 1]), todo[|todo| - 1];
      var next := Step(fmt, t, e.pid, e.action);
      if e.pid != p && next.Some? then next.value else t
  }

  class Store {
    var state: State
    var clock: nat
    const fmt: Format
    const others: nat -> seq<Event>
    ghost var states: seq<State>
    ghost var events: seq<Event>

    constructor (state: State, fmt: Format, others: nat -> seq<Event>)
      requires Start(state)
      ensures Valid() && this.state == state && this.fmt == fmt && this.others == others
    {
      this.state, clock, this.fmt, this.others := state, 0, fmt, others;
      states, events := [state], [];
    }

    ghost predicate Valid()
      reads this
    {
      Run(fmt, states, events) && states[|states| - 1] == state
    }

    method Take(p: Pid, a: Action) returns (ok: bool)
      requires Valid()
      modifies this`state, this`states, this`events
      ensures Valid()
      ensures ok <==> Step(fmt, old(state), p, a).Some?
      ensures ok ==> Step(fmt, old(state), p, a) == Some(state) && events == old(events) + [Event(p, a)]
      ensures !ok ==> state == old(state) && events == old(events)
    {
      hide Step, DurableJson.Start;
      var next := Step(fmt, state, p, a);
      ok := next.Some?;
      if ok {
        state := next.value;
        states, events := states + [next.value], events + [Event(p, a)];
      }
    }

    lemma OthersKeepWork(p: Pid, q: Pid, a: Action, t: State)
      requires Valid() && q != p && Step(fmt, state, q, a) == Some(t)
      ensures WorkOf(t, p) == WorkOf(state, p)
      ensures L.Owns(L.ProcOf(t.lock, p)) == L.Owns(L.ProcOf(state.lock, p))
      ensures state.history <= t.history
    {
      RunKeepsInv(fmt, states, events, |states| - 1);
      StepLock(fmt, state, q, a, t);
      StepHistory(fmt, state, q, a, t);
    }

    /** Nobody else ever runs. */
    ghost predicate Undisturbed() {
      forall k :: others(k) == []
    }

    method Interfere(p: Pid)
      requires Valid()
      modifies this
      ensures Valid() && WorkOf(state, p) == WorkOf(old(state), p) && old(state).history <= state.history
      ensures L.Owns(L.ProcOf(state.lock, p)) == L.Owns(L.ProcOf(old(state).lock, p))
      ensures old(events) <= events && NoReplace(p, events, |old(events)|)
      ensures Undisturbed() ==> state == old(state)
      ensures clock == old(clock) + 1
      ensures state == AfterOthers(fmt, old(state), p, others(old(clock)))
    {
      hide Step, Run, WorkOf, L.ProcOf, L.Owns;
      var todo := others(clock);
      clock := clock + 1;
      for i := 0 to |todo|
        invariant Valid() && WorkOf(state, p) == WorkOf(old(state), p) && old(state).history <= state.history
        invariant L.Owns(L.ProcOf(state.lock, p)) == L.Owns(L.ProcOf(old(state).lock, p))
        invariant old(events) <= events && NoReplace(p, events, |old(events)|)
        invariant clock == old(clock) + 1 && (i == 0 ==> state == old(state))
        invariant state == AfterOthers(fmt, old(state), p, todo[..i])
      {
        assert todo[..i + 1][..i] == todo[..i];
        if todo[i].pid != p {
          ghost var next := Step(fmt, state, todo[i].pid, todo[i].action);
          if next.Some? {
            OthersKeepWork(p, todo[i].pid, todo[i].action, next.value);
          }
          var ok := Take(todo[i].pid, todo[i].action);
        }
      }
      assert todo[..|todo|] == todo;
    }

    method Do(p: Pid, a: Action) returns (ok: bool)
      requires Valid()
      modifies this
      ensures Valid() && old(state).history <= state.history
      ensures ok <==> Step(fmt, old(state), p, a).Some?
      ensures ok ==> Moves(fmt, WorkOf(old(state), p), a, WorkOf(state, p))
      ensures ok && a.Replace? ==>
        WorkOf(old(state), p).Staging? && |state.history| > |old(state).history|
        && state.history[|old(state).history|].mutator == WorkOf(old(state), p).mutator
      ensures !ok ==> WorkOf(state, p) == WorkOf(old(state), p)
      ensures old(events) <= events
      ensures !(ok && a.Replace?) ==> NoReplace(p, events, |old(events)|)
      ensures ok && a.Replace? ==> OneReplace(p, events, |old(events)|)
      ensures Undisturbed() ==> if ok then Step(fmt, old(state), p, a) == Some(state) else state == old(state)
      ensures clock == old(clock) + 1
    {
      hide Step, Run, WorkOf, Moves;
      ok := Take(p, a);
      if ok {
        StepMoves(fmt, old(state), p, a, state);
        StepHistory(fmt, old(state), p, a, state);
      }
      ghost var mid := events;
      Interfere(p);
      if ok && a.Replace? {
        assert events[..|old(events)|] == old(events) && events[|old(events)|] == Event(p, a);
      }
    }

    /** Closes the lock descriptor: a finish, an error or a kill. */
    method Leave(p: Pid)
      requires Valid()
      modifies this
      ensures Valid() && WorkOf(state, p).Idle? && old(state).history <= state.history
      ensures old(events) <= events && NoReplace(p, events, |old(events)|)
      ensures clock == old(clock) + 1
      ensures Undisturbed() ==> SameData(old(state), state)
    {
      hide Run, WorkOf;
      LeaveIsPossible(fmt, state, p);
      LeavesFree(fmt, state, p);
      var ok := Do(p, LockStep(L.Leave));
    }

    /** Nobody runs in between and no call of `p` fails. */
    ghost predicate Smooth(dies: nat -> bool) {
      Undisturbed() && forall k :: !dies(k)
    }

    /** The number for the next temp file is always new. */
    ghost predicate NewTemps(unused: nat -> Inode)
      reads this
    {
      forall k :: unused(k) !in state.files
    }

    /** One read-modify-write by `p`. `wants` says whether the caller keeps its changes,
        `flushes` whether the directory flush succeeds, `dies` whether a call fails. A
        success replaces the file just once and follows no failing call; everything else never
        replaces it. When nothing disturbs it, it succeeds exactly when nobody holds the lock,
        the file parses, the caller wants it and the result is not too large. */
    method Update(
      p: Pid, mutator: Mutator, unused: nat -> Inode, chunk: nat, wants: bool, flushes: bool, dies: nat -> bool)
      returns (out: Outcome, ghost k: nat)
      requires Valid() && WorkOf(state, p).Idle? && chunk > 0
      modifies this
      ensures Valid() && WorkOf(state, p).Idle? && old(state).history <= state.history
      ensures out.Written? || out.Unconfirmed? ==>
        |old(state).history| <= k < |state.history| && state.history[k].mutator == mutator
      ensures old(events) <= events
      ensures if out.Written? || out.Unconfirmed? then wants && OneReplace(p, events, |old(events)|)
              else NoReplace(p, events, |old(events)|)
      ensures (out.Written? ==> flushes) && (out.Skipped? ==> !wants)
      ensures out.Written? || out.Unconfirmed? ==> forall k | old(clock) + 3 <= k <= clock - 2 :: !dies(k)
      ensures Smooth(dies) && old(Free(state, p) && NewTemps(unused)) && old(unused(clock) !in state.lock.made) ==>
        if forall document :: !ReadFrom(fmt, old(Content(state)), document) then
          out == Refused && SameData(old(state), state)
        else
          exists document :: ReadFrom(fmt, old(Content(state)), document)
            && if !wants then out == Skipped && SameData(old(state), state)
               else MadeOf(fmt, old(state), state, document, mutator, flushes, out)
      ensures Smooth(dies) && old(Held(state, p)) ==> out == Contended && SameData(old(state), state)
    {
      hide Run, Valid, WorkOf, Step, Content, Parsed, NoReplace, OneReplace, Moves, Alone, Free, Held, MadeOf;
      out, k := Failed, 0;
      ParsedIsRead(fmt, Content(state));
      ghost var smooth :=
        Smooth(dies) && Free(state, p) && NewTemps(unused) && unused(clock) !in state.lock.made;
      var ok := Enter(p, unused);
      ghost var entered, was := events, state;
      if !ok || !WorkOf(state, p).HasRead? || !wants || dies(clock) {
        out := if !ok then Contended else if !WorkOf(state, p).HasRead? then Refused else if !wants then Skipped
               else Failed;
        Leave(p);
        ReplacesAdd(p, old(events), entered, events);
        return;
      }
      out, k := Change(p, mutator, unused, chunk, flushes, dies);
      ReplacesAdd(p, old(events), entered, events);
      if smooth {
        MadeFromSame(fmt, old(state), was, state, WorkOf(was, p).document, mutator, flushes, out);
      }
    }

    /** Opens and locks the lock file and reads the data; false means that another process
        holds the lock. */
    method Enter(p: Pid, unused: nat -> Inode) returns (ok: bool)
      requires Valid() && WorkOf(state, p).Idle?
      modifies this
      ensures Valid() && old(state).history <= state.history
      ensures old(events) <= events && NoReplace(p, events, |old(events)|)
      ensures clock == old(clock) + 3
      ensures if ok then WorkOf(state, p).Idle? || WorkOf(state, p).HasRead? else WorkOf(state, p).Idle?
      ensures Undisturbed() && old(Free(state, p)) && old(unused(clock) !in state.lock.made) ==>
        && ok && SameData(old(state), state)
        && match Parsed(fmt, old(Content(state)))
           case None => WorkOf(state, p).Idle?
           case Some(document) => WorkOf(state, p) == HasRead(document) && Alone(state, p)
      ensures Undisturbed() && old(Held(state, p)) ==> !ok && SameData(old(state), state)
    {
      hide Run, Valid, WorkOf, Step, Content, Parsed, Alone;
      ghost var free := Undisturbed() && Free(state, p) && unused(clock) !in state.lock.made;
      if free {
        OpensAndLocks(fmt, state, p, unused(clock));
      } else if Held(state, p) {
        OpensButWaits(fmt, state, p, unused(clock));
      }
      ok := Do(p, LockStep(L.Open(unused(clock))));
      ok := Do(p, LockStep(L.TryLock));
      if free {
        ReadsCurrent(fmt, state, p);
        SameContent(old(state), state);
      }
      ok := Do(p, Read);
    }

    /** What the owner of the lock does with the document it read. */
    method Change(
      p: Pid, mutator: Mutator, unused: nat -> Inode, chunk: nat, flushes: bool, dies: nat -> bool)
      returns (out: Outcome, ghost k: nat)
      requires Valid() && WorkOf(state, p).HasRead? && chunk > 0
      modifies this
      ensures Valid() && WorkOf(state, p).Idle? && old(state).history <= state.history
      ensures out == Failed || out == Refused || out == Unconfirmed || out == Written
      ensures out.Written? || out.Unconfirmed? ==>
        |old(state).history| <= k < |state.history| && state.history[k].mutator == mutator
      ensures old(events) <= events
      ensures if out.Written? || out.Unconfirmed? then OneReplace(p, events, |old(events)|)
              else NoReplace(p, events, |old(events)|)
      ensures out.Written? ==> flushes
      ensures out.Refused? ==>
        && !dies(old(clock) + 1) && !dies(old(clock) + 2)
        && |fmt.encode(mutator(WorkOf(old(state), p).document))| > MAX_BYTES
      ensures out.Written? || out.Unconfirmed? ==> forall k | old(clock) < k <= clock - 2 :: !dies(k)
      ensures Smooth(dies) && old(Alone(state, p) && NewTemps(unused)) ==>
        MadeOf(fmt, old(state), state, old(WorkOf(state, p)).document, mutator, flushes, out)
    {
      hide Run, Valid, WorkOf, Step, Content, NoReplace, OneReplace, Alone, MadeOf;
      out, k := Failed, 0;
      ghost var smooth := Smooth(dies) && Alone(state, p) && NewTemps(unused);
      if smooth {
        Mutates(fmt, state, p, mutator);
      }
      var ok := Do(p, Mutate(mutator));
      ghost var mutated, was := events, state;
      if ok && !dies(clock) {
        out, k := Publish(p, mutator, unused, chunk, flushes, dies);
      } else {
        Leave(p);
      }
      ReplacesAdd(p, old(events), mutated, events);
      if smooth {
        MadeFromSame(fmt, old(state), was, state, WorkOf(old(state), p).document, mutator, flushes, out);
      }
    }

    /** The atomic write: a temp file filled chunk by chunk, then renamed over the data. */
    method Publish(p: Pid, mutator: Mutator, unused: nat -> Inode, chunk: nat, flushes: bool, dies: nat -> bool)
      returns (out: Outcome, ghost k: nat)
      requires Valid() && WorkOf(state, p).Mutated? && WorkOf(state, p).mutator == mutator && chunk > 0
      modifies this
      ensures Valid() && WorkOf(state, p).Idle? && old(state).history <= state.history
      ensures out == Failed || out == Refused || out == Unconfirmed || out == Written
      ensures out.Written? || out.Unconfirmed? ==>
        |old(state).history| <= k < |state.history| && state.history[k].mutator == mutator
      ensures old(events) <= events
      ensures if out.Written? || out.Unconfirmed? then OneReplace(p, events, |old(events)|)
              else NoReplace(p, events, |old(events)|)
      ensures out.Written? ==> flushes
      ensures out.Refused? ==>
        !dies(old(clock) + 1) && |fmt.encode(mutator(WorkOf(old(state), p).read))| > MAX_BYTES
      ensures out.Written? || out.Unconfirmed? ==> forall k | old(clock) < k <= clock - 2 :: !dies(k)
      ensures Smooth(dies) && old(Alone(state, p) && NewTemps(unused)) ==>
        MadeOf(fmt, old(state), state, old(WorkOf(state, p)).read, mutator, flushes, out)
    {
      hide Run, Valid, WorkOf, Step, Content, NoReplace, OneReplace, Filled, Alone;
      out, k := Failed, 0;
      ghost var smooth := Smooth(dies) && Alone(state, p) && NewTemps(unused);
      if smooth {
        MakesTemp(fmt, state, p, unused(clock));
      }
      var ok := Do(p, MakeTemp(unused(clock)));
      ghost var staged := events;
      if !ok || dies(clock) || !WorkOf(state, p).Staging? {
        out := if !ok || dies(clock) then Failed else Refused;
        Leave(p);
        ReplacesAdd(p, old(events), staged, events);
        if smooth {
          TooLargeIsMade(fmt, old(state), state, WorkOf(old(state), p).read, mutator, flushes);
        }
        return;
      }
      if smooth {
        EmptyIsFilled(fmt, state, p);
      }
      out, k := FillAndReplace(p, chunk, flushes, dies);
      ReplacesAdd(p, old(events), staged, events);
    }

    /** From an empty temp file to the rename. */
    method FillAndReplace(p: Pid, chunk: nat, flushes: bool, dies: nat -> bool) returns (out: Outcome, ghost k: nat)
      requires Valid() && WorkOf(state, p).Staging? && chunk > 0
      modifies this
      ensures Valid() && WorkOf(state, p).Idle? && old(state).history <= state.history
      ensures out == Failed || out == Unconfirmed || out == Written
      ensures out.Written? || out.Unconfirmed? ==>
        |old(state).history| <= k < |state.history| && state.history[k].mutator == WorkOf(old(state), p).mutator
      ensures old(events) <= events
      ensures if out.Written? || out.Unconfirmed? then OneReplace(p, events, |old(events)|)
              else NoReplace(p, events, |old(events)|)
      ensures out != Failed ==> out == if flushes then Written else Unconfirmed
      ensures out != Failed ==> forall k | old(clock) < k <= clock - 2 :: !dies(k)
      ensures Smooth(dies) && old(Filled(fmt, state, p, 0)) ==>
        var w := old(WorkOf(state, p));
        out != Failed && Content(state) == Some(fmt.encode(w.mutator(w.read)))
        && state.history == old(state).history + [DurableJson.Update(w.read, w.mutator, w.mutator(w.read))]
    {
      hide Run, Valid, WorkOf, Step, Content, NoReplace, OneReplace, Filled;
      out, k := Failed, 0;
      ghost var smooth := Smooth(dies) && Filled(fmt, state, p, 0);
      var ok := Fill(p, chunk, smooth, dies);
      ghost var filled := events;
      if !ok {
        Leave(p);
        ReplacesAdd(p, old(events), filled, events);
        return;
      }
      k := |state.history|;
      if smooth {
        ReplacesWhole(fmt, state, p);
      }
      ok := Do(p, Replace);
      ghost var replaced, was := events, state;
      Leave(p);
      ReplacesAdd(p, old(events), filled, replaced);
      ReplacesAdd(p, old(events), replaced, events);
      if smooth {
        SameContent(was, state);
      }
      out := if !ok then Failed else if flushes then Written else Unconfirmed;
    }

    /** The loop of writes to the temp file. */
    method Fill(p: Pid, chunk: nat, ghost smooth: bool, dies: nat -> bool) returns (ok: bool)
      requires Valid() && WorkOf(state, p).Staging? && chunk > 0
      requires smooth ==> Smooth(dies) && Filled(fmt, state, p, 0)
      modifies this
      ensures Valid() && old(state).history <= state.history
      ensures ok ==> WorkOf(state, p).Staging? && WorkOf(state, p).mutator == WorkOf(old(state), p).mutator
                     && WorkOf(state, p).read == WorkOf(old(state), p).read
      ensures old(events) <= events && NoReplace(p, events, |old(events)|)
      ensures ok ==> clock >= old(clock) && forall k | old(clock) < k <= clock :: !dies(k)
      ensures smooth ==>
        && ok && state.history == old(state).history
        && Filled(fmt, state, p, |fmt.encode(WorkOf(state, p).mutator(WorkOf(state, p).read))|)
    {
      hide Run, Valid, WorkOf, Step, Content, NoReplace, OneReplace, Filled;
      var payload := fmt.encode(WorkOf(state, p).mutator(WorkOf(state, p).read));
      var written := 0;
      ok := true;
      NothingReplaced(p, events);
      while written < |payload|
        invariant written <= |payload| && Valid() && old(state).history <= state.history && ok
        invariant WorkOf(state, p).Staging? && WorkOf(state, p).mutator == WorkOf(old(state), p).mutator
        invariant WorkOf(state, p).read == WorkOf(old(state), p).read
        invariant old(events) <= events && NoReplace(p, events, |old(events)|)
        invariant clock >= old(clock) && forall k | old(clock) < k <= clock :: !dies(k)
        invariant smooth ==> Filled(fmt, state, p, written) && state.history == old(state).history
      {
        var bytes := if written + chunk <= |payload| then chunk else |payload| - written;
        if smooth {
          WritesChunk(fmt, state, p, written, bytes);
        }
        ghost var before := events;
        ok := Do(p, WriteChunk(bytes));
        ReplacesAdd(p, old(events), before, events);
        if !ok || dies(clock) {
          return false;
        }
        written := written + bytes;
      }
    }
  }

  lemma ParsedIsRead(fmt: Format, content: Option<Bytes>)
    ensures match Parsed(fmt, content)
            case None => forall document :: !ReadFrom(fmt, content, document)
            case Some(document) => ReadFrom(fmt, content, document)
  {
  }

  lemma NothingReplaced(p: Pid, events: seq<Event>)
    ensures NoReplace(p, events, |events|)
  {
  }

  lemma EmptyIsFilled(fmt: Format, s: State, p: Pid)
    requires WorkOf(s, p).Staging? && Alone(s, p) && WorkOf(s, p).temp in s.files && s.files[WorkOf(s, p).temp] == []
    ensures Filled(fmt, s, p, 0)
  {
  }

  lemma LeaveIsPossible(fmt: Format, s: State, p: Pid)
    ensures Step(fmt, s, p, LockStep(L.Leave)).Some?
  {
  }
}
