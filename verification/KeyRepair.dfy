/** Repair of the key header's conflict copies while other devices change the folder
    between any two steps. Every step is logged with the folder it saw. */
module KeyRepair {
  import opened Manifests
  import opened KeyHeader

  datatype What =
    | SawExists(present: bool)
    | SawNames(names: seq<string>)
    | SawCanonical(canonical: Option<File>)
    | SawCopy(name: string, file: File)
    | Removed(name: string)
    | NotRemoved(name: string)

  /** One step and the folder at that moment. */
  datatype Op = Op(at: Folder, what: What)

  function NamesOf(copies: seq<Copy>): seq<string> {
    seq(|copies|, i requires 0 <= i < |copies| => copies[i].name)
  }

  function Lookup(copies: seq<Copy>, name: string): File {
    if copies == [] then Unreadable else if copies[0].name == name then copies[0].file else Lookup(copies[1..], name)
  }

  function Without(copies: seq<Copy>, name: string): seq<Copy> {
    if copies == [] then []
    else (if copies[0].name == name then [] else [copies[0]]) + Without(copies[1..], name)
  }

  /** What a step itself does to the folder: only a removal changes it. */
  function After(op: Op): Folder {
    if op.what.Removed? then op.at.(copies := Without(op.at.copies, op.what.name)) else op.at
  }

  predicate Truthful(op: Op) {
    match op.what
    case SawExists(e) => e == op.at.canonical.Some?
    case SawNames(names) => names == NamesOf(op.at.copies)
    case SawCanonical(file) => file == op.at.canonical
    case SawCopy(name, file) => file == Lookup(op.at.copies, name)
    case Removed(_) => true
    case NotRemoved(_) => true
  }

  /** Each removal directly follows a read of that copy and a read of the canonical, in
      that order backwards, whose bytes hash the same. */
  predicate Checked(hash: Hash, log: seq<Op>, from: nat) {
    forall k | from <= k < |log| && log[k].what.Removed? :: CheckedAt(hash, log, from, k)
  }

  predicate CheckedAt(hash: Hash, log: seq<Op>, from: nat, k: nat)
    requires k < |log| && log[k].what.Removed?
  {
    && k >= from + 2
    && log[k - 1].what.SawCopy? && log[k - 1].what.name == log[k].what.name && log[k - 1].what.file.Regular?
    && log[k - 2].what.SawCanonical? && log[k - 2].what.canonical.Some? && log[k - 2].what.canonical.value.Regular?
    && hash(log[k - 1].what.file.data) == hash(log[k - 2].what.canonical.value.data)
  }

  /** Not even a removal that the storage refuses. */
  predicate RemovesNothing(log: seq<Op>, from: nat) {
    forall k | from <= k < |log| :: !log[k].what.Removed? && !log[k].what.NotRemoved?
  }

  /** No removal was refused and every read of the canonical found this digest. */
  predicate Steady(hash: Hash, digest: Option<string>, log: seq<Op>, from: nat) {
    forall k | from <= k < |log| ::
      !log[k].what.NotRemoved? && (log[k].what.SawCanonical? ==> HashOf(hash, log[k].what.canonical) == digest)
  }

  /** Nothing follows a refused removal, or a read of the canonical with another digest. */
  predicate StopsThere(hash: Hash, digest: Option<string>, log: seq<Op>, from: nat) {
    |log| > from ==> Steady(hash, digest, log[..|log| - 1], from)
  }

  predicate EndsRefused(log: seq<Op>, from: nat) {
    |log| > from && log[|log| - 1].what.NotRemoved?
  }

  ghost predicate DistinctNames(copies: seq<Copy>) {
    forall i, j :: 0 <= i < j < |copies| ==> copies[i].name != copies[j].name
  }

  datatype Outcome = Done | Changed | TooNew(version: int) | Failed

  /** The last plan entry with `delete` set for a name. */
  function PlannedFor(copies: seq<Planned>, name: string): Option<string> {
    if copies == [] then None
    else
      var last := copies[|copies| - 1];
      if last.delete && last.name == name then last.hash else PlannedFor(copies[..|copies| - 1], name)
  }

  class Storage {
    var folder: Folder
    var log: seq<Op>
    const meddle: (nat, Folder) -> Folder
    const unlinkFails: nat -> bool

    constructor (folder: Folder, meddle: (nat, Folder) -> Folder, unlinkFails: nat -> bool)
      ensures this.folder == folder && log == [] && this.meddle == meddle && this.unlinkFails == unlinkFails
      ensures Faithful()
    {
      this.folder, log, this.meddle, this.unlinkFails := folder, [], meddle, unlinkFails;
    }

    /** Every step saw the truth, and between two steps the folder changed only by what the
        first one did and by what others did after it. */
    ghost predicate Faithful()
      reads this
    {
      && (forall k | 0 <= k < |log| :: Truthful(log[k]))
      && (forall k | 0 <= k < |log| - 1 :: log[k + 1].at == meddle(k, After(log[k])))
      && (log != [] ==> folder == meddle(|log| - 1, After(log[|log| - 1])))
    }

    /** Nobody else touches the folder and no removal fails. */
    ghost predicate Quiet() {
      (forall k, f :: meddle(k, f) == f) && forall k :: !unlinkFails(k)
    }

    /** The recorded removals are those the storage let pass, the others those it refused. */
    ghost predicate RemovalsSucceed(from: nat)
      reads this
    {
      && (forall k | from <= k < |log| && log[k].what.Removed? :: !unlinkFails(k))
      && (forall k | from <= k < |log| && log[k].what.NotRemoved? :: unlinkFails(k))
    }

    lemma NoneRemoved(from: nat)
      requires RemovesNothing(log, from)
      ensures RemovalsSucceed(from)
    {
    }

    method Record(what: What)
      requires Faithful() && Truthful(Op(folder, what))
      modifies this
      ensures Faithful() && log == old(log) + [Op(old(folder), what)]
      ensures folder == meddle(|old(log)|, After(Op(old(folder), what)))
    {
      var op := Op(folder, what);
      folder := meddle(|log|, After(op));
      log := log + [op];
    }

    method ReadCopy(name: string) returns (file: File)
      requires Faithful()
      modifies this
      ensures Faithful() && log == old(log) + [Op(old(folder), SawCopy(name, file))]
      ensures file == Lookup(old(folder).copies, name)
      ensures Quiet() ==> folder == old(folder)
    {
      file := Lookup(folder.copies, name);
      Record(SawCopy(name, file));
    }

    method ReadCanonical() returns (file: Option<File>)
      requires Faithful()
      modifies this
      ensures Faithful() && log == old(log) + [Op(old(folder), SawCanonical(file))]
      ensures file == old(folder).canonical
      ensures Quiet() ==> folder == old(folder)
    {
      file := folder.canonical;
      Record(SawCanonical(file));
    }

    method ListNames() returns (names: seq<string>)
      requires Faithful()
      modifies this
      ensures Faithful() && log == old(log) + [Op(old(folder), SawNames(names))]
      ensures names == NamesOf(old(folder).copies)
      ensures Quiet() ==> folder == old(folder)
    {
      names := NamesOf(folder.copies);
      Record(SawNames(names));
    }

    method SeeCanonical() returns (present: bool)
      requires Faithful()
      modifies this
      ensures Faithful() && log == old(log) + [Op(old(folder), SawExists(present))]
      ensures present == old(folder).canonical.Some?
      ensures Quiet() ==> folder == old(folder)
    {
      present := folder.canonical.Some?;
      Record(SawExists(present));
    }

    /** What a fetch sees: presence, then names, then contents, each at its own moment. */
    method Observe() returns (seen: Folder)
      requires Faithful()
      modifies this
      ensures Faithful() && old(log) <= log && RemovesNothing(log, |old(log)|)
      ensures Quiet() ==> folder == old(folder)
      ensures Quiet() && DistinctNames(old(folder).copies) ==> seen == old(folder)
    {
      hide Faithful, Lookup, Truthful, DistinctNames;
      ghost var start := folder;
      var present := SeeCanonical();
      var names := ListNames();
      var canonical: Option<File> := None;
      if present {
        var file := ReadCanonical();
        canonical := Some(if file.Some? then file.value else Unreadable);
      }
      var copies: seq<Copy> := [];
      for i := 0 to |names|
        invariant Faithful() && old(log) <= log && RemovesNothing(log, |old(log)|)
        invariant Quiet() ==> folder == start
        invariant Quiet() && DistinctNames(start.copies) ==> copies == start.copies[..i]
      {
        ghost var here := folder;
        var file := ReadCopy(names[i]);
        if Quiet() && DistinctNames(start.copies) {
          LookupDistinct(start.copies, i);
        }
        copies := copies + [Copy(names[i], file)];
      }
      seen := Folder(canonical, copies);
    }

    /** Removes conflict copies identical to the canonical; writes nothing. */
    method Repair(hash: Hash, fetch: Fetch) returns (out: Outcome)
      requires Faithful() && FromFetch(hash, fetch)
      modifies this
      ensures Faithful() && old(log) <= log
      ensures Checked(hash, log, |old(log)|)
      ensures out.Changed? || out.TooNew? ==> RemovesNothing(log, |old(log)|)
      ensures Quiet() && DistinctNames(old(folder).copies) && fetch == FetchOf(hash, old(folder)) && fetch.Found? ==>
        out == Done && folder == Cleaned(old(folder))
      ensures Quiet() && DistinctNames(old(folder).copies) ==>
        var now := FetchOf(hash, old(folder));
        if now.FetchNewer? then out == TooNew(now.version) && folder == old(folder)
        else if !fetch.Found? || !now.Found? || now.winner != fetch.winner
                || (fetch.plan.Some? && HashOf(hash, old(folder).canonical) != fetch.plan.value.canonical) then
          out == Changed && folder == old(folder)
        else out == Done
      ensures out == Failed <==> EndsRefused(log, |old(log)|)
      ensures RemovalsSucceed(|old(log)|)
      ensures fetch.Found? && fetch.plan.Some? ==>
        exists read :: |old(log)| <= read <= |log| && RemovesNothing(log[..read], |old(log)|)
                       && StopsThere(hash, fetch.plan.value.canonical, log, read)
    {
      hide Faithful, DistinctNames, Cleaned, SoundPlan, FetchOf, PlanOf, RemovesNothing, Checked, RemovesExactly;
      hide Steady;
      ghost var start := folder;
      ghost var from := |log|;
      var seen := Observe();
      NothingRemovedYet(hash, log, from);
      NothingTried(hash, if fetch.Found? && fetch.plan.Some? then fetch.plan.value.canonical else None, log, from);
      NoneRemoved(from);
      var current := FetchOf(hash, seen);
      if current.FetchNewer? {
        return TooNew(current.version);
      }
      if !fetch.Found? || !current.Found? || current.winner != fetch.winner {
        return Changed;
      }
      if fetch.plan.None? {
        NoPlanNothingToClean(hash, start);
        return Done;
      }
      var plan := fetch.plan.value;
      PlansAreSound(hash, fetch);
      PlanOfFetch(hash, start);
      ghost var before := log;
      var canonical := ReadCanonical();
      RemovesNothingMore(before, log[|before|], from);
      NothingRemovedYet(hash, log, from);
      NothingTried(hash, plan.canonical, log, from);
      if HashOf(hash, canonical) != plan.canonical {
        return Changed;
      }
      if canonical.None? || canonical.value.Unreadable? {
        NothingToClean(start);
        return Done;
      }
      ghost var mid := log;
      var removable := FindRemovable(hash, plan, start);
      StillRemovesNothing(mid, log, from);
      NothingTried(hash, plan.canonical, log, from);
      ghost var read := log;
      out := RemoveChecked(hash, plan, removable, from, start);
      assert log[..|read|] == read;
      if Quiet() {
        assert !EndsRefused(log, |read|);
      }
    }

    /** Planned copies that still hold the planned bytes. */
    method FindRemovable(hash: Hash, plan: Plan, ghost start: Folder) returns (removable: map<string, string>)
      requires Faithful() && SoundPlan(plan)
      modifies this
      ensures Faithful() && old(log) <= log && RemovesNothing(log, |old(log)|)
      ensures forall n | n in removable :: plan.canonical == Some(removable[n])
      ensures Settled(hash, plan, start) && old(folder) == start ==>
        folder == start && RemovesExactly(removable, start)
    {
      hide Faithful, Lookup, Truthful, DistinctNames, PlannedFor, PlanOf;
      removable := map[];
      var names := ListNames();
      for i := 0 to |names|
        invariant Faithful() && old(log) <= log && RemovesNothing(log, |old(log)|)
        invariant forall n | n in removable :: plan.canonical == Some(removable[n])
        invariant Settled(hash, plan, start) && old(folder) == start ==>
          && folder == start && names == NamesOf(start.copies)
          && forall j | 0 <= j < |names| ::
               names[j] in removable <==> j < i && Redundant(start.canonical, start.copies[j])
      {
        if Settled(hash, plan, start) && old(folder) == start {
          LookupDistinct(start.copies, i);
          PlannedDistinct(hash, start, i);
          NamesDiffer(start.copies, i);
        }
        var planned := PlannedFor(plan.copies, names[i]);
        if planned.Some? {
          PlannedHash(plan, plan.copies, names[i]);
          var file := ReadCopy(names[i]);
          if file.Regular? && hash(file.data) == planned.value {
            removable := removable[names[i] := planned.value];
          }
        }
      }
    }

    /** One removal: the canonical and the copy are read once more, in that order, and the
        copy goes only if both still hold the digest. */
    method CheckAndRemove(hash: Hash, digest: string, name: string, ghost from: nat, ghost phase: nat)
      returns (out: Option<Outcome>)
      requires Faithful() && from <= |log| && Checked(hash, log, from)
      requires phase <= |log| && Steady(hash, Some(digest), log, phase)
      modifies this
      ensures Faithful() && old(log) <= log && Checked(hash, log, from)
      ensures out == None || out == Some(Done) || out == Some(Failed)
      ensures out == Some(Failed) <==> EndsRefused(log, |old(log)|)
      ensures if out.None? then Steady(hash, Some(digest), log, phase)
              else StopsThere(hash, Some(digest), log, phase) && |log| > phase
      ensures old(RemovalsSucceed(from)) ==> RemovalsSucceed(from)
      ensures Quiet() && HashOf(hash, old(folder).canonical) == Some(digest)
              && old(folder).canonical == Some(Lookup(old(folder).copies, name)) ==>
                out == None && folder == old(folder).(copies := Without(old(folder).copies, name))
    {
      hide Faithful, Lookup, Without, Truthful, Checked, Steady, StopsThere;
      ghost var start := log;
      var canonicalNow := ReadCanonical();
      CheckedAppend(hash, start, log[|start|], from);
      SteadyAppend(hash, Some(digest), start, log[|start|], phase);
      if HashOf(hash, canonicalNow) != Some(digest) {
        return Some(Done);
      }
      var file := ReadCopy(name);
      ghost var checks := log;
      CheckedAppend(hash, checks[..|start| + 1], log[|start| + 1], from);
      assert checks == checks[..|start| + 1] + [log[|start| + 1]];
      SteadyAppend(hash, Some(digest), checks[..|start| + 1], log[|start| + 1], phase);
      out := None;
      if file.Regular? && hash(file.data) == digest {
        if unlinkFails(|log|) {
          Record(NotRemoved(name));
          CheckedAppend(hash, checks, log[|checks|], from);
          SteadyAppend(hash, Some(digest), checks, log[|checks|], phase);
          return Some(Failed);
        }
        RecordRemoval(name);
        CheckedAppend(hash, checks, log[|checks|], from);
        SteadyAppend(hash, Some(digest), checks, log[|checks|], phase);
      }
    }

    method RecordRemoval(name: string)
      requires Faithful()
      modifies this
      ensures Faithful() && log == old(log) + [Op(old(folder), Removed(name))]
      ensures Quiet() ==> folder == old(folder).(copies := Without(old(folder).copies, name))
    {
      Record(Removed(name));
    }

    /** Reads the canonical and the copy once more before each removal. */
    method RemoveChecked(hash: Hash, plan: Plan, removable: map<string, string>, ghost from: nat, ghost start: Folder)
      returns (out: Outcome)
      requires Faithful() && from <= |log| && RemovesNothing(log, from)
      requires forall n | n in removable :: plan.canonical == Some(removable[n])
      modifies this
      ensures Faithful() && old(log) <= log && Checked(hash, log, from)
      ensures !out.Changed? && !out.TooNew?
      ensures out == Failed <==> EndsRefused(log, |old(log)|)
      ensures StopsThere(hash, plan.canonical, log, |old(log)|)
      ensures old(RemovalsSucceed(from)) ==> RemovalsSucceed(from)
      ensures Settled(hash, plan, start) && old(folder) == start && RemovesExactly(removable, start) ==>
        out == Done && folder == Cleaned(start)
    {
      hide Faithful, Lookup, DistinctNames, PlanOf, Redundant, CleanedUpTo, Without, Cleaned, Checked, Quiet, HashOf;
      var names := ListNames();
      NothingRemovedYet(hash, log, from);
      KeptOfNothing(start);
      ghost var settled := Settled(hash, plan, start) && old(folder) == start && RemovesExactly(removable, start);
      for i := 0 to |names|
        invariant Faithful() && old(log) <= log && from <= |log| && Checked(hash, log, from)
        invariant old(RemovalsSucceed(from)) ==> RemovalsSucceed(from)
        invariant |log| > |old(log)| && Steady(hash, plan.canonical, log, |old(log)|)
        invariant settled ==> names == NamesOf(start.copies) && folder == CleanedUpTo(start, i)
      {
        if settled {
          CleanOneMore(start, i);
          PlanOfFetch(hash, start);
          RedundantIsCanonical(start.canonical, start.copies[i]);
        }
        if names[i] in removable {
          var stop := CheckAndRemove(hash, removable[names[i]], names[i], from, |old(log)|);
          if stop.Some? {
            return stop.value;
          }
        }
      }
      CleanedToTheEnd(start);
      out := Done;
    }

    /** Nobody interferes, names are distinct, and the plan is the one made of this folder
        with a readable canonical. */
    ghost predicate Settled(hash: Hash, plan: Plan, start: Folder) {
      && Quiet() && DistinctNames(start.copies) && start.canonical.Some? && start.canonical.value.Regular?
      && PlanOf(hash, start) == Some(plan)
    }
  }

  // ---- what repair does to the folder ------------------------------------------

  /** No step writes or removes the canonical, and a removal leaves every other name as it
      was. */
  lemma {:induction false} StepsTouchOneName(op: Op, other: string)
    ensures After(op).canonical == op.at.canonical
    ensures !(op.what.Removed? && op.what.name == other) ==>
      Lookup(After(op).copies, other) == Lookup(op.at.copies, other)
  {
    if op.what.Removed? && op.what.name != other {
      OtherNameStays(op.at.copies, op.what.name, other);
    }
  }

  lemma {:induction false} OtherNameStays(copies: seq<Copy>, name: string, other: string)
    requires name != other
    ensures Lookup(Without(copies, name), other) == Lookup(copies, other)
    decreases |copies|
  {
    if copies != [] {
      OtherNameStays(copies[1..], name, other);
      if copies[0].name != name {
        assert Without(copies, name)[1..] == Without(copies[1..], name);
      } else {
        assert Without(copies, name) == Without(copies[1..], name);
      }
    }
  }

  /** Under a hash that tells contents apart, the removed copy and the canonical held the
      same bytes when they were last read. */
  lemma RemovedBytesWereCanonical(hash: Hash, log: seq<Op>, from: nat, k: nat)
    requires Checked(hash, log, from) && from <= k < |log| && log[k].what.Removed?
    requires forall x, y :: hash(x) == hash(y) ==> x == y
    ensures k >= from + 2 && log[k - 1].what.SawCopy? && log[k - 2].what.SawCanonical?
    ensures log[k - 1].what.name == log[k].what.name && log[k - 2].what.canonical == Some(log[k - 1].what.file)
  {
    assert CheckedAt(hash, log, from, k);
  }

  // ---- the plan ---------------------------------------------------------------

  ghost predicate FromFetch(hash: Hash, fetch: Fetch) {
    exists f :: fetch == FetchOf(hash, f)
  }

  /** A deletion is planned only for the canonical's own digest. */
  predicate SoundPlan(plan: Plan) {
    forall i | 0 <= i < |plan.copies| && plan.copies[i].delete ::
      plan.canonical.Some? && plan.copies[i].hash == plan.canonical
  }

  lemma PlansAreSound(hash: Hash, fetch: Fetch)
    requires FromFetch(hash, fetch) && fetch.Found? && fetch.plan.Some?
    ensures SoundPlan(fetch.plan.value)
  {
    var f :| fetch == FetchOf(hash, f);
    assert fetch.plan == PlanOf(hash, f);
  }

  lemma {:induction false} PlannedHash(plan: Plan, copies: seq<Planned>, name: string)
    requires forall i | 0 <= i < |copies| && copies[i].delete :: copies[i].hash == plan.canonical
    requires PlannedFor(copies, name).Some?
    ensures PlannedFor(copies, name) == plan.canonical
    decreases |copies|
  {
    if copies != [] {
      var last := copies[|copies| - 1];
      if !(last.delete && last.name == name) {
        PlannedHash(plan, copies[..|copies| - 1], name);
      }
    }
  }

  function PlanCopies(hash: Hash, canonical: Option<File>, copies: seq<Copy>): seq<Planned> {
    seq(|copies|, i requires 0 <= i < |copies| => PlanCopy(hash, canonical, copies[i]))
  }

  lemma {:induction false} PlannedAmong(hash: Hash, canonical: Option<File>, copies: seq<Copy>, name: string)
    requires canonical.Some? && canonical.value.Regular? && DistinctNames(copies)
    ensures PlannedFor(PlanCopies(hash, canonical, copies), name) ==
            if exists i :: 0 <= i < |copies| && copies[i].name == name && Redundant(canonical, copies[i])
            then Some(hash(canonical.value.data)) else None
    decreases |copies|
  {
    if copies != [] {
      var init := copies[..|copies| - 1];
      PlannedAmong(hash, canonical, init, name);
      var plan := PlanCopies(hash, canonical, copies);
      assert plan[..|plan| - 1] == PlanCopies(hash, canonical, init);
      assert forall i :: 0 <= i < |init| ==> init[i] == copies[i];
      var last := copies[|copies| - 1];
      assert plan[|plan| - 1] == PlanCopy(hash, canonical, last);
    }
  }

  lemma PlannedDistinct(hash: Hash, start: Folder, i: nat)
    requires i < |start.copies| && DistinctNames(start.copies)
    requires start.canonical.Some? && start.canonical.value.Regular? && PlanOf(hash, start).Some?
    ensures PlannedFor(PlanOf(hash, start).value.copies, start.copies[i].name) ==
            if Redundant(start.canonical, start.copies[i]) then Some(hash(start.canonical.value.data)) else None
  {
    PlannedAmong(hash, start.canonical, start.copies, start.copies[i].name);
    assert PlanOf(hash, start).value.copies == PlanCopies(hash, start.canonical, start.copies);
  }

  // ---- the quiet case -----------------------------------------------------------

  /** Exactly the redundant copies are marked. */
  ghost predicate RemovesExactly(removable: map<string, string>, start: Folder) {
    forall j | 0 <= j < |start.copies| ::
      start.copies[j].name in removable <==> Redundant(start.canonical, start.copies[j])
  }

  function CleanedUpTo(f: Folder, i: nat): Folder
    requires i <= |f.copies|
  {
    f.(copies := Kept(f.canonical, f.copies[..i]) + f.copies[i..])
  }

  lemma {:induction false} LookupDistinct(copies: seq<Copy>, i: nat)
    requires i < |copies| && DistinctNames(copies)
    ensures Lookup(copies, copies[i].name) == copies[i].file
    decreases |copies|
  {
    if i > 0 {
      assert copies[0].name != copies[i].name;
      LookupDistinct(copies[1..], i - 1);
    }
  }

  lemma {:induction false} NothingRedundant(canonical: Option<File>, copies: seq<Copy>)
    requires canonical.None? || canonical.value.Unreadable?
    ensures Kept(canonical, copies) == copies
    decreases |copies|
  {
    if copies != [] {
      NothingRedundant(canonical, copies[1..]);
    }
  }

  lemma KeptOfNothing(f: Folder)
    ensures CleanedUpTo(f, 0) == f
  {
    assert f.copies[..0] == [] && [] + f.copies[0..] == f.copies;
  }

  lemma KeptFirst(canonical: Option<File>, copies: seq<Copy>)
    ensures copies == [] ==> Kept(canonical, copies) == []
    ensures copies != [] ==>
      Kept(canonical, copies)
      == (if Redundant(canonical, copies[0]) then [] else [copies[0]]) + Kept(canonical, copies[1..])
  {
  }

  lemma JoinThree(a: seq<Copy>, b: seq<Copy>, c: seq<Copy>)
    ensures a + (b + c) == (a + b) + c
  {
  }

  lemma {:induction false} KeptConcat(canonical: Option<File>, a: seq<Copy>, b: seq<Copy>)
    ensures Kept(canonical, a + b) == Kept(canonical, a) + Kept(canonical, b)
    decreases |a|
  {
    hide Kept, Redundant;
    KeptFirst(canonical, a);
    KeptFirst(canonical, a + b);
    if a == [] {
      assert a + b == b;
    } else {
      var head, rest := if Redundant(canonical, a[0]) then [] else [a[0]], a[1..];
      assert (a + b)[0] == a[0] && (a + b)[1..] == rest + b;
      KeptConcat(canonical, rest, b);
      JoinThree(head, Kept(canonical, rest), Kept(canonical, b));
    }
  }

  lemma {:induction false} WithoutAbsent(copies: seq<Copy>, name: string)
    requires forall i :: 0 <= i < |copies| ==> copies[i].name != name
    ensures Without(copies, name) == copies
    decreases |copies|
  {
    if copies != [] {
      WithoutAbsent(copies[1..], name);
    }
  }

  lemma {:induction false} WithoutConcat(a: seq<Copy>, b: seq<Copy>, name: string)
    ensures Without(a + b, name) == Without(a, name) + Without(b, name)
    decreases |a|
  {
    if a == [] {
      assert a + b == b;
    } else {
      WithoutConcat(a[1..], b, name);
      var head := if a[0].name == name then [] else [a[0]];
      var all, rest := a + b, a[1..];
      assert all[0] == a[0] && all[1..] == rest + b;
      assert Without(all, name) == head + Without(rest + b, name);
      assert head + (Without(rest, name) + Without(b, name)) == (head + Without(rest, name)) + Without(b, name);
    }
  }

  lemma {:induction false} LookupPast(a: seq<Copy>, b: seq<Copy>, name: string)
    requires forall i :: 0 <= i < |a| ==> a[i].name != name
    ensures Lookup(a + b, name) == Lookup(b, name)
    decreases |a|
  {
    if a == [] {
      assert a + b == b;
    } else {
      LookupPast(a[1..], b, name);
      assert (a + b)[0] == a[0] && (a + b)[1..] == a[1..] + b;
    }
  }

  lemma {:induction false} KeptNames(canonical: Option<File>, copies: seq<Copy>, name: string)
    requires forall i :: 0 <= i < |copies| ==> copies[i].name != name
    ensures forall i :: 0 <= i < |Kept(canonical, copies)| ==> Kept(canonical, copies)[i].name != name
    decreases |copies|
  {
    if copies != [] {
      KeptNames(canonical, copies[1..], name);
    }
  }

  lemma CheckedSoFar(hash: Hash, log: seq<Op>, op: Op, from: nat, k: nat)
    requires Checked(hash, log, from) && from <= k < |log| && log[k].what.Removed?
    ensures (log + [op])[k] == log[k] && CheckedAt(hash, log + [op], from, k)
  {
    assert CheckedAt(hash, log, from, k);
    var more := log + [op];
    assert more[k] == log[k] && more[k - 1] == log[k - 1] && more[k - 2] == log[k - 2];
  }

  lemma CheckedAppend(hash: Hash, log: seq<Op>, op: Op, from: nat)
    requires Checked(hash, log, from)
    requires op.what.Removed? && from <= |log| ==> CheckedAt(hash, log + [op], from, |log|)
    ensures Checked(hash, log + [op], from)
  {
    hide CheckedAt;
    var more := log + [op];
    forall k | from <= k < |more| && more[k].what.Removed?
      ensures CheckedAt(hash, more, from, k)
    {
      if k < |log| {
        CheckedSoFar(hash, log, op, from, k);
      }
    }
  }

  lemma StillRemovesNothing(before: seq<Op>, log: seq<Op>, from: nat)
    requires before <= log && RemovesNothing(before, from) && RemovesNothing(log, |before|)
    ensures RemovesNothing(log, from)
  {
    assert forall k :: 0 <= k < |before| ==> log[k] == before[k];
  }

  lemma RemovesNothingMore(log: seq<Op>, op: Op, from: nat)
    requires RemovesNothing(log, from) && !op.what.Removed? && !op.what.NotRemoved?
    ensures RemovesNothing(log + [op], from)
  {
  }

  lemma SteadyAppend(hash: Hash, digest: Option<string>, log: seq<Op>, op: Op, from: nat)
    requires Steady(hash, digest, log, from) && from <= |log|
    ensures StopsThere(hash, digest, log + [op], from)
    ensures !op.what.NotRemoved? && (op.what.SawCanonical? ==> HashOf(hash, op.what.canonical) == digest) ==>
      Steady(hash, digest, log + [op], from)
  {
    hide HashOf;
    assert (log + [op])[..|log|] == log;
  }

  lemma NothingTried(hash: Hash, digest: Option<string>, log: seq<Op>, from: nat)
    requires RemovesNothing(log, from)
    ensures !EndsRefused(log, from) && log[..|log|] == log && StopsThere(hash, digest, log, |log|)
  {
  }

  lemma NothingRemovedYet(hash: Hash, log: seq<Op>, from: nat)
    requires RemovesNothing(log, from)
    ensures Checked(hash, log, from)
  {
  }

  lemma RedundantIsCanonical(canonical: Option<File>, c: Copy)
    ensures Redundant(canonical, c) ==> canonical == Some(c.file)
  {
  }

  lemma NothingToClean(f: Folder)
    ensures f.canonical.None? || f.canonical.value.Unreadable? ==> Cleaned(f) == f
  {
    if f.canonical.None? || f.canonical.value.Unreadable? {
      NothingRedundant(f.canonical, f.copies);
    }
  }

  lemma CleanedToTheEnd(f: Folder)
    ensures CleanedUpTo(f, |f.copies|) == Cleaned(f)
  {
    assert f.copies[..|f.copies|] == f.copies;
  }

  lemma NamesDiffer(copies: seq<Copy>, i: nat)
    requires i < |copies| && DistinctNames(copies)
    ensures forall j :: 0 <= j < |copies| && j != i ==> copies[j].name != copies[i].name
  {
  }

  lemma NoPlanNothingToClean(hash: Hash, f: Folder)
    ensures FetchOf(hash, f).Found? && FetchOf(hash, f).plan.None? ==> Cleaned(f) == f
  {
    hide Parse, Valid, NewerSeen, Best;
  }

  lemma PlanOfFetch(hash: Hash, f: Folder)
    ensures FetchOf(hash, f).Found? ==> FetchOf(hash, f).plan == PlanOf(hash, f)
    ensures PlanOf(hash, f).Some? ==> PlanOf(hash, f).value.canonical == HashOf(hash, f.canonical)
  {
    hide Parse, Valid, NewerSeen, Best;
  }

  lemma LookupNext(f: Folder, i: nat)
    requires i < |f.copies| && DistinctNames(f.copies)
    ensures Lookup(CleanedUpTo(f, i).copies, f.copies[i].name) == f.copies[i].file
  {
    hide Kept;
    var name := f.copies[i].name;
    NamesDiffer(f.copies, i);
    KeptNames(f.canonical, f.copies[..i], name);
    LookupPast(Kept(f.canonical, f.copies[..i]), f.copies[i..], name);
    assert f.copies[i..][0] == f.copies[i];
  }

  lemma RemoveNext(f: Folder, i: nat)
    requires i < |f.copies| && DistinctNames(f.copies)
    ensures Without(CleanedUpTo(f, i).copies, f.copies[i].name) == Kept(f.canonical, f.copies[..i]) + f.copies[i + 1..]
  {
    hide Kept;
    var name := f.copies[i].name;
    var front, back := Kept(f.canonical, f.copies[..i]), f.copies[i..];
    NamesDiffer(f.copies, i);
    KeptNames(f.canonical, f.copies[..i], name);
    WithoutConcat(front, back, name);
    WithoutAbsent(front, name);
    assert back[0] == f.copies[i] && back[1..] == f.copies[i + 1..];
    WithoutAbsent(back[1..], name);
  }

  lemma KeepNext(f: Folder, i: nat)
    requires i < |f.copies|
    ensures CleanedUpTo(f, i + 1).copies ==
            Kept(f.canonical, f.copies[..i]) + (if Redundant(f.canonical, f.copies[i]) then [] else [f.copies[i]])
            + f.copies[i + 1..]
  {
    var c := f.copies[i];
    assert f.copies[..i + 1] == f.copies[..i] + [c];
    KeptConcat(f.canonical, f.copies[..i], [c]);
    assert [c][1..] == [] && Kept(f.canonical, [c][1..]) == [];
  }

  /** Cleaning one more copy is a removal when it is redundant and nothing otherwise. */
  lemma CleanOneMore(f: Folder, i: nat)
    requires i < |f.copies| && DistinctNames(f.copies)
    ensures
      var name, here := f.copies[i].name, CleanedUpTo(f, i);
      && here.canonical == f.canonical
      && Lookup(here.copies, name) == f.copies[i].file
      && CleanedUpTo(f, i + 1) ==
         if Redundant(f.canonical, f.copies[i]) then here.(copies := Without(here.copies, name)) else here
  {
    hide Kept, Without, Lookup, Redundant, DistinctNames;
    LookupNext(f, i);
    RemoveNext(f, i);
    KeepNext(f, i);
    assert f.copies[i..] == [f.copies[i]] + f.copies[i + 1..];
  }
}
