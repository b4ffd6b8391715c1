/** The run-evidence log: a last-completion register per verb under writers that finish out
    of order, kept under a size ceiling by dropping details it counts. */
module RunLog {
  import opened Manifests

  const MAX_RECORD_BYTES := 16384
  const MAX_TIMESTAMP_CHARS := 64
  const MAX_COUNT := 9007199254740992
  const MAX_DETAILS := 8
  const MAX_DETAIL_CHARS := 384
  const MAX_SCOPE_CHARS := 128
  const MAX_ERRNO_CHARS := 64

  const VERBS: set<string> := {"push", "pull"}
  const OUTCOMES: set<string> := {"success", "degraded", "failed", "skipped"}
  const CAUSES: set<string> := {
    "ok", "no-changes", "setup-error", "authentication-error", "lock-held", "snapshot-refused", "storage-error",
    "crypto-error", "command-refused", "interrupted", "unexpected-error", "result-degraded"}
  /** In the order the JSON text has them. */
  const COUNTS: seq<string> := [
    "bytes_transferred", "content_files", "corrupt_peer_count", "durability_fsync_failures", "events_degradations",
    "held", "maintenance_failures", "total_conflicted", "total_deleted", "total_failed", "total_merged",
    "total_modified", "total_new", "total_skipped", "total_skipped_unknown_source", "total_written"]

  datatype Run = Run(
    completedAt: string,
    outcome: string,
    cause: string,
    counts: map<string, int>,
    accepted: Option<bool>,
    unknown: bool,
    source: Option<string>,
    fromDevice: Option<string>,
    details: seq<string>,
    omitted: int,
    errno: Option<string>)

  /** Foreign functions: the UTC instant of an ISO timestamp, the path-free terminal-safe
      test of a detail, the scope alphabet, and the platform's errno names. */
  datatype Rules = Rules(
    instant: string -> Option<int>,
    safe: string -> bool,
    scoped: string -> bool,
    errnoName: string -> bool)

  // ---- validity ---------------------------------------------------------------

  function Timestamp(r: Rules, s: string): Option<int> {
    if |s| > MAX_TIMESTAMP_CHARS then None else r.instant(s)
  }

  predicate ScopeValue(r: Rules, s: Option<string>) {
    s.Some? ==> 0 < |s.value| <= MAX_SCOPE_CHARS && r.scoped(s.value)
  }

  predicate ValidRun(r: Rules, run: Run) {
    && Timestamp(r, run.completedAt).Some?
    && run.outcome in OUTCOMES && run.cause in CAUSES
    && (forall k | k in run.counts :: k in COUNTS && 0 <= run.counts[k] <= MAX_COUNT)
    && ScopeValue(r, run.source) && ScopeValue(r, run.fromDevice)
    && |run.details| <= MAX_DETAILS
    && (forall d | d in run.details :: |d| <= MAX_DETAIL_CHARS && r.safe(d))
    && 0 <= run.omitted <= MAX_COUNT
    && (run.errno.Some? ==> r.errnoName(run.errno.value) && |run.errno.value| <= MAX_ERRNO_CHARS)
  }

  predicate ValidRuns(r: Rules, runs: map<string, Run>) {
    runs.Keys <= VERBS && forall v | v in runs :: ValidRun(r, runs[v])
  }

  /** The completion instant; every valid record has one. */
  function InstantOf(r: Rules, run: Run): int {
    if Timestamp(r, run.completedAt).Some? then Timestamp(r, run.completedAt).value else 0
  }

  // ---- the size of the JSON text -------------------------------------------------

  /** Bytes of one character in ASCII-only JSON. */
  function EscapedLength(c: char): (n: nat)
    ensures 1 <= n <= 12
  {
    if c == '\"' || c == '\\' || c == '\n' || c == '\r' || c == '\t' || c == '\U{8}' || c == '\U{C}' then 2
    else if c as int < 0x20 || 0x7F <= c as int <= 0xFFFF then 6
    else if c as int > 0xFFFF then 12
    else 1
  }

  function TextSize(s: string): (n: nat)
    ensures |s| <= n <= 12 * |s|
  {
    if s == [] then 0 else EscapedLength(s[0]) + TextSize(s[1..])
  }

  function StringSize(s: string): (n: nat)
    ensures n <= 12 * |s| + 2
  {
    TextSize(s) + 2
  }

  function Digits(n: nat): (d: nat)
    ensures d >= 1
  {
    if n < 10 then 1 else 1 + Digits(n / 10)
  }

  /** A key, its colon and its value. */
  function ItemSize(key: string, value: nat): nat {
    |key| + 2 + 2 + value
  }

  /** Brackets around `count` items with a two-byte separator between them. */
  function Bracketed(count: nat, items: nat): nat {
    2 + items + (if count == 0 then 0 else 2 * (count - 1))
  }

  predicate NonNegative(counts: map<string, int>) {
    forall k | k in counts :: counts[k] >= 0
  }

  function CountsSize(counts: map<string, int>, names: seq<string>): nat
    requires NonNegative(counts)
  {
    if names == [] then 0
    else
      (if names[0] in counts then ItemSize(names[0], Digits(counts[names[0]])) else 0)
      + CountsSize(counts, names[1..])
  }

  function TextsSize(items: seq<string>): nat {
    if items == [] then 0 else StringSize(items[0]) + TextsSize(items[1..])
  }

  function ListSize(items: seq<string>): nat {
    Bracketed(|items|, TextsSize(items))
  }

  function OptionalSize(s: Option<string>): nat {
    if s.Some? then StringSize(s.value) else 4
  }

  function BoolSize(b: bool): nat {
    if b then 4 else 5
  }

  function ScopeSize(run: Run): nat {
    Bracketed((if run.fromDevice.Some? then 1 else 0) + (if run.source.Some? then 1 else 0),
              (if run.fromDevice.Some? then ItemSize("from_device", StringSize(run.fromDevice.value)) else 0)
              + (if run.source.Some? then ItemSize("source", StringSize(run.source.value)) else 0))
  }

  function WordFields(run: Run): nat {
    ItemSize("cause", StringSize(run.cause)) + ItemSize("completed_at", StringSize(run.completedAt))
    + ItemSize("errno", OptionalSize(run.errno)) + ItemSize("outcome", StringSize(run.outcome))
  }

  function FlagFields(run: Run): nat {
    ItemSize("content_accepted", if run.accepted.Some? then BoolSize(run.accepted.value) else 4)
    + ItemSize("ordering_unknown", BoolSize(run.unknown)) + ItemSize("scope", ScopeSize(run))
  }

  function CountFields(run: Run): nat
    requires run.omitted >= 0 && NonNegative(run.counts)
  {
    ItemSize("counts", Bracketed(|run.counts|, CountsSize(run.counts, COUNTS)))
    + ItemSize("omitted_details", Digits(run.omitted))
  }

  /** Everything but the details. */
  function FixedSize(run: Run): nat
    requires run.omitted >= 0 && NonNegative(run.counts)
  {
    WordFields(run) + FlagFields(run) + CountFields(run)
  }

  function RunSize(run: Run): nat
    requires run.omitted >= 0 && NonNegative(run.counts)
  {
    Bracketed(10, FixedSize(run) + ItemSize("degradations", ListSize(run.details)))
  }

  predicate Sizable(runs: map<string, Run>) {
    forall v | v in runs :: runs[v].omitted >= 0 && NonNegative(runs[v].counts)
  }

  /** Bytes of the whole log as the program measures it. */
  function LogSize(runs: map<string, Run>): nat
    requires Sizable(runs)
  {
    Bracketed(1 + (if "pull" in runs then 1 else 0) + (if "push" in runs then 1 else 0),
              (if "pull" in runs then ItemSize("pull", RunSize(runs["pull"])) else 0)
              + (if "push" in runs then ItemSize("push", RunSize(runs["push"])) else 0)
              + ItemSize("version", 1))
  }

  lemma {:induction false} DigitsBound(n: nat, d: nat)
    requires n < Power10(d) && d >= 1
    ensures Digits(n) <= d
    decreases d
  {
    if d > 1 && n >= 10 {
      DigitsBound(n / 10, d - 1);
    }
  }

  function Power10(d: nat): nat {
    if d == 0 then 1 else 10 * Power10(d - 1)
  }

  lemma CountDigits(n: nat)
    requires n <= MAX_COUNT
    ensures Digits(n) <= 16
  {
    assert Power10(4) == 10000;
    assert Power10(8) == 100000000;
    assert Power10(12) == 1000000000000;
    assert Power10(16) == 10000000000000000;
    DigitsBound(n, 16);
  }

  function NamesLength(names: seq<string>): nat {
    if names == [] then 0 else |names[0]| + NamesLength(names[1..])
  }

  lemma {:induction false} CountsBound(counts: map<string, int>, names: seq<string>)
    requires forall k | k in counts :: 0 <= counts[k] <= MAX_COUNT
    ensures CountsSize(counts, names) <= NamesLength(names) + 20 * |names|
    decreases |names|
  {
    if names != [] {
      CountsBound(counts, names[1..]);
      if names[0] in counts {
        CountDigits(counts[names[0]]);
      }
    }
  }

  lemma {:induction false} NamesBound(names: seq<string>)
    requires forall n | n in names :: |n| <= 28
    ensures NamesLength(names) <= 28 * |names|
    decreases |names|
  {
    hide COUNTS, CAUSES, OUTCOMES;
    if names != [] {
      NamesBound(names[1..]);
    }
  }

  lemma {:induction false} KeysBound(counts: map<string, int>, names: seq<string>)
    requires forall k | k in counts :: k in names
    ensures |counts| <= |names|
    decreases |names|
  {
    if names != [] {
      var rest := counts - {names[0]};
      KeysBound(rest, names[1..]);
      assert counts.Keys == rest.Keys + (if names[0] in counts then {names[0]} else {});
      assert |counts| == |counts.Keys| && |rest| == |rest.Keys|;
    } else {
      assert counts == map[];
    }
  }

  lemma CountNames()
    ensures |COUNTS| == 16 && forall n | n in COUNTS :: |n| <= 28
  {
    hide CAUSES, OUTCOMES;
  }

  lemma CountsFit(counts: map<string, int>)
    requires forall k | k in counts :: k in COUNTS && 0 <= counts[k] <= MAX_COUNT
    ensures Bracketed(|counts|, CountsSize(counts, COUNTS)) <= 2 + 448 + 320 + 32
  {
    CountNames();
    hide CountsSize, COUNTS, CAUSES, OUTCOMES;
    KeysBound(counts, COUNTS);
    CountsBound(counts, COUNTS);
    NamesBound(COUNTS);
  }

  lemma OutcomeFits(outcome: string)
    requires outcome in OUTCOMES
    ensures |outcome| <= 8
  {
    hide COUNTS, CAUSES;
  }

  lemma CauseFits(cause: string)
    requires cause in CAUSES
    ensures |cause| <= 20
  {
    hide COUNTS, OUTCOMES;
  }

  lemma WordFieldsFit(run: Run)
    requires |run.outcome| <= 8 && |run.cause| <= 20 && |run.completedAt| <= MAX_TIMESTAMP_CHARS
    requires run.errno.Some? ==> |run.errno.value| <= MAX_ERRNO_CHARS
    ensures WordFields(run) <= 2000
  {
    hide COUNTS, CAUSES, OUTCOMES, StringSize;
  }

  lemma FlagFieldsFit(r: Rules, run: Run)
    requires ValidRun(r, run)
    ensures FlagFields(run) <= 3200
  {
    hide COUNTS, CAUSES, OUTCOMES, StringSize;
  }

  lemma CountFieldsFit(r: Rules, run: Run)
    requires ValidRun(r, run)
    ensures CountFields(run) <= 900
  {
    CountsFit(run.counts);
    CountDigits(run.omitted);
    hide COUNTS, CAUSES, OUTCOMES, CountsSize, Digits, Bracketed;
  }

  /** Without details a valid record is small. */
  lemma FixedFits(r: Rules, run: Run)
    requires ValidRun(r, run) && run.details == []
    ensures RunSize(run) <= 7000
  {
    hide COUNTS, CAUSES, OUTCOMES, WordFields, FlagFields, CountFields;
    OutcomeFits(run.outcome);
    CauseFits(run.cause);
    WordFieldsFit(run);
    FlagFieldsFit(r, run);
    CountFieldsFit(r, run);
  }

  /** So the log can never stay above its ceiling once all details are gone. */
  lemma EmptyDetailsFit(r: Rules, runs: map<string, Run>)
    requires ValidRuns(r, runs) && forall v | v in runs :: runs[v].details == []
    ensures LogSize(runs) <= MAX_RECORD_BYTES
  {
    hide RunSize, COUNTS, CAUSES, OUTCOMES;
    if "pull" in runs {
      FixedFits(r, runs["pull"]);
    }
    if "push" in runs {
      FixedFits(r, runs["push"]);
    }
  }

  // ---- trimming ------------------------------------------------------------------

  /** The entry with the longest encoded details; `pullFirst` is the insertion order. */
  function Largest(runs: map<string, Run>, pullFirst: bool): (v: string)
    requires runs.Keys <= VERBS && runs != map[]
    ensures v in runs && v in VERBS
    ensures forall w | w in runs :: ListSize(runs[w].details) <= ListSize(runs[v].details)
  {
    hide StringSize, TextsSize;
    if "push" !in runs then OnlyVerb(runs); "pull"
    else if "pull" !in runs then "push"
    else
      var push, pull := ListSize(runs["push"].details), ListSize(runs["pull"].details);
      if pullFirst then (if push > pull then "push" else "pull") else (if pull > push then "pull" else "push")
  }

  lemma OnlyVerb(runs: map<string, Run>)
    requires runs.Keys <= VERBS && runs != map[] && "push" !in runs
    ensures "pull" in runs && runs.Keys == {"pull"}
  {
    var v :| v in runs;
  }

  /** Drops the last detail and counts it, up to the cap. */
  function DropDetail(run: Run): Run
    requires run.details != []
  {
    run.(details := run.details[..|run.details| - 1],
         omitted := if run.omitted + 1 <= MAX_COUNT then run.omitted + 1 else MAX_COUNT)
  }

  function DetailCount(runs: map<string, Run>): nat {
    (if "push" in runs then |runs["push"].details| else 0) + (if "pull" in runs then |runs["pull"].details| else 0)
  }

  function Trim(runs: map<string, Run>, pullFirst: bool): map<string, Run>
    requires runs.Keys <= VERBS && Sizable(runs)
    decreases DetailCount(runs)
  {
    if LogSize(runs) <= MAX_RECORD_BYTES || runs == map[] then runs
    else
      var v := Largest(runs, pullFirst);
      if runs[v].details == [] then runs else Trim(runs[v := DropDetail(runs[v])], pullFirst)
  }

  /** `b` is `a` with some trailing details dropped and counted, up to the cap. */
  predicate Trimmed(a: Run, b: Run) {
    && b == a.(details := b.details, omitted := b.omitted)
    && b.details <= a.details
    && b.omitted == (if a.omitted + |a.details| - |b.details| <= MAX_COUNT then a.omitted + |a.details| - |b.details|
                     else MAX_COUNT)
  }

  lemma TrimmedTwice(a: Run, b: Run, c: Run)
    requires Trimmed(a, b) && Trimmed(b, c)
    ensures Trimmed(a, c)
  {
  }

  lemma DropIsTrimmed(r: Rules, run: Run)
    requires ValidRun(r, run) && run.details != []
    ensures Trimmed(run, DropDetail(run)) && ValidRun(r, DropDetail(run))
  {
    hide COUNTS, CAUSES, OUTCOMES;
    assert forall d | d in DropDetail(run).details :: d in run.details;
  }

  lemma ValidIsSizable(r: Rules, runs: map<string, Run>)
    requires ValidRuns(r, runs)
    ensures Sizable(runs)
  {
    hide COUNTS, CAUSES, OUTCOMES;
  }

  lemma NotTrimmedAtAll(r: Rules, runs: map<string, Run>)
    requires ValidRuns(r, runs)
    ensures forall v | v in runs :: Trimmed(runs[v], runs[v])
  {
    hide COUNTS, CAUSES, OUTCOMES;
  }

  /** When the longest details are empty all are, and then the log fits. */
  lemma NothingLongerThanNothing(r: Rules, runs: map<string, Run>, pullFirst: bool)
    requires ValidRuns(r, runs) && runs != map[] && runs[Largest(runs, pullFirst)].details == []
    ensures LogSize(runs) <= MAX_RECORD_BYTES
  {
    hide COUNTS, CAUSES, OUTCOMES, LogSize, StringSize, Largest;
    forall v | v in runs
      ensures runs[v].details == []
    {
      if runs[v].details != [] {
        LongerList(runs[v].details);
      }
    }
    EmptyDetailsFit(r, runs);
  }

  lemma LongerList(items: seq<string>)
    requires items != []
    ensures ListSize(items) > ListSize([])
  {
  }

  /** Trimming ends at or below the ceiling, keeps every record and everything in it but
      trailing details, and counts what it drops. */
  lemma {:induction false} TrimMeaning(r: Rules, runs: map<string, Run>, pullFirst: bool)
    requires ValidRuns(r, runs)
    ensures Sizable(runs)
    ensures
      var t := Trim(runs, pullFirst);
      && ValidRuns(r, t) && Sizable(t) && t.Keys == runs.Keys && (runs != map[] ==> LogSize(t) <= MAX_RECORD_BYTES)
      && forall v | v in runs :: Trimmed(runs[v], t[v])
    decreases DetailCount(runs)
  {
    hide COUNTS, CAUSES, OUTCOMES, LogSize, StringSize, Trimmed, Largest, ValidRun;
    ValidIsSizable(r, runs);
    NotTrimmedAtAll(r, runs);
    if LogSize(runs) > MAX_RECORD_BYTES && runs != map[] {
      var v := Largest(runs, pullFirst);
      if runs[v].details == [] {
        NothingLongerThanNothing(r, runs, pullFirst);
      } else {
        DropIsTrimmed(r, runs[v]);
        var next := runs[v := DropDetail(runs[v])];
        TrimMeaning(r, next, pullFirst);
        var t := Trim(next, pullFirst);
        forall w | w in runs
          ensures Trimmed(runs[w], t[w])
        {
          if w == v {
            TrimmedTwice(runs[v], next[v], t[v]);
          }
        }
      }
    }
  }

  // ---- one write -----------------------------------------------------------------------

  /** Nothing to write: the record is already the one kept. */
  predicate Unchanged(r: Rules, runs: map<string, Run>, verb: string, record: Run) {
    verb in runs && InstantOf(r, runs[verb]) >= InstantOf(r, record) && runs[verb] == record
  }

  /** An older or equal completion never replaces the kept one; it marks the order unknown. */
  function Admit(r: Rules, runs: map<string, Run>, verb: string, record: Run): map<string, Run> {
    if verb in runs && InstantOf(r, runs[verb]) >= InstantOf(r, record) then runs[verb := runs[verb].(unknown := true)]
    else runs[verb := record]
  }

  lemma AdmitIsValid(r: Rules, runs: map<string, Run>, verb: string, record: Run)
    requires ValidRuns(r, runs) && ValidRun(r, record) && verb in VERBS
    ensures ValidRuns(r, Admit(r, runs, verb, record)) && Sizable(Admit(r, runs, verb, record))
  {
    hide COUNTS, CAUSES, OUTCOMES;
  }

  function After(r: Rules, runs: map<string, Run>, verb: string, record: Run): map<string, Run>
    requires ValidRuns(r, runs) && ValidRun(r, record) && verb in VERBS
  {
    if Unchanged(r, runs, verb, record) then runs
    else
      AdmitIsValid(r, runs, verb, record);
      Trim(Admit(r, runs, verb, record), "pull" in runs)
  }

  /** What one write does: the verb's record has the later of the two completions, its
      order flag is set by any other record that is not newer, every other record keeps all
      but dropped details, and no record or detail goes uncounted below the cap. */
  lemma WriteMeaning(r: Rules, runs: map<string, Run>, verb: string, record: Run)
    requires ValidRuns(r, runs) && ValidRun(r, record) && verb in VERBS
    ensures
      var t := After(r, runs, verb, record);
      && ValidRuns(r, t) && t.Keys == runs.Keys + {verb}
      && (Unchanged(r, runs, verb, record) <==> verb in runs && runs[verb] == record)
      && (verb in runs && InstantOf(r, record) <= InstantOf(r, runs[verb]) && record != runs[verb] ==>
            Trimmed(runs[verb].(unknown := true), t[verb]))
      && (verb in runs && record == runs[verb] ==> t == runs)
      && (verb in runs && InstantOf(r, record) > InstantOf(r, runs[verb]) ==> Trimmed(record, t[verb]))
      && (verb !in runs ==> Trimmed(record, t[verb]))
      && (forall v | v in runs && v != verb :: Trimmed(runs[v], t[v]))
  {
    hide COUNTS, CAUSES, OUTCOMES, Trim, ValidRun, LogSize, Trimmed;
    if Unchanged(r, runs, verb, record) {
      NotTrimmedAtAll(r, runs);
    } else {
      AdmitIsValid(r, runs, verb, record);
      TrimMeaning(r, Admit(r, runs, verb, record), "pull" in runs);
    }
  }

  /** Below the cap no detail is lost without being counted. */
  lemma DetailsAreConserved(a: Run, b: Run)
    requires Trimmed(a, b) && a.omitted + |a.details| <= MAX_COUNT
    ensures |b.details| + b.omitted == |a.details| + a.omitted
  {
  }

  /** Where an in-place write fails: not at all, at its truncation, or after it. */
  datatype Fault = NoFault | AtTruncate | AfterTruncate

  datatype Written = Rejected | Contended | Oversized | Failed | Kept | Done

  /** The log file: None when it is missing or does not hold valid runs. */
  class Log {
    var stored: Option<map<string, Run>>

    constructor ()
      ensures stored == None
    {
      stored := None;
    }

    /** One write. `free` says whether the lock was free. The in-place write truncates
        first: a failing truncation leaves the log, a later failure leaves no valid one. */
    method WriteRun(r: Rules, verb: string, record: Run, free: bool, fault: Fault) returns (out: Written)
      modifies this
      ensures WriteStep(r, old(stored), stored, verb, record, free, fault, out)
    {
      hide COUNTS, CAUSES, OUTCOMES, VERBS, ValidRun, LogSize, Trim, Largest, Trimmed, Sizable;
      if verb !in VERBS || !ValidRun(r, record) {
        return Rejected;
      }
      if !free {
        return Contended;
      }
      var existing := RunsIn(r, stored);
      if Unchanged(r, existing, verb, record) {
        return Kept;
      }
      var pullFirst := "pull" in existing;
      var next := Admit(r, existing, verb, record);
      AdmitIsValid(r, existing, verb, record);
      TrimMeaning(r, next, pullFirst);
      assert verb in next;
      var fits;
      next, fits := TrimInPlace(r, next, pullFirst);
      if !fits {
        return Oversized;
      }
      if fault.AtTruncate? {
        return Failed;
      }
      if fault.AfterTruncate? {
        stored := None;
        return Failed;
      }
      stored := Some(next);
      out := Done;
    }

    /** The trimming loop; it would report a log that no trimming can shrink. */
    static method TrimInPlace(r: Rules, runs: map<string, Run>, pullFirst: bool)
      returns (t: map<string, Run>, fits: bool)
      requires ValidRuns(r, runs) && runs.Keys <= VERBS && runs != map[] && Sizable(runs)
      ensures fits && t == Trim(runs, pullFirst)
    {
      hide COUNTS, CAUSES, OUTCOMES, VERBS, ValidRuns, LogSize, Largest, Trim, DropDetail, DetailCount;
      t := runs;
      while LogSize(t) > MAX_RECORD_BYTES
        invariant ValidRuns(r, t) && t != map[] && t.Keys <= VERBS && Sizable(t)
        invariant Trim(t, pullFirst) == Trim(runs, pullFirst)
        decreases DetailCount(t)
      {
        TrimStep(r, t, pullFirst);
        var v := Largest(t, pullFirst);
        if t[v].details == [] {
          return t, false;
        }
        t := t[v := DropDetail(t[v])];
      }
      TrimDone(r, t, pullFirst);
      fits := true;
    }
  }

  lemma TrimDone(r: Rules, t: map<string, Run>, pullFirst: bool)
    requires t.Keys <= VERBS && Sizable(t) && LogSize(t) <= MAX_RECORD_BYTES
    ensures Trim(t, pullFirst) == t
  {
    hide LogSize, Largest;
  }

  /** Above the ceiling some detail is left to drop, and dropping it makes progress. */
  lemma TrimStep(r: Rules, t: map<string, Run>, pullFirst: bool)
    requires ValidRuns(r, t) && t != map[] && t.Keys <= VERBS && Sizable(t) && LogSize(t) > MAX_RECORD_BYTES
    ensures
      var v := Largest(t, pullFirst);
      && t[v].details != []
      && var next := t[v := DropDetail(t[v])];
         && ValidRuns(r, next) && Sizable(next) && next.Keys <= VERBS
         && Trim(next, pullFirst) == Trim(t, pullFirst) && DetailCount(next) < DetailCount(t)
  {
    hide COUNTS, CAUSES, OUTCOMES, LogSize, Largest, ValidRun;
    var v := Largest(t, pullFirst);
    if t[v].details == [] {
      NothingLongerThanNothing(r, t, pullFirst);
    }
    DropIsTrimmed(r, t[v]);
    ValidIsSizable(r, t[v := DropDetail(t[v])]);
  }

  /** The runs a file holds; a missing or invalid one holds none. */
  function RunsIn(r: Rules, stored: Option<map<string, Run>>): (runs: map<string, Run>)
    ensures ValidRuns(r, runs)
  {
    hide ValidRun;
    if stored.Some? && ValidRuns(r, stored.value) then stored.value else map[]
  }

  /** A write under the lock: kept as it is, replaced by the admitted and trimmed log within
      the ceiling, left alone by a failing truncation or lost with a later failure; never
      refused for its size. */
  ghost predicate WriteLands(
    r: Rules, before: Option<map<string, Run>>, after: Option<map<string, Run>>, verb: string, record: Run,
    fault: Fault, out: Written)
    requires ValidRun(r, record) && verb in VERBS
  {
    var runs := RunsIn(r, before);
    if Unchanged(r, runs, verb, record) then out == Kept && after == before
    else if fault.AtTruncate? then out == Failed && after == before
    else if fault.AfterTruncate? then out == Failed && after == None
    else out == Done && after == Some(After(r, runs, verb, record)) && FitsCeiling(after.value)
  }

  ghost predicate FitsCeiling(runs: map<string, Run>) {
    Sizable(runs) && LogSize(runs) <= MAX_RECORD_BYTES
  }

  /** What one call does to the file, in every case. */
  ghost predicate WriteStep(
    r: Rules, before: Option<map<string, Run>>, after: Option<map<string, Run>>, verb: string, record: Run,
    free: bool, fault: Fault, out: Written)
  {
    if verb !in VERBS || !ValidRun(r, record) then out == Rejected && after == before
    else if !free then out == Contended && after == before
    else WriteLands(r, before, after, verb, record, fault, out)
  }

  // ---- any sequence of writes ---------------------------------------------------------

  datatype Write = Write(verb: string, run: Run)

  predicate ValidWrites(r: Rules, ws: seq<Write>) {
    forall i | 0 <= i < |ws| :: ws[i].verb in VERBS && ValidRun(r, ws[i].run)
  }

  /** The log after writes that all reached the file, from an empty one. */
  function Replay(r: Rules, ws: seq<Write>): (runs: map<string, Run>)
    requires ValidWrites(r, ws)
    ensures ValidRuns(r, runs)
  {
    hide ValidRun;
    if ws == [] then map[]
    else
      var last := ws[|ws| - 1];
      WriteMeaning(r, Replay(r, ws[..|ws| - 1]), last.verb, last.run);
      After(r, Replay(r, ws[..|ws| - 1]), last.verb, last.run)
  }

  /** The completion instant the log holds for a verb. */
  function Latest(r: Rules, runs: map<string, Run>, verb: string): Option<int> {
    if verb in runs then Some(InstantOf(r, runs[verb])) else None
  }

  lemma TrimmedSameInstant(r: Rules, a: Run, b: Run)
    ensures Trimmed(a, b) ==> InstantOf(r, b) == InstantOf(r, a) && b.unknown == a.unknown
    ensures Trimmed(a.(unknown := true), b) ==> InstantOf(r, b) == InstantOf(r, a) && b.unknown
  {
    hide COUNTS, CAUSES, OUTCOMES;
  }

  /** One write moves its verb's register to the maximum, and sets the order flag exactly
      for a differing record that is not newer; other verbs keep both. */
  lemma WriteMovesRegister(r: Rules, runs: map<string, Run>, w: Write, verb: string)
    requires ValidRuns(r, runs) && w.verb in VERBS && ValidRun(r, w.run)
    ensures ValidRuns(r, After(r, runs, w.verb, w.run))
    ensures
      var before, after := Latest(r, runs, verb), Latest(r, After(r, runs, w.verb, w.run), verb);
      var t := After(r, runs, w.verb, w.run);
      if verb != w.verb then after == before && (verb in runs ==> t[verb].unknown == runs[verb].unknown)
      else if before.None? || InstantOf(r, w.run) > before.value then
        after == Some(InstantOf(r, w.run)) && t[verb].unknown == w.run.unknown
      else
        after == before && (t[verb].unknown <==> runs[verb].unknown || w.run != runs[verb])
  {
    hide COUNTS, CAUSES, OUTCOMES, VERBS, ValidRun, After, Trimmed, InstantOf;
    WriteMeaning(r, runs, w.verb, w.run);
    var t := After(r, runs, w.verb, w.run);
    if verb in t {
      TrimmedSameInstant(r, w.run, t[verb]);
      if verb in runs {
        TrimmedSameInstant(r, runs[verb], t[verb]);
      }
    }
  }

  /** `i` is a write of `verb` that no other write of it completes after. */
  ghost predicate IsLatest(r: Rules, ws: seq<Write>, verb: string, i: nat) {
    && i < |ws| && ws[i].verb == verb
    && forall j | 0 <= j < |ws| && ws[j].verb == verb :: InstantOf(r, ws[j].run) <= InstantOf(r, ws[i].run)
  }

  /** For any writes in any order the log holds, per verb, the maximum completion seen. */
  lemma {:induction false} RegisterIsMaximum(r: Rules, ws: seq<Write>, verb: string)
    requires ValidWrites(r, ws)
    ensures verb in Replay(r, ws) <==> exists i :: 0 <= i < |ws| && ws[i].verb == verb
    ensures verb in Replay(r, ws) ==>
      exists i: nat :: IsLatest(r, ws, verb, i) && Latest(r, Replay(r, ws), verb) == Some(InstantOf(r, ws[i].run))
    decreases |ws|
  {
    hide COUNTS, CAUSES, OUTCOMES, VERBS, ValidRun, After, InstantOf;
    if ws != [] {
      var init, last := ws[..|ws| - 1], ws[|ws| - 1];
      RegisterIsMaximum(r, init, verb);
      WriteMovesRegister(r, Replay(r, init), last, verb);
      assert forall i | 0 <= i < |init| :: init[i] == ws[i];
      if verb in Replay(r, init) {
        var i: nat :| IsLatest(r, init, verb, i) && Latest(r, Replay(r, init), verb) == Some(InstantOf(r, init[i].run));
        if last.verb == verb && InstantOf(r, last.run) > InstantOf(r, init[i].run) {
          assert IsLatest(r, ws, verb, |ws| - 1);
        } else {
          assert IsLatest(r, ws, verb, i);
        }
      } else if last.verb == verb {
        assert IsLatest(r, ws, verb, |ws| - 1);
      }
    }
  }

  /** So the order in which the writers got the lock does not matter to the register. */
  lemma OrderDoesNotMatter(r: Rules, one: seq<Write>, two: seq<Write>, verb: string)
    requires ValidWrites(r, one) && ValidWrites(r, two)
    requires forall w :: w in one <==> w in two
    ensures Latest(r, Replay(r, one), verb) == Latest(r, Replay(r, two), verb)
  {
    hide COUNTS, CAUSES, OUTCOMES, VERBS, ValidRun, Replay, InstantOf;
    RegisterIsMaximum(r, one, verb);
    RegisterIsMaximum(r, two, verb);
    assert (exists i :: 0 <= i < |one| && one[i].verb == verb)
      <==> exists i :: 0 <= i < |two| && two[i].verb == verb by {
      if i :| 0 <= i < |one| && one[i].verb == verb {
        assert one[i] in two;
      }
      if i :| 0 <= i < |two| && two[i].verb == verb {
        assert two[i] in one;
      }
    }
    if verb in Replay(r, one) {
      var i: nat :| IsLatest(r, one, verb, i) && Latest(r, Replay(r, one), verb) == Some(InstantOf(r, one[i].run));
      var j: nat :| IsLatest(r, two, verb, j) && Latest(r, Replay(r, two), verb) == Some(InstantOf(r, two[j].run));
      assert one[i] in two && two[j] in one;
    }
  }

  lemma ValidPrefix(r: Rules, ws: seq<Write>)
    requires ValidWrites(r, ws) && ws != []
    ensures ValidWrites(r, ws[..|ws| - 1])
    ensures ws[|ws| - 1].verb in VERBS && ValidRun(r, ws[|ws| - 1].run)
  {
    hide COUNTS, CAUSES, OUTCOMES, VERBS, ValidRun;
  }

  /** Once set, the order flag stays until a strictly newer record of the verb arrives. */
  lemma {:induction false} UnknownSticks(r: Rules, before: seq<Write>, more: seq<Write>, verb: string)
    requires ValidWrites(r, before) && ValidWrites(r, before + more)
    requires verb in Replay(r, before) && Replay(r, before)[verb].unknown
    requires forall w | w in more && w.verb == verb :: InstantOf(r, w.run) <= InstantOf(r, Replay(r, before)[verb])
    ensures verb in Replay(r, before + more) && Replay(r, before + more)[verb].unknown
    ensures Latest(r, Replay(r, before + more), verb) == Latest(r, Replay(r, before), verb)
    decreases |more|
  {
    hide COUNTS, CAUSES, OUTCOMES, VERBS, ValidRun, After, InstantOf, ValidWrites;
    if more == [] {
      assert before + more == before;
    } else {
      var all, init := before + more, more[..|more| - 1];
      assert all[..|all| - 1] == before + init && all[|all| - 1] == more[|more| - 1];
      ValidPrefix(r, all);
      UnknownSticks(r, before, init, verb);
      WriteMovesRegister(r, Replay(r, before + init), more[|more| - 1], verb);
    }
  }
}
