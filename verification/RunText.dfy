/** The run log as the JSON text the program measures: its keys in order, its strings escaped
    to ASCII, its separators two bytes wide. */
module RunText {
  import opened Manifests
  import opened RunLog

  // ---- JSON text --------------------------------------------------------------

  datatype Json =
    | Null
    | Flag(b: bool)
    | Number(n: nat)
    | Text(s: string)
    | List(items: seq<Json>)
    | Object(fields: seq<(string, Json)>)

  const HEX := "0123456789abcdef"

  function Unicode(n: nat): (u: string)
    requires n < 0x1_0000
    ensures |u| == 6
  {
    "\\u" + [HEX[n / 0x1000], HEX[n / 0x100 % 16], HEX[n / 16 % 16], HEX[n % 16]]
  }

  /** Beyond the basic plane a character is written as two surrogates. */
  function Escaped(c: char): string {
    if c == '\"' then "\\\"" else if c == '\\' then "\\\\"
    else if c == '\n' then "\\n" else if c == '\r' then "\\r" else if c == '\t' then "\\t"
    else if c == '\U{8}' then "\\b" else if c == '\U{C}' then "\\f"
    else if ' ' <= c <= '~' then [c]
    else if c as int < 0x1_0000 then Unicode(c as int)
    else
      var n := c as int - 0x1_0000;
      Unicode(0xD800 + n / 0x400) + Unicode(0xDC00 + n % 0x400)
  }

  function EscapedText(s: string): string {
    if s == [] then [] else Escaped(s[0]) + EscapedText(s[1..])
  }

  function Decimal(n: nat): string {
    if n < 10 then [HEX[n]] else Decimal(n / 10) + [HEX[n % 10]]
  }

  function Dump(j: Json): string
    decreases j
  {
    match j
    case Null => "null"
    case Flag(b) => if b then "true" else "false"
    case Number(n) => Decimal(n)
    case Text(s) => "\"" + EscapedText(s) + "\""
    case List(items) => "[" + DumpItems(items) + "]"
    case Object(fields) => "{" + DumpFields(fields) + "}"
  }

  function DumpItems(items: seq<Json>): string
    decreases items
  {
    if items == [] then []
    else if |items| == 1 then Dump(items[0])
    else Dump(items[0]) + ", " + DumpItems(items[1..])
  }

  /** A key has no character to escape. */
  function DumpField(f: (string, Json)): string
    decreases f
  {
    "\"" + f.0 + "\": " + Dump(f.1)
  }

  function DumpFields(fields: seq<(string, Json)>): string
    decreases fields
  {
    if fields == [] then []
    else if |fields| == 1 then DumpField(fields[0])
    else DumpField(fields[0]) + ", " + DumpFields(fields[1..])
  }

  // ---- the log -------------------------------------------------------------------

  function CountItems(counts: map<string, int>, names: seq<string>): seq<(string, Json)>
    requires NonNegative(counts)
  {
    if names == [] then []
    else
      (if names[0] in counts then [(names[0], Number(counts[names[0]]))] else []) + CountItems(counts, names[1..])
  }

  function TextOrNull(s: Option<string>): Json {
    if s.Some? then Text(s.value) else Null
  }

  function ScopeItems(run: Run): seq<(string, Json)> {
    (if run.fromDevice.Some? then [("from_device", Text(run.fromDevice.value))] else [])
    + (if run.source.Some? then [("source", Text(run.source.value))] else [])
  }

  function Texts(items: seq<string>): seq<Json> {
    seq(|items|, i requires 0 <= i < |items| => Text(items[i]))
  }

  function FirstFields(run: Run): seq<(string, Json)>
    requires NonNegative(run.counts)
  {
    [("cause", Text(run.cause)), ("completed_at", Text(run.completedAt)),
     ("content_accepted", if run.accepted.Some? then Flag(run.accepted.value) else Null),
     ("counts", Object(CountItems(run.counts, COUNTS))), ("degradations", List(Texts(run.details)))]
  }

  function LastFields(run: Run): seq<(string, Json)>
    requires run.omitted >= 0
  {
    [("errno", TextOrNull(run.errno)), ("omitted_details", Number(run.omitted)),
     ("ordering_unknown", Flag(run.unknown)), ("outcome", Text(run.outcome)), ("scope", Object(ScopeItems(run)))]
  }

  function RunJson(run: Run): Json
    requires run.omitted >= 0 && NonNegative(run.counts)
  {
    Object(FirstFields(run) + LastFields(run))
  }

  function LogJson(runs: map<string, Run>): Json
    requires Sizable(runs)
  {
    Object((if "pull" in runs then [("pull", RunJson(runs["pull"]))] else [])
           + (if "push" in runs then [("push", RunJson(runs["push"]))] else [])
           + [("version", Number(1))])
  }

  // ---- the measured size is the length of that text ---------------------------------

  lemma EscapedIsLong(c: char)
    ensures |Escaped(c)| == EscapedLength(c)
  {
  }

  lemma HexIsAscii(k: nat)
    requires k < 16
    ensures ' ' <= HEX[k] <= '~'
  {
  }

  lemma UnicodeIsAscii(n: nat)
    requires n < 0x1_0000
    ensures forall c | c in Unicode(n) :: ' ' <= c <= '~'
  {
    HexIsAscii(n / 0x1000);
    HexIsAscii(n / 0x100 % 16);
    HexIsAscii(n / 16 % 16);
    HexIsAscii(n % 16);
  }

  lemma CharIsAscii(c: char)
    ensures forall x | x in Escaped(c) :: ' ' <= x <= '~'
  {
    hide Unicode;
    if c as int < 0x1_0000 {
      UnicodeIsAscii(c as int);
    } else {
      var n := c as int - 0x1_0000;
      UnicodeIsAscii(0xD800 + n / 0x400);
      UnicodeIsAscii(0xDC00 + n % 0x400);
    }
  }

  /** Whatever the string, its escaped form is ASCII: as many bytes as characters. */
  lemma {:induction false} EscapedIsAscii(s: string)
    ensures forall c | c in EscapedText(s) :: ' ' <= c <= '~'
  {
    hide Escaped;
    if s != [] {
      CharIsAscii(s[0]);
      EscapedIsAscii(s[1..]);
    }
  }

  lemma {:induction false} TextIsLong(s: string)
    ensures |EscapedText(s)| == TextSize(s)
  {
    hide Escaped;
    if s != [] {
      EscapedIsLong(s[0]);
      TextIsLong(s[1..]);
    }
  }

  lemma {:induction false} DecimalIsLong(n: nat)
    ensures |Decimal(n)| == Digits(n)
  {
    if n >= 10 {
      DecimalIsLong(n / 10);
    }
  }

  function FieldSizes(fields: seq<(string, Json)>): nat {
    if fields == [] then 0 else ItemSize(fields[0].0, |Dump(fields[0].1)|) + FieldSizes(fields[1..])
  }

  lemma {:induction false} FieldsAreLong(fields: seq<(string, Json)>)
    ensures |Dump(Object(fields))| == Bracketed(|fields|, FieldSizes(fields))
    decreases |fields|
  {
    if fields != [] {
      assert FieldSizes(fields) == ItemSize(fields[0].0, |Dump(fields[0].1)|) + FieldSizes(fields[1..]);
      assert |DumpField(fields[0])| == ItemSize(fields[0].0, |Dump(fields[0].1)|);
      if |fields| > 1 {
        FieldsAreLong(fields[1..]);
        assert |Dump(Object(fields[1..]))| == |DumpFields(fields[1..])| + 2;
      }
    }
  }

  lemma {:induction false} FieldSizesAdd(a: seq<(string, Json)>, b: seq<(string, Json)>)
    ensures FieldSizes(a + b) == FieldSizes(a) + FieldSizes(b)
    decreases |a|
  {
    if a == [] {
      assert a + b == b;
    } else {
      FieldSizesAdd(a[1..], b);
      assert (a + b)[1..] == a[1..] + b;
    }
  }

  lemma OneFieldSize(key: string, j: Json)
    ensures FieldSizes([(key, j)]) == ItemSize(key, |Dump(j)|)
  {
  }

  lemma FieldSizesCons(key: string, j: Json, rest: seq<(string, Json)>)
    ensures FieldSizes([(key, j)] + rest) == ItemSize(key, |Dump(j)|) + FieldSizes(rest)
  {
    OneFieldSize(key, j);
    FieldSizesAdd([(key, j)], rest);
  }

  lemma {:induction false} ItemsAreLong(items: seq<string>)
    ensures |Dump(List(Texts(items)))| == ListSize(items)
    decreases |items|
  {
    if items != [] {
      TextIsLong(items[0]);
      assert Texts(items)[1..] == Texts(items[1..]);
      assert |Dump(Texts(items)[0])| == StringSize(items[0]);
      assert TextsSize(items) == StringSize(items[0]) + TextsSize(items[1..]);
      if |items| > 1 {
        ItemsAreLong(items[1..]);
        assert |Dump(List(Texts(items[1..])))| == |DumpItems(Texts(items)[1..])| + 2;
      } else {
        assert items[1..] == [];
      }
    }
  }

  lemma {:induction false} CountItemsAreLong(counts: map<string, int>, names: seq<string>)
    requires NonNegative(counts)
    ensures FieldSizes(CountItems(counts, names)) == CountsSize(counts, names)
  {
    if names != [] {
      CountItemsAreLong(counts, names[1..]);
      if names[0] in counts {
        DecimalIsLong(counts[names[0]]);
        FieldSizesCons(names[0], Number(counts[names[0]]), CountItems(counts, names[1..]));
      } else {
        assert CountItems(counts, names) == CountItems(counts, names[1..]);
      }
    }
  }

  predicate Distinct(names: seq<string>) {
    forall i, j | 0 <= i < j < |names| :: names[i] != names[j]
  }

  function Members(names: seq<string>): set<string> {
    set x | x in names
  }

  lemma MembersOfRest(names: seq<string>)
    requires names != [] && Distinct(names)
    ensures Members(names) == {names[0]} + Members(names[1..]) && names[0] !in Members(names[1..])
    ensures Distinct(names[1..])
  {
    assert names == [names[0]] + names[1..];
  }

  lemma OneMoreMember(keys: set<string>, names: seq<string>)
    requires names != [] && Distinct(names)
    ensures |keys * Members(names)| == |keys * Members(names[1..])| + if names[0] in keys then 1 else 0
  {
    hide Members;
    MembersOfRest(names);
    var rest := keys * Members(names[1..]);
    if names[0] in keys {
      assert keys * Members(names) == rest + {names[0]};
    } else {
      assert keys * Members(names) == rest;
    }
  }

  lemma NoMembers(keys: set<string>)
    ensures |keys * Members([])| == 0
  {
    assert keys * Members([]) == {};
  }

  /** Every counter of a valid record is in the text once. */
  lemma {:induction false} CountItemsAreAll(counts: map<string, int>, names: seq<string>)
    requires NonNegative(counts) && Distinct(names)
    ensures |CountItems(counts, names)| == |counts.Keys * Members(names)|
  {
    hide Members, Distinct;
    if names == [] {
      NoMembers(counts.Keys);
    } else {
      MembersOfRest(names);
      CountItemsAreAll(counts, names[1..]);
      OneMoreMember(counts.Keys, names);
    }
  }

  lemma CountsAreLong(counts: map<string, int>)
    requires NonNegative(counts) && forall k | k in counts :: k in COUNTS
    ensures |Dump(Object(CountItems(counts, COUNTS)))| == Bracketed(|counts|, CountsSize(counts, COUNTS))
  {
    CountNamesDistinct();
    CountItemsAreAll(counts, COUNTS);
    assert counts.Keys * Members(COUNTS) == counts.Keys;
    assert |counts.Keys| == |counts|;
    CountItemsAreLong(counts, COUNTS);
    FieldsAreLong(CountItems(counts, COUNTS));
  }

  lemma CountNamesDistinct()
    ensures Distinct(COUNTS)
  {
  }

  lemma ScopeIsLong(run: Run)
    ensures |Dump(Object(ScopeItems(run)))| == ScopeSize(run)
  {
    var one := if run.fromDevice.Some? then [("from_device", Text(run.fromDevice.value))] else [];
    var two := if run.source.Some? then [("source", Text(run.source.value))] else [];
    FieldsAreLong(ScopeItems(run));
    FieldSizesAdd(one, two);
    if run.fromDevice.Some? {
      TextIsLong(run.fromDevice.value);
      OneFieldSize("from_device", Text(run.fromDevice.value));
    }
    if run.source.Some? {
      TextIsLong(run.source.value);
      OneFieldSize("source", Text(run.source.value));
    }
  }

  lemma FiveFieldSizes(a: (string, Json), b: (string, Json), c: (string, Json), d: (string, Json), e: (string, Json))
    ensures FieldSizes([a, b, c, d, e]) ==
            ItemSize(a.0, |Dump(a.1)|) + ItemSize(b.0, |Dump(b.1)|) + ItemSize(c.0, |Dump(c.1)|)
            + ItemSize(d.0, |Dump(d.1)|) + ItemSize(e.0, |Dump(e.1)|)
  {
    hide Dump, ItemSize;
    FieldSizesCons(a.0, a.1, [b, c, d, e]);
    FieldSizesCons(b.0, b.1, [c, d, e]);
    FieldSizesCons(c.0, c.1, [d, e]);
    FieldSizesCons(d.0, d.1, [e]);
    OneFieldSize(e.0, e.1);
    assert [a, b, c, d, e] == [a] + ([b] + ([c] + ([d] + [e])));
    assert [b, c, d, e] == [b] + [c, d, e] && [c, d, e] == [c] + [d, e] && [d, e] == [d] + [e];
  }

  lemma RunIsLong(r: Rules, run: Run)
    requires ValidRun(r, run)
    ensures run.omitted >= 0 && NonNegative(run.counts) && |Dump(RunJson(run))| == RunSize(run)
  {
    hide Dump, FieldSizes, TextSize, CountsSize, ListSize, ScopeSize, COUNTS, CAUSES, OUTCOMES, Digits, ValidRun,
      StringSize, OptionalSize;
    ValuesAreLong(r, run);
    var first, last := FirstFields(run), LastFields(run);
    FiveFieldSizes(first[0], first[1], first[2], first[3], first[4]);
    FiveFieldSizes(last[0], last[1], last[2], last[3], last[4]);
    assert first == [first[0], first[1], first[2], first[3], first[4]];
    assert last == [last[0], last[1], last[2], last[3], last[4]];
    FieldSizesAdd(first, last);
    FieldsAreLong(first + last);
  }

  lemma ValuesAreLong(r: Rules, run: Run)
    requires ValidRun(r, run)
    ensures |Dump(Text(run.cause))| == StringSize(run.cause)
    ensures |Dump(Text(run.completedAt))| == StringSize(run.completedAt)
    ensures |Dump(Text(run.outcome))| == StringSize(run.outcome)
    ensures |Dump(if run.accepted.Some? then Flag(run.accepted.value) else Null)|
            == if run.accepted.Some? then BoolSize(run.accepted.value) else 4
    ensures |Dump(Flag(run.unknown))| == BoolSize(run.unknown)
    ensures |Dump(TextOrNull(run.errno))| == OptionalSize(run.errno)
    ensures |Dump(Number(run.omitted))| == Digits(run.omitted)
    ensures |Dump(List(Texts(run.details)))| == ListSize(run.details)
    ensures |Dump(Object(ScopeItems(run)))| == ScopeSize(run)
    ensures run.omitted >= 0 && NonNegative(run.counts)
            && |Dump(Object(CountItems(run.counts, COUNTS)))|
               == Bracketed(|run.counts|, CountsSize(run.counts, COUNTS))
  {
    hide COUNTS, CAUSES, OUTCOMES;
    TextIsLong(run.cause);
    TextIsLong(run.completedAt);
    TextIsLong(run.outcome);
    if run.errno.Some? {
      TextIsLong(run.errno.value);
    }
    DecimalIsLong(run.omitted);
    ItemsAreLong(run.details);
    ScopeIsLong(run);
    CountsAreLong(run.counts);
  }

  /** The size the trimming loop measures is the length of the log's JSON text. */
  lemma SizeIsLength(r: Rules, runs: map<string, Run>)
    requires ValidRuns(r, runs)
    ensures Sizable(runs) && LogSize(runs) == |Dump(LogJson(runs))|
  {
    hide Dump, FieldSizes, RunJson, RunSize, COUNTS, CAUSES, OUTCOMES;
    ValidIsSizable(r, runs);
    var pull := if "pull" in runs then [("pull", RunJson(runs["pull"]))] else [];
    var push := if "push" in runs then [("push", RunJson(runs["push"]))] else [];
    var version := [("version", Number(1))];
    FieldsAreLong(pull + push + version);
    FieldSizesAdd(pull + push, version);
    FieldSizesAdd(pull, push);
    OneFieldSize("version", Number(1));
    OneDigit();
    NoFields();
    if "pull" in runs {
      RunIsLong(r, runs["pull"]);
      OneFieldSize("pull", RunJson(runs["pull"]));
    }
    if "push" in runs {
      RunIsLong(r, runs["push"]);
      OneFieldSize("push", RunJson(runs["push"]));
    }
  }

  lemma OneDigit()
    ensures |Dump(Number(1))| == 1
  {
  }

  lemma NoFields()
    ensures FieldSizes([]) == 0
  {
  }

  /** Whatever is written, the text of the log it leaves is at most 16,384 bytes. */
  lemma KeptTextFits(r: Rules, runs: map<string, Run>, verb: string, record: Run)
    requires ValidRuns(r, runs) && ValidRun(r, record) && verb in VERBS
    requires |Dump(LogJson(runs))| <= 16384 || !(verb in runs && runs[verb] == record)
    ensures Sizable(After(r, runs, verb, record)) && |Dump(LogJson(After(r, runs, verb, record)))| <= 16384
  {
    hide Dump, LogJson, Trim, LogSize, Admit, ValidRun, Trimmed, COUNTS, CAUSES, OUTCOMES, VERBS;
    WriteMeaning(r, runs, verb, record);
    SizeIsLength(r, runs);
    SizeIsLength(r, After(r, runs, verb, record));
    if !Unchanged(r, runs, verb, record) {
      AdmitIsValid(r, runs, verb, record);
      TrimMeaning(r, Admit(r, runs, verb, record), "pull" in runs);
    }
  }

  /** The details as the loop measures them. */
  ghost function DetailText(run: Run): string {
    Dump(List(Texts(run.details)))
  }

  /** The record the loop takes a detail from has the longest text of details; of two equally
      long ones, it is the one that was in the log first. */
  lemma TakesFromLongest(runs: map<string, Run>, pullFirst: bool, v: string)
    requires runs.Keys <= VERBS && v in runs
    ensures Largest(runs, pullFirst) == v <==>
      forall w | w in runs && w != v ::
        || |DetailText(runs[w])| < |DetailText(runs[v])|
        || (|DetailText(runs[w])| == |DetailText(runs[v])| && (v == "pull" <==> pullFirst))
  {
    hide TextsSize, Dump;
    assert runs != map[];
    forall w | w in runs
      ensures |DetailText(runs[w])| == ListSize(runs[w].details)
    {
      ItemsAreLong(runs[w].details);
    }
    forall w | w in runs
      ensures w == "pull" || w == "push"
    {
    }
    var largest := Largest(runs, pullFirst);
    assert largest in runs;
  }

  // ---- what is a record ------------------------------------------------------------

  /** A scope value: short, not empty, of the alphabet. */
  predicate GoodScope(r: Rules, s: string) {
    s != [] && |s| <= 128 && r.scoped(s)
  }

  /** The records a write accepts, rule by rule; and the instant it compares is the one its
      completion time stands for. */
  lemma AcceptsExactly(r: Rules, run: Run)
    ensures ValidRun(r, run) <==>
      && |run.completedAt| <= 64 && r.instant(run.completedAt).Some?
      && run.outcome in OUTCOMES && run.cause in CAUSES
      && (forall k | k in run.counts :: k in COUNTS && 0 <= run.counts[k] <= 0x20_0000_0000_0000)
      && (run.source.Some? ==> GoodScope(r, run.source.value))
      && (run.fromDevice.Some? ==> GoodScope(r, run.fromDevice.value))
      && |run.details| <= 8 && (forall d | d in run.details :: |d| <= 384 && r.safe(d))
      && 0 <= run.omitted <= 0x20_0000_0000_0000
      && (run.errno.Some? ==> r.errnoName(run.errno.value) && |run.errno.value| <= 64)
    ensures ValidRun(r, run) ==> r.instant(run.completedAt) == Some(InstantOf(r, run))
  {
    hide COUNTS, CAUSES, OUTCOMES;
  }

  /** The runs in the file are what a write starts from, if they are valid. */
  ghost predicate HoldsRuns(r: Rules, stored: Option<map<string, Run>>, runs: map<string, Run>) {
    if stored.Some? && ValidRuns(r, stored.value) then runs == stored.value else runs == map[]
  }

  /** One write in every case: rejected for its verb or record, contended without the lock,
      kept when the verb already has this very record, failed as the file system fails; else
      done, and then the verb has the record, or the later one it had with its order marked
      unknown, and every other record is still there, all but details the trimming took. */
  lemma WritesExactly(
    r: Rules, before: Option<map<string, Run>>, after: Option<map<string, Run>>, verb: string, record: Run,
    free: bool, fault: Fault, out: Written, runs: map<string, Run>)
    requires WriteStep(r, before, after, verb, record, free, fault, out) && HoldsRuns(r, before, runs)
    ensures out.Rejected? <==> (verb != "push" && verb != "pull") || !ValidRun(r, record)
    ensures !out.Rejected? ==> (out.Contended? <==> !free)
    ensures !out.Rejected? && free ==>
      if verb in runs && runs[verb] == record then out == Kept && after == before
      else if fault.AtTruncate? then out == Failed && after == before
      else if fault.AfterTruncate? then out == Failed && after == None
      else
        && out == Done && after.Some? && after.value.Keys == runs.Keys + {verb}
        && (forall v | v in runs && v != verb :: Trimmed(runs[v], after.value[v]))
        && if verb in runs && IsNoLater(r, record, runs[verb]) then
             Trimmed(runs[verb].(unknown := true), after.value[verb])
           else Trimmed(record, after.value[verb])
    ensures out.Rejected? || out.Contended? || out.Kept? ==> after == before
  {
    hide COUNTS, CAUSES, OUTCOMES, ValidRun, Trimmed, After, LogSize;
    assert runs == RunsIn(r, before) by {
      hide Sizable;
    }
    if !out.Rejected? && free {
      WriteMeaning(r, runs, verb, record);
      NoLaterExactly(r, record);
      if verb in runs {
        NoLaterExactly(r, runs[verb]);
      }
    }
  }

  /** The first completion is not after the second. */
  ghost predicate IsNoLater(r: Rules, a: Run, b: Run) {
    && r.instant(a.completedAt).Some? && r.instant(b.completedAt).Some?
    && r.instant(a.completedAt).value <= r.instant(b.completedAt).value
  }

  lemma NoLaterExactly(r: Rules, a: Run)
    requires ValidRun(r, a)
    ensures r.instant(a.completedAt) == Some(InstantOf(r, a))
  {
    hide COUNTS, CAUSES, OUTCOMES;
  }
}
