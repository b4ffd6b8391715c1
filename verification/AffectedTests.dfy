/** Affected-test selection: which recorded tests a change can reach, as a safe narrowing
    of a full run. */
module AffectedTests {
  import opened TextOrder
  import opened Manifests

  type Bytes = seq<Byte>
  type Tree = map<string, Bytes>

  const SELECT_DIR := ".mm-test-selection"
  const CONFIG_PATHS: set<string> := {"pyproject.toml", "bin/check", "bin/_check.py"}
  const MISSING := "missing"

  // ---- path tests ---------------------------------------------------------------

  predicate StartsWith(s: string, prefix: string) {
    prefix <= s
  }

  predicate EndsWith(s: string, suffix: string) {
    |s| >= |suffix| && s[|s| - |suffix|..] == suffix
  }

  function BaseName(path: string): string {
    if '/' in path then BaseName(path[1..]) else path
  }

  predicate InCacheDir(path: string) {
    exists i, j | 0 <= i <= j < |path| ::
      (i == 0 || path[i - 1] == '/') && path[j] == '/' && path[i..j] == "__pycache__"
  }

  predicate IsTestModule(path: string) {
    && StartsWith(path, "tests/") && EndsWith(BaseName(path), ".py")
    && (StartsWith(BaseName(path), "test_") || EndsWith(BaseName(path), "_test.py"))
  }

  predicate IsConftest(path: string) {
    EndsWith(path, "conftest.py")
  }

  predicate IsSource(path: string) {
    StartsWith(path, "src/mind_meld/")
  }

  /** Python files the selector always inventories. */
  predicate InPython(path: string) {
    EndsWith(path, ".py") && !InCacheDir(path)
    && (IsSource(path) || StartsWith(path, "tests/") || StartsWith(path, "bin/"))
  }

  predicate InSelectDir(path: string) {
    StartsWith(path, SELECT_DIR + "/")
  }

  /** The file part of a test id: everything before the first "::". */
  function FileOf(node: string): string {
    if node == [] || (|node| >= 2 && node[..2] == "::") then [] else [node[0]] + FileOf(node[1..])
  }

  // ---- what a run records ---------------------------------------------------------

  /** An import statement: dots, module and names of a from-import ("*" may be a name), or
      the modules of a plain one. A module is its dotted parts. */
  datatype Import =
    | FromImport(level: nat, from: seq<string>, names: set<string>)
    | PlainImport(modules: set<seq<string>>)

  /** Foreign functions: a content digest, the import-time skeleton (None when the file
      does not parse), the import statements anywhere in a Python file (none when it does not
      parse), and the submodules a package's `__all__` names. */
  datatype Tools = Tools(
    sha: Bytes -> string,
    skel: Bytes -> Option<string>,
    statements: Bytes -> set<Import>,
    exports: Bytes -> set<string>)

  datatype FileEntry = FileEntry(sha: string, skel: Option<string>)

  datatype Record = Record(
    nodes: seq<string>,
    ctx: map<string, set<nat>>,
    readers: map<string, set<nat>>,
    opaqueNodes: set<nat>,
    files: map<string, FileEntry>)

  /** Paths git reports against the merge base; true for one reported as added. */
  type Changes = map<string, bool>

  /** Presence and content of one path. */
  function At(tree: Tree, path: string): Option<Bytes> {
    if path in tree then Some(tree[path]) else None
  }

  /** Git reports exactly the visible paths that differ from the merge base, and an added
      one may be one the base does not have. */
  ghost predicate Reports(changed: Changes, tree: Tree, base: Tree, visible: string -> bool) {
    && (forall p :: p in changed <==> visible(p) && !InSelectDir(p) && At(tree, p) != At(base, p))
    && (forall p :: p in changed && !changed[p] ==> p in base)
  }

  function Digest(tools: Tools, tree: Tree, path: string): string {
    if path in tree then tools.sha(tree[path]) else MISSING
  }

  function Inventory(tools: Tools, tree: Tree, extra: set<string>): map<string, string> {
    map p | p in tree.Keys + extra
            && ((p in tree && (InPython(p) || p in CONFIG_PATHS)) || (p in extra && !InSelectDir(p))) ::
      Digest(tools, tree, p)
  }

  function EntryOf(tools: Tools, tree: Tree, path: string): FileEntry {
    FileEntry(Digest(tools, tree, path), if IsSource(path) && path in tree then tools.skel(tree[path]) else None)
  }

  /** The files table a green run over `tree` records. */
  function FilesOf(tools: Tools, tree: Tree, changed: Changes): map<string, FileEntry> {
    map p | p in Inventory(tools, tree, changed.Keys) :: EntryOf(tools, tree, p)
  }

  /** Every index names a recorded test. */
  predicate WellIndexed(rec: Record) {
    && (forall p | p in rec.ctx :: forall i | i in rec.ctx[p] :: i < |rec.nodes|)
    && (forall p | p in rec.readers :: forall i | i in rec.readers[p] :: i < |rec.nodes|)
    && (forall i | i in rec.opaqueNodes :: i < |rec.nodes|)
  }

  // ---- building the index ------------------------------------------------------------

  /** One worker's part: contexts per executed file, files read per test, opaque tests. */
  datatype Part = Part(
    ctx: map<string, set<string>>,
    opens: map<string, set<string>>,
    opaqueTests: set<string>,
    collected: seq<string>,
    filtered: bool)

  /** The test list of a recorded run, or None where the record is refused. */
  function MergedNodes(parts: seq<Part>): Option<seq<string>> {
    if parts == [] || (exists i | 0 <= i < |parts| :: parts[i].filtered) then None
    else if (exists i | 0 <= i < |parts| ::
               parts[i].collected != [] && parts[i].collected != parts[0].collected)
    then None
    else if parts[0].collected == [] then None
    else Some(SortedText(parts[0].collected))
  }

  /** The recorded tests are the collected ones, every one as often as it was, in order. */
  lemma RecordedTests(parts: seq<Part>)
    requires MergedNodes(parts).Some?
    ensures InTextOrder(MergedNodes(parts).value)
    ensures multiset(MergedNodes(parts).value) == multiset(parts[0].collected)
  {
    SortedTextMeaning(parts[0].collected);
  }

  predicate Executed(parts: seq<Part>, node: string, path: string) {
    exists k | 0 <= k < |parts| :: path in parts[k].ctx && node in parts[k].ctx[path]
  }

  predicate Opened(parts: seq<Part>, node: string, path: string) {
    exists k | 0 <= k < |parts| :: node in parts[k].opens && path in parts[k].opens[node]
  }

  predicate WasOpaque(parts: seq<Part>, node: string) {
    exists k | 0 <= k < |parts| :: node in parts[k].opaqueTests
  }

  function IndicesOf(nodes: seq<string>, names: set<string>): set<nat> {
    set i: nat | i < |nodes| && nodes[i] in names
  }

  /** Entries of an index table, empty where it has none. */
  function Row(table: map<string, set<nat>>, path: string): set<nat> {
    if path in table then table[path] else {}
  }

  function AddRow(table: map<string, set<nat>>, path: string, more: set<nat>): map<string, set<nat>> {
    table[path := Row(table, path) + more]
  }

  lemma AddedRow(table: map<string, set<nat>>, path: string, more: set<nat>, q: string)
    ensures Row(AddRow(table, path, more), q) == Row(table, q) + (if q == path then more else {})
    ensures NoEmptyRow(table) && more != {} ==> NoEmptyRow(AddRow(table, path, more))
  {
  }

  predicate NoEmptyRow(table: map<string, set<nat>>) {
    forall p | p in table :: table[p] != {}
  }

  /** Adds one part's contexts to the index. */
  method IndexContexts(nodes: seq<string>, part: Part, ctx: map<string, set<nat>>) returns (r: map<string, set<nat>>)
    requires NoEmptyRow(ctx)
    ensures NoEmptyRow(r)
    ensures forall p :: Row(r, p) == Row(ctx, p) + (if p in part.ctx then IndicesOf(nodes, part.ctx[p]) else {})
  {
    hide IndicesOf, Row, AddRow, NoEmptyRow;
    r := ctx;
    var todo := part.ctx.Keys;
    while todo != {}
      invariant todo <= part.ctx.Keys && NoEmptyRow(r)
      invariant forall p ::
        Row(r, p) == Row(ctx, p) + (if p in part.ctx && p !in todo then IndicesOf(nodes, part.ctx[p]) else {})
      decreases todo
    {
      var p :| p in todo;
      var matched := IndicesOf(nodes, part.ctx[p]);
      if matched != {} {
        forall q {
          AddedRow(r, p, matched, q);
        }
        r := AddRow(r, p, matched);
      }
      todo := todo - {p};
    }
  }

  /** Marks test `i` as a reader of every path. */
  method AddReader(readers: map<string, set<nat>>, paths: set<string>, i: nat) returns (r: map<string, set<nat>>)
    requires NoEmptyRow(readers)
    ensures NoEmptyRow(r)
    ensures forall p :: Row(r, p) == Row(readers, p) + (if p in paths then {i} else {})
  {
    hide Row, AddRow, NoEmptyRow;
    r := readers;
    var todo := paths;
    while todo != {}
      invariant todo <= paths && NoEmptyRow(r)
      invariant forall p :: Row(r, p) == Row(readers, p) + (if p in paths && p !in todo then {i} else {})
      decreases todo
    {
      var p :| p in todo;
      forall q {
        AddedRow(r, p, {i}, q);
      }
      r := AddRow(r, p, {i});
      todo := todo - {p};
    }
  }

  function ReadersIn(nodes: seq<string>, part: Part, path: string, done: nat): set<nat> {
    set i: nat | i < |nodes| && i < done && nodes[i] in part.opens && path in part.opens[nodes[i]]
  }

  method IndexReads(nodes: seq<string>, part: Part, readers: map<string, set<nat>>) returns (r: map<string, set<nat>>)
    requires NoEmptyRow(readers)
    ensures NoEmptyRow(r)
    ensures forall p :: Row(r, p) == Row(readers, p) + ReadersIn(nodes, part, p, |nodes|)
  {
    hide Row;
    r := readers;
    for i := 0 to |nodes|
      invariant NoEmptyRow(r)
      invariant forall p :: Row(r, p) == Row(readers, p) + ReadersIn(nodes, part, p, i)
    {
      if nodes[i] in part.opens {
        r := AddReader(r, part.opens[nodes[i]], i);
      }
    }
  }

  /** The index says of every test what some part said of it, and nothing else. */
  ghost predicate IndexMatches(
    nodes: seq<string>, parts: seq<Part>, ctx: map<string, set<nat>>, readers: map<string, set<nat>>,
    opaqueNodes: set<nat>)
  {
    && NoEmptyRow(ctx) && NoEmptyRow(readers)
    && (forall p :: Row(ctx, p) == Executors(nodes, parts, p))
    && (forall p :: Row(readers, p) == Openers(nodes, parts, p))
    && opaqueNodes == OpaqueOnes(nodes, parts)
  }

  function Executors(nodes: seq<string>, parts: seq<Part>, path: string): set<nat> {
    set i: nat | i < |nodes| && Executed(parts, nodes[i], path)
  }

  function Openers(nodes: seq<string>, parts: seq<Part>, path: string): set<nat> {
    set i: nat | i < |nodes| && Opened(parts, nodes[i], path)
  }

  function OpaqueOnes(nodes: seq<string>, parts: seq<Part>): set<nat> {
    set i: nat | i < |nodes| && WasOpaque(parts, nodes[i])
  }

  lemma OneMorePart(parts: seq<Part>, part: Part, node: string, path: string)
    ensures Executed(parts + [part], node, path) <==>
            Executed(parts, node, path) || (path in part.ctx && node in part.ctx[path])
    ensures Opened(parts + [part], node, path) <==>
            Opened(parts, node, path) || (node in part.opens && path in part.opens[node])
    ensures WasOpaque(parts + [part], node) <==> WasOpaque(parts, node) || node in part.opaqueTests
  {
    var more := parts + [part];
    assert more[|parts|] == part;
    assert forall k | 0 <= k < |parts| :: more[k] == parts[k];
  }

  /** The index tables, part by part. */
  method IndexParts(nodes: seq<string>, parts: seq<Part>)
    returns (ctx: map<string, set<nat>>, readers: map<string, set<nat>>, opaqueNodes: set<nat>)
    ensures IndexMatches(nodes, parts, ctx, readers, opaqueNodes)
  {
    ctx, readers, opaqueNodes := map[], map[], {};
    for k := 0 to |parts|
      invariant IndexMatches(nodes, parts[..k], ctx, readers, opaqueNodes)
    {
      var c := IndexContexts(nodes, parts[k], ctx);
      var r := IndexReads(nodes, parts[k], readers);
      var o := opaqueNodes + IndicesOf(nodes, parts[k].opaqueTests);
      assert parts[..k + 1] == parts[..k] + [parts[k]];
      PartIndexed(nodes, parts[..k], parts[k], ctx, readers, opaqueNodes, c, r, o);
      ctx, readers, opaqueNodes := c, r, o;
    }
    assert parts[..|parts|] == parts;
  }

  /** The record of a green run, built part by part; None where the parts are refused. */
  method BuildRecord(tools: Tools, tree: Tree, changed: Changes, parts: seq<Part>) returns (rec: Option<Record>)
    ensures rec.Some? <==> MergedNodes(parts).Some?
    ensures rec.Some? ==>
      && MergedNodes(parts) == Some(rec.value.nodes) && WellIndexed(rec.value)
      && InTextOrder(rec.value.nodes) && multiset(rec.value.nodes) == multiset(parts[0].collected)
      && rec.value.files == FilesOf(tools, tree, changed)
      && IndexMatches(rec.value.nodes, parts, rec.value.ctx, rec.value.readers, rec.value.opaqueNodes)
  {
    hide FilesOf, InTextOrder, SortedText, WellIndexed, IndexMatches;
    if MergedNodes(parts).None? {
      return None;
    }
    var nodes := MergedNodes(parts).value;
    RecordedTests(parts);
    var ctx, readers, opaqueNodes := IndexParts(nodes, parts);
    rec := Some(Record(nodes, ctx, readers, opaqueNodes, FilesOf(tools, tree, changed)));
    MatchedIsWellIndexed(rec.value, parts);
  }

  lemma PartIndexed(
    nodes: seq<string>, parts: seq<Part>, part: Part, ctx: map<string, set<nat>>, readers: map<string, set<nat>>,
    opaqueNodes: set<nat>, c: map<string, set<nat>>, r: map<string, set<nat>>, o: set<nat>)
    requires IndexMatches(nodes, parts, ctx, readers, opaqueNodes)
    requires NoEmptyRow(c) && NoEmptyRow(r)
    requires forall p :: Row(c, p) == Row(ctx, p) + (if p in part.ctx then IndicesOf(nodes, part.ctx[p]) else {})
    requires forall p :: Row(r, p) == Row(readers, p) + ReadersIn(nodes, part, p, |nodes|)
    requires o == opaqueNodes + IndicesOf(nodes, part.opaqueTests)
    ensures IndexMatches(nodes, parts + [part], c, r, o)
  {
    hide Row, NoEmptyRow, Executors, Openers, OpaqueOnes, IndicesOf, ReadersIn;
    forall p
      ensures Row(c, p) == Executors(nodes, parts + [part], p)
      ensures Row(r, p) == Openers(nodes, parts + [part], p)
    {
      RowsOfOneMore(nodes, parts, part, p);
    }
    RowsOfOneMore(nodes, parts, part, "");
  }

  lemma RowsOfOneMore(nodes: seq<string>, parts: seq<Part>, part: Part, p: string)
    ensures Executors(nodes, parts + [part], p) ==
            Executors(nodes, parts, p) + (if p in part.ctx then IndicesOf(nodes, part.ctx[p]) else {})
    ensures Openers(nodes, parts + [part], p) == Openers(nodes, parts, p) + ReadersIn(nodes, part, p, |nodes|)
    ensures OpaqueOnes(nodes, parts + [part]) == OpaqueOnes(nodes, parts) + IndicesOf(nodes, part.opaqueTests)
  {
    hide Executed, Opened, WasOpaque;
    forall i: nat | i < |nodes|
      ensures i in Executors(nodes, parts + [part], p) <==>
        i in Executors(nodes, parts, p) || (p in part.ctx && nodes[i] in part.ctx[p])
      ensures i in Openers(nodes, parts + [part], p) <==>
        i in Openers(nodes, parts, p) || (nodes[i] in part.opens && p in part.opens[nodes[i]])
      ensures i in OpaqueOnes(nodes, parts + [part]) <==> i in OpaqueOnes(nodes, parts) || nodes[i] in part.opaqueTests
    {
      OneMorePart(parts, part, nodes[i], p);
    }
  }

  lemma MatchedIsWellIndexed(rec: Record, parts: seq<Part>)
    requires IndexMatches(rec.nodes, parts, rec.ctx, rec.readers, rec.opaqueNodes)
    ensures WellIndexed(rec)
  {
    forall p, i | p in rec.ctx && i in rec.ctx[p]
      ensures i < |rec.nodes|
    {
      assert i in Executors(rec.nodes, parts, p) by {
        assert Row(rec.ctx, p) == Executors(rec.nodes, parts, p);
      }
    }
    forall p, i | p in rec.readers && i in rec.readers[p]
      ensures i < |rec.nodes|
    {
      assert i in Openers(rec.nodes, parts, p) by {
        assert Row(rec.readers, p) == Openers(rec.nodes, parts, p);
      }
    }
  }

  // ---- what the selector makes of an import ---------------------------------------------

  function Dir(path: string): string {
    if '/' !in path then "" else if path[|path| - 1] == '/' then path[..|path| - 1] else Dir(path[..|path| - 1])
  }

  function Slashed(parts: seq<string>): string {
    if parts == [] then "" else if |parts| == 1 then parts[0] else parts[0] + "/" + Slashed(parts[1..])
  }

  function Below(base: string, names: set<string>): set<string> {
    set n | n in names :: base + "/" + n + ".py"
  }

  /** The files the selector takes a statement of a file in `pkg` to name: absolute imports
      of `tests`, one-dot imports of a module or of names, and plain imports of `tests`. */
  function Followed(pkg: string, st: Import): set<string> {
    match st
    case FromImport(level, from, names) =>
      if level == 0 && from != [] && StartsWith(Slashed(from), "tests") then
        {Slashed(from) + ".py"} + Below(Slashed(from), names)
      else if level == 1 && from != [] then {pkg + "/" + Slashed(from) + ".py"}
      else if level == 1 then Below(pkg, names)
      else {}
    case PlainImport(modules) =>
      set m | m in modules && StartsWith(Slashed(m), "tests/") :: Slashed(m) + ".py"
  }

  // ---- the importer worklist -----------------------------------------------------------

  /** Who imports what among the tests: `importers[t]` are the files naming `t`. */
  type Importers = map<string, set<string>>

  predicate TestTree(path: string) {
    StartsWith(path, "tests/") && EndsWith(path, ".py") && !InCacheDir(path)
  }

  /** The selector sees `from` import `target`. */
  predicate Imports(tools: Tools, tree: Tree, from: string, target: string) {
    && from in tree && TestTree(from)
    && exists st | st in tools.statements(tree[from]) :: target in Followed(Dir(from), st)
  }

  function ImportersOf(importers: Importers, target: string): set<string> {
    if target in importers then importers[target] else {}
  }

  ghost predicate Reverses(tools: Tools, tree: Tree, importers: Importers) {
    forall from, target :: from in ImportersOf(importers, target) <==> Imports(tools, tree, from, target)
  }

  /** Records one file as an importer of each target. */
  method AddImporter(importers: Importers, from: string, targets: set<string>) returns (r: Importers)
    ensures forall t :: ImportersOf(r, t) == ImportersOf(importers, t) + (if t in targets then {from} else {})
  {
    r := importers;
    var todo := targets;
    while todo != {}
      invariant todo <= targets
      invariant forall t ::
        ImportersOf(r, t) == ImportersOf(importers, t) + (if t in targets && t !in todo then {from} else {})
      decreases todo
    {
      var t :| t in todo;
      r := r[t := ImportersOf(r, t) + {from}];
      todo := todo - {t};
    }
  }

  /** Records what each statement of one file names. */
  method AddStatements(importers: Importers, from: string, statements: set<Import>) returns (r: Importers)
    ensures forall t ::
      ImportersOf(r, t)
      == ImportersOf(importers, t)
         + (if exists st | st in statements :: t in Followed(Dir(from), st) then {from} else {})
  {
    hide Followed, Dir, ImportersOf;
    r := importers;
    var todo := statements;
    while todo != {}
      invariant todo <= statements
      invariant forall t ::
        ImportersOf(r, t)
        == ImportersOf(importers, t)
           + (if exists st | st in statements - todo :: t in Followed(Dir(from), st) then {from} else {})
      decreases todo
    {
      var st :| st in todo;
      ghost var before := r;
      r := AddImporter(r, from, Followed(Dir(from), st));
      var next := todo - {st};
      assert statements - next == statements - todo + {st};
      forall t
        ensures (exists x | x in statements - next :: t in Followed(Dir(from), x)) <==>
                (exists x | x in statements - todo :: t in Followed(Dir(from), x)) || t in Followed(Dir(from), st)
      {
      }
      todo := next;
    }
    assert statements - todo == statements;
  }

  /** The reverse import map of the test tree. */
  method ReverseImports(tools: Tools, tree: Tree) returns (importers: Importers)
    ensures Reverses(tools, tree, importers)
  {
    hide TestTree, ImportersOf, Followed, Dir;
    importers := map[];
    var todo := set p | p in tree && TestTree(p);
    assert forall t :: ImportersOf(importers, t) == {} by {
      NoImporters();
    }
    while todo != {}
      invariant todo <= tree.Keys && forall p | p in todo :: TestTree(p)
      invariant forall from, target ::
        from in ImportersOf(importers, target) <==> from !in todo && Imports(tools, tree, from, target)
      decreases todo
    {
      var p :| p in todo;
      importers := AddStatements(importers, p, tools.statements(tree[p]));
      todo := todo - {p};
    }
  }

  lemma NoImporters()
    ensures forall t :: ImportersOf(map[], t) == {}
  {
  }

  ghost predicate Closed(importers: Importers, files: set<string>) {
    forall t | t in files :: ImportersOf(importers, t) <= files
  }

  /** The least set that contains `initial` and is closed under reverse imports. */
  ghost predicate LeastClosed(importers: Importers, initial: set<string>, files: set<string>) {
    && initial <= files && Closed(importers, files)
    && forall other :: initial <= other && Closed(importers, other) ==> files <= other
  }

  /** `files` is the importer closure of `initial` in this tree. */
  ghost predicate ImporterClosure(tools: Tools, tree: Tree, initial: set<string>, files: set<string>) {
    exists importers :: Reverses(tools, tree, importers) && LeastClosed(importers, initial, files)
  }

  /** Stated without the reverse map: closed under who imports whom, and the least such set. */
  lemma ClosureMeaning(tools: Tools, tree: Tree, initial: set<string>, files: set<string>, other: set<string>)
    requires ImporterClosure(tools, tree, initial, files)
    ensures initial <= files
    ensures forall from, target | target in files && Imports(tools, tree, from, target) :: from in files
    ensures
      initial <= other && (forall from, target | target in other && Imports(tools, tree, from, target) :: from in other)
      ==> files <= other
  {
    hide Imports, ImportersOf;
    var importers :| Reverses(tools, tree, importers) && LeastClosed(importers, initial, files);
    forall from, target | target in files && Imports(tools, tree, from, target)
      ensures from in files
    {
      assert from in ImportersOf(importers, target);
    }
    if initial <= other
       && (forall from, target | target in other && Imports(tools, tree, from, target) :: from in other) {
      assert Closed(importers, other);
    }
  }

  function AllImporters(importers: Importers): set<string> {
    set t, f | t in importers && f in importers[t] :: f
  }

  /** The importers of `current` that are not yet known, and the queue with them added. */
  method Enqueue(importers: Importers, current: string, expanded: set<string>, queue: seq<string>)
    returns (e: set<string>, q: seq<string>)
    requires forall f | f in queue :: f in expanded
    ensures e == expanded + ImportersOf(importers, current)
    ensures forall f :: f in q <==> f in queue || (f in e && f !in expanded)
    ensures e == expanded ==> q == queue
  {
    e, q := expanded, queue;
    var todo := ImportersOf(importers, current);
    ghost var all := todo;
    while todo != {}
      invariant todo <= all && e == expanded + (all - todo)
      invariant forall f :: f in q <==> f in queue || (f in e && f !in expanded)
      invariant e == expanded ==> q == queue
      decreases todo
    {
      var dep :| dep in todo;
      if dep !in e {
        e, q := e + {dep}, q + [dep];
      }
      todo := todo - {dep};
    }
  }

  method ListOf(files: set<string>) returns (r: seq<string>)
    ensures forall f :: f in r <==> f in files
  {
    r := [];
    var todo := files;
    while todo != {}
      invariant todo <= files && forall f :: f in r <==> f in files && f !in todo
      decreases todo
    {
      var f :| f in todo;
      r := r + [f];
      todo := todo - {f};
    }
  }

  lemma KnownImporters(importers: Importers, target: string)
    ensures ImportersOf(importers, target) <= AllImporters(importers)
  {
  }

  /** The test modules whose imports reach any of `initial`: a worklist that ends with the
      least closed set. */
  method ExpandTestImporters(tools: Tools, tree: Tree, initial: set<string>) returns (expanded: set<string>)
    ensures ImporterClosure(tools, tree, initial, expanded)
  {
    hide Reverses, ImportersOf;
    var reverse := ReverseImports(tools, tree);
    expanded := initial;
    var queue := ListOf(initial);
    ghost var universe := initial + AllImporters(reverse);
    while queue != []
      invariant initial <= expanded <= universe
      invariant forall f | f in queue :: f in expanded
      invariant forall f | f in expanded && f !in queue :: ImportersOf(reverse, f) <= expanded
      invariant forall other :: initial <= other && Closed(reverse, other) ==> expanded <= other
      decreases universe - expanded, |queue|
    {
      var current := queue[|queue| - 1];
      var rest := queue[..|queue| - 1];
      assert queue == rest + [current];
      ghost var known := expanded;
      KnownImporters(reverse, current);
      expanded, queue := Enqueue(reverse, current, expanded, rest);
    }
  }
}
