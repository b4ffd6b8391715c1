/** The selection plan and its safety: an unselected recorded test keeps its outcome, exactly
    as long as the imports the selector follows bridge the ones Python runs. */
module AffectedPlan {
  import opened TextOrder
  import opened Manifests
  import opened AffectedTests
  import opened TestImports

  /** What the planner looks at: the record, the worktree now, the merge base and what git
      reports, and the tests that failed before. */
  datatype Input = Input(rec: Record, now: Tree, base: Tree, changed: Changes, failed: seq<string>)

  datatype Plan = FullRun | Selected(ids: set<string>, files: set<string>)

  // ---- which paths matter ---------------------------------------------------------

  function RecordedSha(rec: Record, path: string): Option<string> {
    if path in rec.files then Some(rec.files[path].sha) else None
  }

  function InventoryNow(tools: Tools, i: Input): map<string, string> {
    Inventory(tools, i.now, i.rec.files.Keys + i.changed.Keys)
  }

  function ShaNow(tools: Tools, i: Input, path: string): Option<string> {
    if path in InventoryNow(tools, i) then Some(InventoryNow(tools, i)[path]) else None
  }

  predicate Drifted(tools: Tools, i: Input, path: string) {
    RecordedSha(i.rec, path) != ShaNow(tools, i, path)
  }

  /** Every path the plan has to explain. */
  function Touched(tools: Tools, i: Input): set<string> {
    i.changed.Keys + set p | p in i.rec.files.Keys + InventoryNow(tools, i).Keys && Drifted(tools, i, p)
  }

  /** A source module whose import-time skeleton may differ. */
  predicate ScopeChange(tools: Tools, i: Input, path: string) {
    || path !in i.now
    || (path in i.changed && i.changed[path])
    || tools.skel(i.now[path]).None?
    || (path in i.changed && (path !in i.base || tools.skel(i.base[path]) != tools.skel(i.now[path])))
    || (Drifted(tools, i, path)
        && (path !in i.rec.files || i.rec.files[path].skel != tools.skel(i.now[path])))
  }

  datatype Effect = Everything | TestFile | FunctionBodies

  /** What a changed path forces. */
  function EffectOf(tools: Tools, i: Input, path: string): Effect {
    if path in CONFIG_PATHS || IsConftest(path) then Everything
    else if StartsWith(path, "tests/") && !IsTestModule(path) then Everything
    else if !EndsWith(path, ".py") then Everything
    else if IsTestModule(path) then TestFile
    else if IsSource(path) then if ScopeChange(tools, i, path) then Everything else FunctionBodies
    else Everything
  }

  // ---- what a plan without a full run selects -----------------------------------------

  function Named(rec: Record, indices: set<nat>): set<string>
    requires forall k | k in indices :: k < |rec.nodes|
  {
    set k | k in indices :: rec.nodes[k]
  }

  /** The tests one touched path pulls in. */
  function Pulled(tools: Tools, i: Input, path: string): set<string>
    requires WellIndexed(i.rec)
  {
    match EffectOf(tools, i, path)
    case TestFile => Named(i.rec, Row(i.rec.readers, path))
    case FunctionBodies => Named(i.rec, Row(i.rec.ctx, path)) + Named(i.rec, Row(i.rec.readers, path))
    case Everything => {}
  }

  function TouchedTests(tools: Tools, i: Input): set<string> {
    set p | p in Touched(tools, i) && EffectOf(tools, i, p).TestFile?
  }

  predicate SourceTouched(tools: Tools, i: Input) {
    exists p | p in Touched(tools, i) :: EffectOf(tools, i, p).FunctionBodies?
  }

  /** Recorded tests reached by some touched path, and the opaque ones with any source. */
  function Reached(tools: Tools, i: Input): set<string>
    requires WellIndexed(i.rec)
  {
    (set p, n | p in Touched(tools, i) && n in Pulled(tools, i, p) :: n)
    + (if SourceTouched(tools, i) then Named(i.rec, i.rec.opaqueNodes) else {})
  }

  /** Earlier failures that are still recorded or live in a selected file. */
  function Retried(i: Input, files: set<string>): set<string> {
    set n | n in i.failed && (FileOf(n) in files || n in i.rec.nodes)
  }

  predicate NeedsEverything(tools: Tools, i: Input) {
    exists p | p in Touched(tools, i) :: EffectOf(tools, i, p).Everything?
  }

  /** A non-test module imports a touched test module. */
  predicate Leaks(closure: set<string>, initial: set<string>) {
    exists f | f in closure - initial :: !IsTestModule(f)
  }

  /** The plan for a given importer closure. */
  function PlanFor(tools: Tools, i: Input, closure: set<string>): Plan
    requires WellIndexed(i.rec)
  {
    if NeedsEverything(tools, i) || Leaks(closure, TouchedTests(tools, i)) then FullRun
    else
      Selected(set n | n in Reached(tools, i) + Retried(i, closure) && FileOf(n) in i.now,
               set f | f in closure && f in i.now)
  }

  /** The loop over touched paths; None is a full run. */
  method Visit(tools: Tools, i: Input) returns (found: Option<(set<string>, set<string>, bool)>)
    requires WellIndexed(i.rec)
    ensures found.None? <==> NeedsEverything(tools, i)
    ensures found.Some? ==>
      && found.value.0 == (set p, n | p in Touched(tools, i) && n in Pulled(tools, i, p) :: n)
      && found.value.1 == TouchedTests(tools, i)
      && (found.value.2 <==> SourceTouched(tools, i))
  {
    hide EffectOf, Touched, Pulled;
    var ids, files, source := {}, {}, false;
    var todo := Touched(tools, i);
    while todo != {}
      invariant todo <= Touched(tools, i)
      invariant forall p | p in Touched(tools, i) - todo :: !EffectOf(tools, i, p).Everything?
      invariant ids == set p, n | p in Touched(tools, i) - todo && n in Pulled(tools, i, p) :: n
      invariant files == set p | p in Touched(tools, i) - todo && EffectOf(tools, i, p).TestFile?
      invariant source <==> exists p | p in Touched(tools, i) - todo :: EffectOf(tools, i, p).FunctionBodies?
      decreases todo
    {
      var p :| p in todo;
      if EffectOf(tools, i, p).Everything? {
        return None;
      }
      ids := ids + Pulled(tools, i, p);
      if EffectOf(tools, i, p).TestFile? {
        files := files + {p};
      } else {
        source := true;
      }
      var next := todo - {p};
      assert Touched(tools, i) - next == Touched(tools, i) - todo + {p};
      todo := next;
    }
    found := Some((ids, files, source));
  }

  /** The plan for these inputs. */
  ghost predicate IsPlan(tools: Tools, i: Input, plan: Plan)
    requires WellIndexed(i.rec)
  {
    if NeedsEverything(tools, i) then plan == FullRun
    else
      exists closure ::
        ImporterClosure(tools, i.now, TouchedTests(tools, i), closure) && plan == PlanFor(tools, i, closure)
  }

  /** Which tests does the change reach? */
  method PlanSelection(tools: Tools, i: Input) returns (plan: Plan)
    requires WellIndexed(i.rec)
    ensures IsPlan(tools, i, plan)
  {
    hide Touched, EffectOf, Pulled, ImporterClosure, TouchedTests, SourceTouched;
    var found := Visit(tools, i);
    if found.None? {
      return FullRun;
    }
    var (ids, files, source) := found.value;
    var expanded := ExpandTestImporters(tools, i.now, files);
    if exists f | f in expanded - files :: !IsTestModule(f) {
      assert FullRun == PlanFor(tools, i, expanded);
      return FullRun;
    }
    if source {
      ids := ids + Named(i.rec, i.rec.opaqueNodes);
    }
    var todo := 0;
    ghost var reached := ids;
    while todo < |i.failed|
      invariant todo <= |i.failed|
      invariant ids == reached + set n | n in i.failed[..todo] && (FileOf(n) in expanded || n in i.rec.nodes)
    {
      var n := i.failed[todo];
      assert i.failed[..todo + 1] == i.failed[..todo] + [n];
      if FileOf(n) in expanded || n in i.rec.nodes {
        ids := ids + {n};
      }
      todo := todo + 1;
    }
    assert i.failed[..|i.failed|] == i.failed;
    plan := Selected(set n | n in ids && FileOf(n) in i.now, set f | f in expanded && f in i.now);
    assert plan == PlanFor(tools, i, expanded);
  }

  // ---- nothing that differs escapes --------------------------------------------------

  /** The digest tells contents apart and never reads as the absence mark. */
  ghost predicate FaithfulDigest(tools: Tools) {
    (forall x, y :: tools.sha(x) == tools.sha(y) ==> x == y) && forall x :: tools.sha(x) != MISSING
  }

  /** A source file that coverage can name. */
  predicate CoveredFile(past: Tree, path: string) {
    path in past && IsSource(path) && InPython(path)
  }

  /** `rec` is the record of a green run over `past`, made at the same merge base, and one
      that can be loaded: some test executed some source file. Tests are in files of that
      tree, coverage is measured in the source tree only, and reads are of Python files
      outside the cache. */
  ghost predicate RecordedAt(
    tools: Tools, rec: Record, past: Tree, base: Tree, changed: Changes, visible: string -> bool)
  {
    && Reports(changed, past, base, visible) && rec.files == FilesOf(tools, past, changed) && WellIndexed(rec)
    && (forall p | p in rec.ctx :: CoveredFile(past, p))
    && (exists p | p in rec.ctx :: rec.ctx[p] != {})
    && (forall n | n in rec.nodes :: FileOf(n) in past)
    && (forall p | p in rec.readers :: EndsWith(p, ".py") && !InSelectDir(p))
  }

  lemma PythonIsNotInSelectDir(path: string)
    requires InPython(path)
    ensures !InSelectDir(path)
  {
    assert path[0] == 's' || path[0] == 't' || path[0] == 'b' by {
      assert "src/mind_meld/"[0] == 's' && "tests/"[0] == 't' && "bin/"[0] == 'b';
    }
    assert (SELECT_DIR + "/")[0] == '.';
  }

  /** Every unignored path that differs between the recorded run and now has drifted, and
      so does every Python file of the inventoried directories, ignored or not. */
  lemma DifferingIsTouched(
    tools: Tools, i: Input, past: Tree, changed: Changes, visible: string -> bool, path: string)
    requires FaithfulDigest(tools) && RecordedAt(tools, i.rec, past, i.base, changed, visible)
    requires Reports(i.changed, i.now, i.base, visible)
    requires At(past, path) != At(i.now, path)
    requires (visible(path) && !InSelectDir(path)) || InPython(path)
    ensures Drifted(tools, i, path) && path in Touched(tools, i)
  {
    hide InPython, InSelectDir;
    if InPython(path) {
      PythonIsNotInSelectDir(path);
    }
    assert path in i.rec.files ==> i.rec.files[path].sha == Digest(tools, past, path);
    assert Digest(tools, past, path) != Digest(tools, i.now, path);
    if path in i.rec.files {
      RecordedIsInventoried(tools, i, past, changed, path);
    } else {
      assert path in InventoryNow(tools, i);
    }
  }

  lemma RecordedIsInventoried(tools: Tools, i: Input, past: Tree, changed: Changes, path: string)
    requires i.rec.files == FilesOf(tools, past, changed) && path in i.rec.files
    requires !InSelectDir(path)
    ensures path in InventoryNow(tools, i) && InventoryNow(tools, i)[path] == Digest(tools, i.now, path)
  {
  }

  // ---- what a test depends on -----------------------------------------------------------

  predicate SameSkeleton(tools: Tools, a: Tree, b: Tree, path: string) {
    (path in a <==> path in b) && (path in a && path in b ==> tools.skel(a[path]) == tools.skel(b[path]))
  }

  predicate Uses(rec: Record, node: string, path: string)
    requires WellIndexed(rec)
  {
    node in Named(rec, Row(rec.ctx, path)) || node in Named(rec, Row(rec.readers, path))
  }

  /** Nothing the test depends on differs between the two trees: the import-time skeletons,
      the files it executed or opened, every file of the test tree that running its own file
      runs, and for an opaque test the whole source. */
  ghost predicate Agree(tools: Tools, rec: Record, past: Tree, now: Tree, node: string)
    requires WellIndexed(rec)
  {
    && (forall p | IsSource(p) && InPython(p) :: SameSkeleton(tools, past, now, p))
    && (forall p | Uses(rec, node, p) :: At(past, p) == At(now, p))
    && (forall p | TestTree(p) && DependsOn(tools, past, FileOf(node), p) :: At(past, p) == At(now, p))
    && (node in Named(rec, rec.opaqueNodes) ==> forall p | IsSource(p) && InPython(p) :: At(past, p) == At(now, p))
  }

  /** A touched source file of a narrow plan changed in function bodies only, and its
      skeleton is the recorded one. */
  lemma NarrowSource(
    tools: Tools, i: Input, past: Tree, changed: Changes, visible: string -> bool, path: string)
    requires FaithfulDigest(tools) && RecordedAt(tools, i.rec, past, i.base, changed, visible)
    requires Reports(i.changed, i.now, i.base, visible) && !NeedsEverything(tools, i)
    requires IsSource(path) && InPython(path) && At(past, path) != At(i.now, path)
    ensures path in Touched(tools, i) && EffectOf(tools, i, path).FunctionBodies?
    ensures SameSkeleton(tools, past, i.now, path)
  {
    hide Touched, Drifted, InSelectDir, InCacheDir;
    DifferingIsTouched(tools, i, past, changed, visible, path);
    assert !EffectOf(tools, i, path).Everything?;
    assert !StartsWith(path, "tests/") by {
      assert path[0] == "src/mind_meld/"[0];
    }
    assert !ScopeChange(tools, i, path);
    assert i.rec.files[path] == EntryOf(tools, past, path);
  }

  lemma NarrowTest(
    tools: Tools, i: Input, past: Tree, changed: Changes, visible: string -> bool, path: string)
    requires FaithfulDigest(tools) && RecordedAt(tools, i.rec, past, i.base, changed, visible)
    requires Reports(i.changed, i.now, i.base, visible) && !NeedsEverything(tools, i)
    requires TestTree(path) && At(past, path) != At(i.now, path)
    ensures path in TouchedTests(tools, i)
  {
    hide Touched, Drifted, InSelectDir, InCacheDir, IsTestModule;
    DifferingIsTouched(tools, i, past, changed, visible, path);
    assert !EffectOf(tools, i, path).Everything?;
  }

  /** Any chain of imports that ends in the closure started in it. */
  lemma {:induction false} ChainIsClosed(
    tools: Tools, i: Input, past: Tree, changed: Changes, visible: string -> bool,
    closure: set<string>, chain: seq<string>)
    requires FaithfulDigest(tools) && RecordedAt(tools, i.rec, past, i.base, changed, visible)
    requires Reports(i.changed, i.now, i.base, visible) && !NeedsEverything(tools, i)
    requires ImporterClosure(tools, i.now, TouchedTests(tools, i), closure)
    requires ImportChain(tools, past, chain) && chain[|chain| - 1] in closure
    ensures chain[0] in closure
    decreases |chain|
  {
    hide RecordedAt, Reports, NeedsEverything, TouchedTests, FaithfulDigest, TestTree, ImporterClosure;
    ClosureMeaning(tools, i.now, TouchedTests(tools, i), closure, closure);
    if |chain| > 1 {
      var from, to := chain[|chain| - 2], chain[|chain| - 1];
      assert Imports(tools, past, from, to);
      if At(past, from) != At(i.now, from) {
        NarrowTest(tools, i, past, changed, visible, from);
      } else {
        assert Imports(tools, i.now, from, to);
      }
      ChainIsClosed(tools, i, past, changed, visible, closure, chain[..|chain| - 1]);
    }
  }

  // ---- the narrowing is safe ------------------------------------------------------------

  /** The plan does not run the test: neither its id nor its file is selected. */
  predicate Unselected(plan: Plan, node: string) {
    plan.Selected? && node !in plan.ids && FileOf(node) !in plan.files
  }

  /** The tree the record was made from and what is assumed of it: git's reports, a
      faithful digest, and no ignored file outside the inventory changing under a test that
      reads it. */
  ghost predicate Recorded(
    tools: Tools, i: Input, past: Tree, changed: Changes, visible: string -> bool)
  {
    && FaithfulDigest(tools) && RecordedAt(tools, i.rec, past, i.base, changed, visible)
    && Reports(i.changed, i.now, i.base, visible)
    && forall p | p in i.rec.readers :: At(past, p) != At(i.now, p) ==> visible(p) || InPython(p)
  }

  lemma UsedFilesAgree(
    tools: Tools, i: Input, past: Tree, changed: Changes, visible: string -> bool, closure: set<string>,
    node: string, path: string)
    requires Recorded(tools, i, past, changed, visible) && WellIndexed(i.rec)
    requires Unselected(PlanFor(tools, i, closure), node) && FileOf(node) in i.now
    requires Uses(i.rec, node, path)
    ensures At(past, path) == At(i.now, path)
  {
    hide Touched, InPython, InSelectDir, Drifted, EffectOf, Reached;
    if At(past, path) != At(i.now, path) {
      if path in i.rec.ctx {
        NarrowSource(tools, i, past, changed, visible, path);
      } else {
        DifferingIsTouched(tools, i, past, changed, visible, path);
      }
      TouchedUseIsReached(tools, i, node, path);
    }
  }

  lemma TouchedUseIsReached(tools: Tools, i: Input, node: string, path: string)
    requires WellIndexed(i.rec) && !NeedsEverything(tools, i) && path in Touched(tools, i) && Uses(i.rec, node, path)
    requires path in i.rec.ctx ==> EffectOf(tools, i, path).FunctionBodies?
    ensures node in Reached(tools, i)
  {
    hide Touched, EffectOf;
    assert !EffectOf(tools, i, path).Everything?;
    assert node in Pulled(tools, i, path);
  }

  /** A changed file that a left-out test really depends on is in the closure, or makes it
      leak: either way the test is run. */
  lemma BridgedIsClosed(
    tools: Tools, i: Input, past: Tree, changed: Changes, visible: string -> bool,
    closure: set<string>, node: string, path: string)
    requires Recorded(tools, i, past, changed, visible) && WellIndexed(i.rec) && !NeedsEverything(tools, i)
    requires ImporterClosure(tools, i.now, TouchedTests(tools, i), closure)
    requires Reaches(tools, past, FileOf(node), path) || Shared(tools, past, path)
    requires path in TouchedTests(tools, i)
    ensures FileOf(node) in closure || Leaks(closure, TouchedTests(tools, i))
  {
    hide TouchedTests, ImporterClosure, NeedsEverything, RecordedAt, Reports, Imports, IsTestModule;
    ClosureMeaning(tools, i.now, TouchedTests(tools, i), closure, closure);
    if Reaches(tools, past, FileOf(node), path) {
      var chain :| ImportChain(tools, past, chain) && chain[0] == FileOf(node) && chain[|chain| - 1] == path;
      ChainIsClosed(tools, i, past, changed, visible, closure, chain);
    } else {
      var h :| Reaches(tools, past, h, path) && !IsTestModule(h);
      var chain :| ImportChain(tools, past, chain) && chain[0] == h && chain[|chain| - 1] == path;
      ChainIsClosed(tools, i, past, changed, visible, closure, chain);
      if h in TouchedTests(tools, i) {
        TouchedIsTest(tools, i, h);
      }
    }
  }

  lemma ImportedTestsAgree(
    tools: Tools, i: Input, past: Tree, changed: Changes, visible: string -> bool,
    closure: set<string>, node: string, path: string)
    requires Recorded(tools, i, past, changed, visible) && WellIndexed(i.rec) && Bridged(tools, past, FileOf(node))
    requires ImporterClosure(tools, i.now, TouchedTests(tools, i), closure)
    requires Unselected(PlanFor(tools, i, closure), node) && FileOf(node) in i.now
    requires TestTree(path) && DependsOn(tools, past, FileOf(node), path)
    ensures At(past, path) == At(i.now, path)
  {
    hide TouchedTests, TestTree, ImporterClosure, NeedsEverything, RecordedAt, Reports, Reaches, Shared, Really,
      IsTestModule, FileOf, DependsOn, IsConftest;
    if At(past, path) != At(i.now, path) {
      NarrowTest(tools, i, past, changed, visible, path);
      TouchedIsTest(tools, i, path);
      if path == FileOf(node) {
        ReachesItself(tools, past, path);
      } else {
        DependsOnReal(tools, past, FileOf(node), path);
        assert Selectable(past, path);
      }
      BridgedIsClosed(tools, i, past, changed, visible, closure, node, path);
    }
  }

  /** Both ends of a real dependency between two files are there. */
  lemma DependsOnReal(tools: Tools, tree: Tree, own: string, path: string)
    requires DependsOn(tools, tree, own, path) && own != path
    ensures own in tree && TestTree(own) && path in tree
  {
    hide TestTree, Ambient, Loads;
    var chain :| RealChain(tools, tree, chain) && chain[0] == own && chain[|chain| - 1] == path;
    assert Really(tools, tree, chain[0], chain[1]);
    assert Really(tools, tree, chain[|chain| - 2], chain[|chain| - 1]);
  }

  lemma SourceAgrees(
    tools: Tools, i: Input, past: Tree, changed: Changes, visible: string -> bool, closure: set<string>,
    node: string, path: string)
    requires Recorded(tools, i, past, changed, visible) && WellIndexed(i.rec)
    requires Unselected(PlanFor(tools, i, closure), node) && FileOf(node) in i.now
    requires IsSource(path) && InPython(path)
    ensures SameSkeleton(tools, past, i.now, path)
    ensures node in Named(i.rec, i.rec.opaqueNodes) ==> At(past, path) == At(i.now, path)
  {
    hide Touched, InPython, InSelectDir, Drifted, EffectOf, RecordedAt, Reports, IsSource;
    if At(past, path) != At(i.now, path) {
      NarrowSource(tools, i, past, changed, visible, path);
      assert SourceTouched(tools, i);
    }
  }

  /** Over a bridged tree, a recorded test that a narrow plan leaves out agrees, in everything
      it depends on, with the recorded run. */
  lemma UnselectedAgrees(
    tools: Tools, i: Input, past: Tree, changed: Changes, visible: string -> bool, plan: Plan, node: string)
    requires Recorded(tools, i, past, changed, visible) && WellIndexed(i.rec) && Bridged(tools, past, FileOf(node))
    requires IsPlan(tools, i, plan) && Unselected(plan, node) && FileOf(node) in i.now
    ensures Agree(tools, i.rec, past, i.now, node)
  {
    hide Recorded, ImporterClosure, NeedsEverything, SameSkeleton, Uses, IsSource, InPython, TestTree, DependsOn,
      PlanFor,
      Bridged;
    var closure :| ImporterClosure(tools, i.now, TouchedTests(tools, i), closure) && plan == PlanFor(tools, i, closure);
    forall p | IsSource(p) && InPython(p)
      ensures SameSkeleton(tools, past, i.now, p)
      ensures node in Named(i.rec, i.rec.opaqueNodes) ==> At(past, p) == At(i.now, p)
    {
      SourceAgrees(tools, i, past, changed, visible, closure, node, p);
    }
    forall p | Uses(i.rec, node, p)
      ensures At(past, p) == At(i.now, p)
    {
      UsedFilesAgree(tools, i, past, changed, visible, closure, node, p);
    }
    forall p | TestTree(p) && DependsOn(tools, past, FileOf(node), p)
      ensures At(past, p) == At(i.now, p)
    {
      ImportedTestsAgree(tools, i, past, changed, visible, closure, node, p);
    }
  }

  /** Selection over a bridged tree is safe: if a test's outcome depends only on what it is
      taken to depend on, leaving it out loses nothing - it would have its recorded outcome. */
  lemma SelectionIsSafe(
    tools: Tools, i: Input, past: Tree, changed: Changes, visible: string -> bool, plan: Plan, node: string,
    outcome: (string, Tree) -> string)
    requires Recorded(tools, i, past, changed, visible) && WellIndexed(i.rec) && Bridged(tools, past, FileOf(node))
    requires IsPlan(tools, i, plan) && Unselected(plan, node) && FileOf(node) in i.now
    requires forall t :: Agree(tools, i.rec, past, t, node) ==> outcome(node, t) == outcome(node, past)
    ensures outcome(node, i.now) == outcome(node, past)
  {
    hide Recorded, IsPlan, Unselected, Agree, Bridged;
    UnselectedAgrees(tools, i, past, changed, visible, plan, node);
  }

  /** A narrow plan's files are the importer closure of the touched test modules, restricted
      to files that exist, and every one of them is a test module. */
  lemma PlannedFilesAreTests(tools: Tools, i: Input, plan: Plan) returns (closure: set<string>)
    requires WellIndexed(i.rec) && IsPlan(tools, i, plan) && plan.Selected?
    ensures ImporterClosure(tools, i.now, TouchedTests(tools, i), closure)
    ensures plan.files == closure * i.now.Keys
    ensures forall f | f in plan.files :: IsTestModule(f)
  {
    hide Touched, IsTestModule, EffectOf, Reached, Retried, NeedsEverything, ImporterClosure, TouchedTests;
    closure :| ImporterClosure(tools, i.now, TouchedTests(tools, i), closure) && plan == PlanFor(tools, i, closure);
    forall f | f in plan.files
      ensures IsTestModule(f)
    {
      if f in TouchedTests(tools, i) {
        TouchedIsTest(tools, i, f);
      }
    }
  }

  lemma TouchedIsTest(tools: Tools, i: Input, file: string)
    requires file in TouchedTests(tools, i)
    ensures IsTestModule(file) && !IsConftest(file)
  {
    hide Touched, ScopeChange, IsTestModule, IsConftest;
  }

  // ---- an unbridged tree --------------------------------------------------------------

  function Targets(tools: Tools, tree: Tree): set<string> {
    set from, st, t | from in tree && st in tools.statements(tree[from]) && t in Followed(Dir(from), st) :: t
  }

  function ReverseOf(tools: Tools, tree: Tree): Importers {
    map t | t in Targets(tools, tree) :: set from | from in tree && Imports(tools, tree, from, t)
  }

  lemma ReverseOfReverses(tools: Tools, tree: Tree)
    ensures Reverses(tools, tree, ReverseOf(tools, tree))
  {
    hide TestTree, Followed, Dir;
    forall from, t
      ensures from in ImportersOf(ReverseOf(tools, tree), t) <==> Imports(tools, tree, from, t)
    {
      if Imports(tools, tree, from, t) {
        assert t in Targets(tools, tree);
      }
    }
  }

  const NEWLINE: Byte := 10

  /** `t` with a newline appended, and nothing else changed. */
  function Edited(past: Tree, t: string): Tree
    requires t in past
  {
    past[t := past[t] + [NEWLINE]]
  }

  /** What the selector sees lead to `t`. */
  ghost function SeenImporters(tools: Tools, past: Tree, t: string): set<string> {
    set f | f in past.Keys + {t} && Reaches(tools, past, f, t)
  }

  lemma SameEdges(tools: Tools, past: Tree, t: string, from: string, to: string)
    requires t in past && from != t
    ensures Imports(tools, Edited(past, t), from, to) <==> Imports(tools, past, from, to)
  {
    hide Followed, Dir, TestTree;
  }

  lemma {:induction false} ChainInside(
    tools: Tools, past: Tree, t: string, chain: seq<string>, importers: Importers, other: set<string>)
    requires t in past && Reverses(tools, Edited(past, t), importers) && Closed(importers, other) && t in other
    requires ImportChain(tools, past, chain) && chain[|chain| - 1] == t
    ensures chain[0] in other
    decreases |chain|
  {
    hide Imports, ImportersOf;
    if |chain| > 1 && chain[0] != t {
      assert Imports(tools, past, chain[0], chain[1]);
      forall k | 0 <= k < |chain[1..]| - 1
        ensures Imports(tools, past, chain[1..][k], chain[1..][k + 1])
      {
        assert Imports(tools, past, chain[k + 1], chain[k + 2]);
      }
      ChainInside(tools, past, t, chain[1..], importers, other);
      SameEdges(tools, past, t, chain[0], chain[1]);
      assert chain[0] in ImportersOf(importers, chain[1]);
    }
  }

  /** Editing `t` leaves its importer closure what it was. */
  lemma EditedClosure(tools: Tools, past: Tree, t: string)
    requires t in past
    ensures ImporterClosure(tools, Edited(past, t), {t}, SeenImporters(tools, past, t))
  {
    hide Imports, ImportersOf, ReverseOf, Edited, Reaches;
    var importers := ReverseOf(tools, Edited(past, t));
    var seen := SeenImporters(tools, past, t);
    ReverseOfReverses(tools, Edited(past, t));
    ReachesItself(tools, past, t);
    forall to, from | to in seen && from in ImportersOf(importers, to)
      ensures from in seen
    {
      assert Imports(tools, Edited(past, t), from, to);
      if from != t {
        SameEdges(tools, past, t, from, to);
        ReachesFurther(tools, past, from, to, t);
        ImporterIsThere(tools, past, from, to);
      }
    }
    forall other, f | {t} <= other && Closed(importers, other) && f in seen
      ensures f in other
    {
      SeenInside(tools, past, t, f, importers, other);
    }
    assert LeastClosed(importers, {t}, seen);
  }

  lemma ImporterIsThere(tools: Tools, tree: Tree, from: string, to: string)
    requires Imports(tools, tree, from, to)
    ensures from in tree
  {
  }

  lemma SeenInside(tools: Tools, past: Tree, t: string, f: string, importers: Importers, other: set<string>)
    requires t in past && Reverses(tools, Edited(past, t), importers) && Closed(importers, other) && t in other
    requires Reaches(tools, past, f, t)
    ensures f in other
  {
    hide Imports, Edited, Closed;
    var chain :| ImportChain(tools, past, chain) && chain[0] == f && chain[|chain| - 1] == t;
    ChainInside(tools, past, t, chain, importers, other);
  }

  /** A green run over `past` recorded these tests, the first of which executed `src`; then
      `t` alone was edited. */
  function EditedInput(tools: Tools, past: Tree, src: string, nodes: seq<string>, t: string): Input
    requires t in past
  {
    var rec := Record(nodes, map[src := {0}], map[], {}, FilesOf(tools, past, map[]));
    Input(rec, Edited(past, t), past, map[t := false], [])
  }

  lemma EditedIsRecorded(tools: Tools, past: Tree, src: string, nodes: seq<string>, t: string)
    requires FaithfulDigest(tools) && Selectable(past, t) && CoveredFile(past, src)
    requires nodes != [] && forall n | n in nodes :: FileOf(n) in past
    ensures Recorded(tools, EditedInput(tools, past, src, nodes, t), past, map[], p => true)
    ensures WellIndexed(EditedInput(tools, past, src, nodes, t).rec)
  {
    hide FilesOf, FaithfulDigest, IsTestModule, InCacheDir, IsConftest;
    PythonIsNotInSelectDir(t);
    var i := EditedInput(tools, past, src, nodes, t);
    assert |past[t] + [NEWLINE]| != |past[t]|;
  }

  /** Only the edited file is touched, as a test file. */
  lemma EditedTouches(tools: Tools, past: Tree, src: string, nodes: seq<string>, t: string)
    requires Selectable(past, t)
    ensures
      var i := EditedInput(tools, past, src, nodes, t);
      Touched(tools, i) == {t} && EffectOf(tools, i, t).TestFile? && TouchedTests(tools, i) == {t}
  {
    var i := EditedInput(tools, past, src, nodes, t);
    forall p | p != t
      ensures !Drifted(tools, i, p)
    {
      UneditedIsRecorded(tools, past, src, nodes, t, p);
    }
    TestIsNoConfig(t);
    assert Touched(tools, i) == {t} by {
      hide Drifted, IsTestModule, TestTree;
    }
    assert EffectOf(tools, i, t).TestFile? by {
      hide IsTestModule, Drifted, IsConftest;
    }
    assert TouchedTests(tools, i) == {t} by {
      hide EffectOf, Touched;
    }
  }

  lemma UneditedIsRecorded(tools: Tools, past: Tree, src: string, nodes: seq<string>, t: string, p: string)
    requires Selectable(past, t) && p != t
    ensures !Drifted(tools, EditedInput(tools, past, src, nodes, t), p)
  {
    hide InPython, InSelectDir, IsTestModule, IsConftest, TestTree;
  }

  lemma TestIsNoConfig(t: string)
    requires IsTestModule(t)
    ensures t !in CONFIG_PATHS && EndsWith(t, ".py") && StartsWith(t, "tests/")
  {
    hide EndsWith;
    assert "tests/"[0] == t[0];
    BaseNameEnds(t, ".py");
  }

  lemma {:induction false} BaseNameEnds(path: string, suffix: string)
    requires EndsWith(BaseName(path), suffix)
    ensures EndsWith(path, suffix)
    decreases |path|
  {
    if '/' in path {
      BaseNameEnds(path[1..], suffix);
      assert path == [path[0]] + path[1..];
    }
  }

  /** A dependency the selector does not see costs a test: an input over which the plan is
      narrow and leaves the test out although a file it really runs has changed. */
  lemma MissedImportIsUnsafe(
    tools: Tools, past: Tree, src: string, nodes: seq<string>, t: string, node: string)
    returns (i: Input, plan: Plan)
    requires FaithfulDigest(tools) && CoveredFile(past, src) && Selectable(past, t)
    requires node in nodes && forall n | n in nodes :: FileOf(n) in past
    requires !Reaches(tools, past, FileOf(node), t) && !Shared(tools, past, t)
    ensures i == EditedInput(tools, past, src, nodes, t)
    ensures Recorded(tools, i, past, map[], p => true) && WellIndexed(i.rec)
    ensures IsPlan(tools, i, plan) && Unselected(plan, node)
    ensures FileOf(node) in i.now && At(past, t) != At(i.now, t)
  {
    hide Recorded, Touched, EffectOf, Reaches, ImporterClosure, BaseName, IsTestModule, FaithfulDigest, FilesOf, FileOf;
    i := EditedInput(tools, past, src, nodes, t);
    var seen := SeenImporters(tools, past, t);
    plan := PlanFor(tools, i, seen);
    EditedIsRecorded(tools, past, src, nodes, t);
    EditedTouches(tools, past, src, nodes, t);
    EditedClosure(tools, past, t);
    ReachesItself(tools, past, t);
    EditedReachesNone(tools, past, src, nodes, t);
    assert |past[t] + [NEWLINE]| != |past[t]|;
    assert !NeedsEverything(tools, i);
    assert !Leaks(seen, {t});
  }

  lemma EditedReachesNone(tools: Tools, past: Tree, src: string, nodes: seq<string>, t: string)
    requires Selectable(past, t) && nodes != []
    ensures
      var i := EditedInput(tools, past, src, nodes, t);
      WellIndexed(i.rec) && Reached(tools, i) == {} && forall files :: Retried(i, files) == {}
  {
    hide Touched, EffectOf, TouchedTests, FilesOf, IsTestModule, TestTree;
    EditedTouches(tools, past, src, nodes, t);
    var i := EditedInput(tools, past, src, nodes, t);
    assert Pulled(tools, i, t) == {};
    assert !SourceTouched(tools, i);
  }

  /** Every narrow plan that leaves this recorded test out finds the test-tree files it
      really runs unchanged. */
  ghost predicate LeftOutSafely(tools: Tools, past: Tree, nodes: seq<string>, node: string) {
    forall i: Input, changed: Changes, visible: string -> bool, plan: Plan, t: string ::
      WellIndexed(i.rec) && i.rec.nodes == nodes && Recorded(tools, i, past, changed, visible) && IsPlan(tools, i, plan)
      && Unselected(plan, node) && FileOf(node) in i.now && TestTree(t) && DependsOn(tools, past, FileOf(node), t) ==>
        At(past, t) == At(i.now, t)
  }

  lemma NothingRecorded(tools: Tools, past: Tree)
    requires forall src :: !CoveredFile(past, src)
    ensures forall i, changed, visible :: !Recorded(tools, i, past, changed, visible)
  {
    hide FaithfulDigest, Reports, FilesOf;
  }

  /** Leaving a recorded test out is safe in every narrow plan if and only if its file is
      bridged in the recorded tree, or that tree has no source file, when no record of it can
      be loaded and nothing is ever narrowed. */
  lemma SoundExactlyWhenBridged(tools: Tools, past: Tree, nodes: seq<string>, node: string)
    requires FaithfulDigest(tools) && node in nodes && forall n | n in nodes :: FileOf(n) in past
    ensures LeftOutSafely(tools, past, nodes, node) <==>
            Bridged(tools, past, FileOf(node)) || forall src :: !CoveredFile(past, src)
  {
    hide Recorded, IsPlan, Unselected, DependsOn, TestTree, FaithfulDigest, Reaches, Shared, FileOf, IsTestModule,
      PlanFor, IsConftest, CoveredFile;
    if Bridged(tools, past, FileOf(node)) {
      forall i: Input, changed: Changes, visible: string -> bool, plan: Plan, t: string |
        WellIndexed(i.rec) && i.rec.nodes == nodes && Recorded(tools, i, past, changed, visible)
        && IsPlan(tools, i, plan) && Unselected(plan, node) && FileOf(node) in i.now && TestTree(t)
        && DependsOn(tools, past, FileOf(node), t)
        ensures At(past, t) == At(i.now, t)
      {
        UnselectedAgrees(tools, i, past, changed, visible, plan, node);
      }
    } else if src :| CoveredFile(past, src) {
      var t :| Selectable(past, t) && DependsOn(tools, past, FileOf(node), t)
               && !Reaches(tools, past, FileOf(node), t) && !Shared(tools, past, t);
      var i, plan := MissedImportIsUnsafe(tools, past, src, nodes, t, node);
      assert TestTree(t);
    } else {
      NothingRecorded(tools, past);
    }
  }
}
