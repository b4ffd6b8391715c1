/** What a selection plan contains, path by path and test by test, in terms of the record,
    the worktree and the earlier failures alone. */
module PlanMeaning {
  import opened Manifests
  import opened AffectedTests
  import opened TestImports
  import opened AffectedPlan

  // ---- the importer closure ---------------------------------------------------

  lemma {:induction false} ChainStaysInside(tools: Tools, tree: Tree, chain: seq<string>, files: set<string>)
    requires ImportChain(tools, tree, chain) && chain[|chain| - 1] in files
    requires forall from, target | target in files && Imports(tools, tree, from, target) :: from in files
    ensures chain[0] in files
    decreases |chain|
  {
    hide Imports;
    if |chain| > 1 {
      assert Imports(tools, tree, chain[|chain| - 2], chain[|chain| - 1]);
      ChainStaysInside(tools, tree, chain[..|chain| - 1], files);
    }
  }

  /** The worklist ends with exactly the files from which the selector sees imports lead to
      one of the files it started from. */
  lemma ClosureIsReaching(tools: Tools, tree: Tree, initial: set<string>, closure: set<string>, f: string)
    requires ImporterClosure(tools, tree, initial, closure)
    ensures f in closure <==> exists t | t in initial :: Reaches(tools, tree, f, t)
  {
    hide Imports, ImporterClosure, Reaches;
    var reaching := set x | x in initial + tree.Keys && exists t | t in initial :: Reaches(tools, tree, x, t);
    forall x | x in initial
      ensures x in reaching
    {
      ReachesItself(tools, tree, x);
    }
    forall from, target | target in reaching && Imports(tools, tree, from, target)
      ensures from in reaching
    {
      var t :| t in initial && Reaches(tools, tree, target, t);
      ReachesFurther(tools, tree, from, target, t);
      ImporterIsThere(tools, tree, from, target);
    }
    ClosureMeaning(tools, tree, initial, closure, reaching);
    if t :| t in initial && Reaches(tools, tree, f, t) {
      ReachingIsClosed(tools, tree, initial, closure, f, t);
    }
  }

  lemma ReachingIsClosed(
    tools: Tools, tree: Tree, initial: set<string>, closure: set<string>, f: string, t: string)
    requires ImporterClosure(tools, tree, initial, closure) && t in initial && Reaches(tools, tree, f, t)
    ensures f in closure
  {
    hide Imports, ImporterClosure;
    ClosureMeaning(tools, tree, initial, closure, closure);
    var chain :| ImportChain(tools, tree, chain) && chain[0] == f && chain[|chain| - 1] == t;
    ChainStaysInside(tools, tree, chain, closure);
  }

  // ---- touched paths --------------------------------------------------------------

  /** The path is inventoried now: a Python or configuration file that is there, or a
      recorded or changed path outside the selection directory. */
  ghost predicate Inventoried(i: Input, path: string) {
    || (path in i.now && (InPython(path) || path in CONFIG_PATHS))
    || ((path in i.rec.files || path in i.changed) && !InSelectDir(path))
  }

  /** A path is touched exactly when git reports it, or it was recorded and is not
      inventoried with the recorded digest, or it is inventoried and was not recorded. */
  lemma TouchedExactly(tools: Tools, i: Input, path: string)
    ensures path in Touched(tools, i) <==>
      || path in i.changed
      || (if path in i.rec.files
          then !Inventoried(i, path)
               || i.rec.files[path].sha != (if path in i.now then tools.sha(i.now[path]) else MISSING)
          else Inventoried(i, path))
  {
    hide InPython, InSelectDir;
  }

  // ---- full runs --------------------------------------------------------------------

  /** A source module whose import-time skeleton is not known to be unchanged: it is gone,
      added or does not parse, or its skeleton differs from the merge base's, or it drifted
      and its skeleton differs from the recorded one. */
  ghost predicate SkeletonInDoubt(tools: Tools, i: Input, path: string) {
    || path !in i.now || tools.skel(i.now[path]).None?
    || (path in i.changed
        && (i.changed[path] || path !in i.base || tools.skel(i.base[path]) != tools.skel(i.now[path])))
    || (Drifted(tools, i, path) && (path !in i.rec.files || i.rec.files[path].skel != tools.skel(i.now[path])))
  }

  /** A change of this path is one no narrower run can answer for: configuration, a conftest
      file, anything that is not Python, anything that is neither a test module nor source,
      or source whose skeleton is in doubt. */
  ghost predicate AnswersToAll(tools: Tools, i: Input, path: string) {
    || path in CONFIG_PATHS || IsConftest(path) || !EndsWith(path, ".py")
    || (!IsTestModule(path) && (!IsSource(path) || SkeletonInDoubt(tools, i, path)))
  }

  lemma EffectExactly(tools: Tools, i: Input, path: string)
    ensures EffectOf(tools, i, path).Everything? <==> AnswersToAll(tools, i, path)
    ensures EffectOf(tools, i, path).TestFile? ==> IsTestModule(path)
    ensures EffectOf(tools, i, path).FunctionBodies? ==> !IsTestModule(path) && IsSource(path)
  {
    hide Drifted, IsConftest, EndsWith;
    if IsTestModule(path) || StartsWith(path, "tests/") {
      assert path[0] == 't' by {
        assert "tests/"[0] == 't';
      }
      assert !IsSource(path) by {
        assert "src/mind_meld/"[0] == 's';
      }
    }
  }

  /** Some file of the test tree that is no test module imports a touched one. */
  ghost predicate SharedChange(tools: Tools, i: Input) {
    exists f, t :: t in Touched(tools, i) && IsTestModule(t) && Reaches(tools, i.now, f, t) && !IsTestModule(f)
  }

  lemma NeedsExactly(tools: Tools, i: Input)
    ensures NeedsEverything(tools, i) <==> exists p | p in Touched(tools, i) :: AnswersToAll(tools, i, p)
    ensures !NeedsEverything(tools, i) ==>
      forall t :: t in TouchedTests(tools, i) <==> t in Touched(tools, i) && IsTestModule(t)
  {
    hide Touched, EffectOf, AnswersToAll, IsTestModule, IsSource;
    forall p
      ensures EffectOf(tools, i, p).Everything? <==> AnswersToAll(tools, i, p)
      ensures EffectOf(tools, i, p).TestFile? ==> IsTestModule(p)
      ensures EffectOf(tools, i, p).FunctionBodies? ==> !IsTestModule(p)
    {
      EffectExactly(tools, i, p);
    }
  }

  /** The whole suite is run exactly when some touched path asks for it, or a shared file of
      the test tree imports a touched test module. */
  lemma FullRunExactly(tools: Tools, i: Input, plan: Plan)
    requires WellIndexed(i.rec) && IsPlan(tools, i, plan)
    ensures plan.FullRun? <==>
      (exists p | p in Touched(tools, i) :: AnswersToAll(tools, i, p)) || SharedChange(tools, i)
  {
    hide Touched, AnswersToAll, IsTestModule, Reaches, NeedsEverything, TouchedTests, ImporterClosure, Reached, Retried;
    NeedsExactly(tools, i);
    if !NeedsEverything(tools, i) {
      var initial := TouchedTests(tools, i);
      var closure :| ImporterClosure(tools, i.now, initial, closure) && plan == PlanFor(tools, i, closure);
      forall f
        ensures f in closure <==> exists t | t in initial :: Reaches(tools, i.now, f, t)
      {
        ClosureIsReaching(tools, i.now, initial, closure, f);
      }
    }
  }

  // ---- narrow plans ------------------------------------------------------------------

  ghost predicate OpenedBy(rec: Record, node: string, path: string)
    requires WellIndexed(rec)
  {
    path in rec.readers && exists k | k in rec.readers[path] :: rec.nodes[k] == node
  }

  ghost predicate ExecutedBy(rec: Record, node: string, path: string)
    requires WellIndexed(rec)
  {
    path in rec.ctx && exists k | k in rec.ctx[path] :: rec.nodes[k] == node
  }

  ghost predicate OpaqueIn(rec: Record, node: string)
    requires WellIndexed(rec)
  {
    exists k | k in rec.opaqueNodes :: rec.nodes[k] == node
  }

  /** The recorded run says the change reaches the test: it opened a touched file, executed a
      touched source file, or is opaque and some source file was touched. */
  ghost predicate ReachedBy(tools: Tools, i: Input, node: string)
    requires WellIndexed(i.rec)
  {
    exists p | p in Touched(tools, i) ::
      OpenedBy(i.rec, node, p) || (!IsTestModule(p) && (ExecutedBy(i.rec, node, p) || OpaqueIn(i.rec, node)))
  }

  lemma ReachedExactly(tools: Tools, i: Input, node: string)
    requires WellIndexed(i.rec) && !NeedsEverything(tools, i)
    ensures node in Reached(tools, i) <==> ReachedBy(tools, i, node)
  {
    hide Touched, IsTestModule, IsSource, EffectOf;
    forall p | p in Touched(tools, i)
      ensures !EffectOf(tools, i, p).Everything?
      ensures EffectOf(tools, i, p).TestFile? <==> IsTestModule(p)
      ensures node in Pulled(tools, i, p) <==>
        OpenedBy(i.rec, node, p) || (!IsTestModule(p) && ExecutedBy(i.rec, node, p))
    {
      EffectExactly(tools, i, p);
    }
    assert node in Named(i.rec, i.rec.opaqueNodes) <==> OpaqueIn(i.rec, node);
  }

  /** A narrow plan, exactly. Its files are the existing test modules from which imports lead
      to a touched one. Its tests, all of files that exist, are those the recorded run says
      the change reaches and the earlier failures that are recorded or in one of its files. */
  lemma PlannedExactly(tools: Tools, i: Input, plan: Plan, f: string, node: string)
    requires WellIndexed(i.rec) && IsPlan(tools, i, plan) && plan.Selected?
    ensures f in plan.files <==>
      f in i.now && exists t | t in Touched(tools, i) && IsTestModule(t) :: Reaches(tools, i.now, f, t)
    ensures node in plan.ids <==>
      FileOf(node) in i.now
      && (ReachedBy(tools, i, node) || (node in i.failed && (node in i.rec.nodes || FileOf(node) in plan.files)))
  {
    hide Touched, IsTestModule, Reaches, NeedsEverything, TouchedTests, ImporterClosure, Reached, ReachedBy;
    NeedsExactly(tools, i);
    ReachedExactly(tools, i, node);
    var initial := TouchedTests(tools, i);
    var closure :| ImporterClosure(tools, i.now, initial, closure) && plan == PlanFor(tools, i, closure);
    ClosureIsReaching(tools, i.now, initial, closure, f);
  }
}
