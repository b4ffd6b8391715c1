/** What Python makes of the imports in the test tree, against what the selector follows of
    them: which forms it misses, and when the modules it does follow still bridge the gap. */
module TestImports {
  import opened Manifests
  import opened AffectedTests

  // ---- what an import runs ----------------------------------------------------------

  /** The package `k` levels above. */
  function Up(pkg: string, k: nat): Option<string>
    decreases k
  {
    if k == 0 then Some(pkg) else if '/' in pkg then Up(Dir(pkg), k - 1) else None
  }

  /** The module a from-import starts at, as a path without suffix; None where Python raises. */
  function Base(pkg: string, level: nat, from: seq<string>): Option<string> {
    if level == 0 then if from == [] then None else Some(Slashed(from))
    else
      match Up(pkg, level - 1)
      case None => None
      case Some(up) => Some(if from == [] then up else up + "/" + Slashed(from))
  }

  function Init(base: string): string {
    base + "/__init__.py"
  }

  /** What importing the module at `base` runs: a package before a module file. */
  function ModuleFile(tree: Tree, base: string): set<string> {
    if Init(base) in tree then {Init(base)} else if base + ".py" in tree then {base + ".py"} else {}
  }

  /** The names a from-import asks for, with those a star stands for. */
  function Asked(tools: Tools, tree: Tree, base: string, names: set<string>): set<string> {
    names + if "*" in names && Init(base) in tree then tools.exports(tree[Init(base)]) else {}
  }

  /** Names of a package that are modules of it; a plain module has none. */
  function Submodules(tools: Tools, tree: Tree, base: string, names: set<string>): set<string> {
    if base + ".py" in ModuleFile(tree, base) then {}
    else set n, f | n in Asked(tools, tree, base, names) && f in ModuleFile(tree, base + "/" + n) :: f
  }

  /** `t` is run by importing the module at `base` and names from it: the module, a
      submodule, or a package above. */
  predicate Runs(tools: Tools, tree: Tree, base: string, names: set<string>, t: string) {
    || t in ModuleFile(tree, base) || t in Submodules(tools, tree, base, names)
    || (t in tree && BaseName(t) == "__init__.py" && Dir(t) + "/" <= base)
  }

  predicate Loads(tools: Tools, tree: Tree, from: string, st: Import, t: string) {
    match st
    case FromImport(level, module_, names) =>
      Base(Dir(from), level, module_).Some? && Runs(tools, tree, Base(Dir(from), level, module_).value, names, t)
    case PlainImport(modules) => exists m | m in modules :: Runs(tools, tree, Slashed(m), {}, t)
  }

  /** Run without an import statement: the packages a file is in, and for a test module the
      conftest files of the directories it is in. */
  predicate Ambient(tree: Tree, from: string, t: string) {
    && t in tree && Dir(t) + "/" <= from
    && (BaseName(t) == "__init__.py" || (BaseName(t) == "conftest.py" && IsTestModule(from)))
  }

  /** Running `from` runs `t`. */
  predicate Really(tools: Tools, tree: Tree, from: string, t: string) {
    && from in tree && TestTree(from) && t in tree
    && (Ambient(tree, from, t) || exists st | st in tools.statements(tree[from]) :: Loads(tools, tree, from, st, t))
  }

  ghost predicate RealChain(tools: Tools, tree: Tree, chain: seq<string>) {
    chain != [] && forall k | 0 <= k < |chain| - 1 :: Really(tools, tree, chain[k], chain[k + 1])
  }

  /** `file` is the test's own file or one that running it runs, directly or not. */
  ghost predicate DependsOn(tools: Tools, tree: Tree, own: string, file: string) {
    exists chain :: RealChain(tools, tree, chain) && chain[0] == own && chain[|chain| - 1] == file
  }

  // ---- which forms are followed ------------------------------------------------------

  /** The statement names the test module in a form the selector follows. */
  predicate FollowedForm(from: string, st: Import, t: string) {
    match st
    case PlainImport(_) => true
    case FromImport(level, module_, names) =>
      match Base(Dir(from), level, module_)
      case None => false
      case Some(base) =>
        || (level == 0 && (t == base + ".py" || t in Below(base, names)))
        || (level == 1 && (if module_ == [] then t in Below(base, names) else t == base + ".py"))
  }

  lemma {:induction false} BaseNameOf(dir: string, name: string)
    requires '/' !in name
    ensures BaseName(dir + "/" + name) == name
    decreases |dir|
  {
    var path := dir + "/" + name;
    if dir == [] {
      assert path == "/" + name && path[1..] == name;
    } else {
      assert path[1..] == dir[1..] + "/" + name;
      BaseNameOf(dir[1..], name);
    }
    assert path[|dir|] == '/';
  }

  /** No `__init__.py` and no conftest file is a test module. */
  lemma AmbientIsNoTest(path: string)
    requires BaseName(path) == "__init__.py" || BaseName(path) == "conftest.py"
    ensures !IsTestModule(path)
  {
    assert "__init__.py"[0] != 't' && "conftest.py"[0] != 't';
    assert "__init__.py"[|"__init__.py"| - 8..] == "nit__.py"[..];
    assert "conftest.py"[|"conftest.py"| - 8..] == "ftest.py"[..];
  }

  lemma InitIsNoTest(base: string)
    ensures !IsTestModule(Init(base))
  {
    BaseNameOf(base, "__init__.py");
    assert Init(base) == base + "/" + "__init__.py";
    AmbientIsNoTest(Init(base));
  }

  /** What a module or a name of it contributes among the test modules: its `.py` file. */
  lemma TestModuleFile(tree: Tree, base: string, t: string)
    requires t in ModuleFile(tree, base) && IsTestModule(t)
    ensures t == base + ".py"
  {
    InitIsNoTest(base);
  }

  lemma TestRun(tools: Tools, tree: Tree, base: string, names: set<string>, t: string)
    requires Runs(tools, tree, base, names, t) && IsTestModule(t)
    ensures t == base + ".py" || t in Below(base, Asked(tools, tree, base, names))
    ensures names == {} ==> t == base + ".py"
  {
    hide IsTestModule, ModuleFile;
    if t in ModuleFile(tree, base) {
      TestModuleFile(tree, base, t);
    } else if t in Submodules(tools, tree, base, names) {
      var n :| n in Asked(tools, tree, base, names) && t in ModuleFile(tree, base + "/" + n);
      TestModuleFile(tree, base + "/" + n, t);
    } else {
      AmbientIsNoTest(t);
    }
  }

  lemma StartOf(base: string, rest: string)
    requires "tests/" <= base + rest && (rest == ".py" || "/" <= rest)
    ensures "tests" <= base
    ensures rest == ".py" ==> "tests/" <= base
  {
    var all := base + rest;
    assert all[..6] == "tests/";
    assert forall k | 0 <= k < |base| :: base[k] == all[k];
    if |base| < 6 {
      assert all[|base|] == rest[0];
      assert "tests/"[|base|] == rest[0];
    }
  }

  /** Of the test modules a statement runs the selector follows exactly these forms: every
      plain import, an absolute from-import's module and names, a one-dot import's module or,
      without a module, its names. It misses names taken from a one-dot module, modules only
      `__all__` names, and everything with more dots. */
  lemma FollowedExactly(tools: Tools, tree: Tree, from: string, st: Import, t: string)
    requires Loads(tools, tree, from, st, t) && IsTestModule(t)
    ensures (st.PlainImport? ==> exists m | m in st.modules :: t == Slashed(m) + ".py")
    ensures t in Followed(Dir(from), st) <==> FollowedForm(from, st, t)
  {
    hide Runs, Dir, Slashed, BaseName;
    match st
    case PlainImport(modules) =>
      var m :| m in modules && Runs(tools, tree, Slashed(m), {}, t);
      TestRun(tools, tree, Slashed(m), {}, t);
      StartOf(Slashed(m), ".py");
      assert StartsWith(Slashed(m), "tests/");
    case FromImport(level, module_, names) =>
      var base := Base(Dir(from), level, module_).value;
      TestRun(tools, tree, base, names, t);
      if level == 0 && t == base + ".py" {
        StartOf(base, ".py");
      } else if level == 0 && t in Below(base, names) {
        var n :| n in names && t == base + "/" + n + ".py";
        assert t == base + ("/" + n + ".py");
        StartOf(base, "/" + n + ".py");
      }
  }

  // ---- when the followed imports are enough --------------------------------------------

  ghost predicate ImportChain(tools: Tools, tree: Tree, chain: seq<string>) {
    chain != [] && forall k | 0 <= k < |chain| - 1 :: Imports(tools, tree, chain[k], chain[k + 1])
  }

  /** The selector sees imports lead from one file to the other. */
  ghost predicate Reaches(tools: Tools, tree: Tree, from: string, t: string) {
    exists chain :: ImportChain(tools, tree, chain) && chain[0] == from && chain[|chain| - 1] == t
  }

  /** Some file that is no test module reaches `t`, which makes a change of it a full run. */
  ghost predicate Shared(tools: Tools, tree: Tree, t: string) {
    exists h :: Reaches(tools, tree, h, t) && !IsTestModule(h)
  }

  /** A test module whose change alone does not force a full run. */
  predicate Selectable(tree: Tree, t: string) {
    t in tree && TestTree(t) && IsTestModule(t) && !IsConftest(t)
  }

  /** Whatever test module this file really depends on, the selector sees the way to it, or
      sees it shared. */
  ghost predicate Bridged(tools: Tools, tree: Tree, own: string) {
    forall t | Selectable(tree, t) && DependsOn(tools, tree, own, t) ::
      Reaches(tools, tree, own, t) || Shared(tools, tree, t)
  }

  lemma ReachesItself(tools: Tools, tree: Tree, t: string)
    ensures Reaches(tools, tree, t, t)
  {
    assert ImportChain(tools, tree, [t]);
  }

  lemma ReachesFurther(tools: Tools, tree: Tree, from: string, next: string, t: string)
    requires Imports(tools, tree, from, next) && Reaches(tools, tree, next, t)
    ensures Reaches(tools, tree, from, t)
  {
    hide Imports;
    var chain :| ImportChain(tools, tree, chain) && chain[0] == next && chain[|chain| - 1] == t;
    var longer := [from] + chain;
    forall k | 0 <= k < |longer| - 1
      ensures Imports(tools, tree, longer[k], longer[k + 1])
    {
      if k > 0 {
        assert longer[k] == chain[k - 1] && longer[k + 1] == chain[k];
      }
    }
    assert ImportChain(tools, tree, longer);
  }

  /** Every import that runs a test module is one the selector follows. */
  ghost predicate AllFollowed(tools: Tools, tree: Tree) {
    forall from, st, t |
      from in tree && TestTree(from) && st in tools.statements(tree[from]) && t in tree && IsTestModule(t)
      && Loads(tools, tree, from, st, t) ::
      FollowedForm(from, st, t)
  }

  lemma RealIsFollowed(tools: Tools, tree: Tree, from: string, t: string)
    requires AllFollowed(tools, tree) && Really(tools, tree, from, t) && IsTestModule(t)
    ensures Imports(tools, tree, from, t)
  {
    hide IsTestModule, TestTree, Loads, Followed, FollowedForm, Dir, BaseName;
    if Ambient(tree, from, t) {
      AmbientIsNoTest(t);
    } else {
      var st :| st in tools.statements(tree[from]) && Loads(tools, tree, from, st, t);
      FollowedExactly(tools, tree, from, st, t);
    }
  }

  lemma {:induction false} RealChainIsSeen(tools: Tools, tree: Tree, chain: seq<string>)
    requires AllFollowed(tools, tree) && RealChain(tools, tree, chain)
    ensures Reaches(tools, tree, chain[0], chain[|chain| - 1]) || Shared(tools, tree, chain[|chain| - 1])
    decreases |chain|
  {
    hide Really, Imports, Reaches, AllFollowed, IsTestModule;
    var t := chain[|chain| - 1];
    if |chain| == 1 {
      ReachesItself(tools, tree, t);
    } else {
      var rest := chain[1..];
      forall k | 0 <= k < |rest| - 1
        ensures Really(tools, tree, rest[k], rest[k + 1])
      {
        assert rest[k] == chain[k + 1] && rest[k + 1] == chain[k + 2];
      }
      RealChainIsSeen(tools, tree, rest);
      if Reaches(tools, tree, chain[1], t) && IsTestModule(chain[1]) {
        RealIsFollowed(tools, tree, chain[0], chain[1]);
        ReachesFurther(tools, tree, chain[0], chain[1], t);
      }
    }
  }

  /** In a tree that keeps to the followed forms every file is bridged. */
  lemma FollowedFormsBridge(tools: Tools, tree: Tree, own: string)
    requires AllFollowed(tools, tree)
    ensures Bridged(tools, tree, own)
  {
    hide Really, Reaches, Shared, AllFollowed, Selectable;
    forall t | Selectable(tree, t) && DependsOn(tools, tree, own, t)
      ensures Reaches(tools, tree, own, t) || Shared(tools, tree, t)
    {
      var chain :| RealChain(tools, tree, chain) && chain[0] == own && chain[|chain| - 1] == t;
      RealChainIsSeen(tools, tree, chain);
    }
  }
}
