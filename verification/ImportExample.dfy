/** Two imports the selector does not follow, each with a narrow plan that leaves out a test
    whose imported module changed. */
module ImportExample {
  import opened Manifests
  import opened AffectedTests
  import opened TestImports
  import opened AffectedPlan

  // ---- paths ------------------------------------------------------------------------

  lemma {:induction false} DirOf(dir: string, name: string)
    requires '/' !in name
    ensures Dir(dir + "/" + name) == dir
    decreases |name|
  {
    var path := dir + "/" + name;
    assert path[|dir|] == '/';
    if name == [] {
      assert path[|path| - 1] == '/' && path[..|path| - 1] == dir;
    } else {
      var shorter := name[..|name| - 1];
      assert name == shorter + [name[|name| - 1]];
      assert path[|path| - 1] == name[|name| - 1];
      assert path[..|path| - 1] == dir + "/" + shorter;
      DirOf(dir, shorter);
    }
  }

  lemma {:induction false} NoColonNoId(path: string)
    requires ':' !in path
    ensures FileOf(path) == path
    decreases |path|
  {
    if path != [] {
      NoColonNoId(path[1..]);
      assert path == [path[0]] + path[1..];
      assert path[0] in path;
    }
  }

  function ModulePath(dir: string, stem: string): string {
    dir + "/" + stem + ".py"
  }

  lemma {:induction false} FileOfTest(own: string, name: string)
    requires FileOf(own) == own && (own == [] || own[|own| - 1] != ':')
    ensures FileOf(own + "::" + name) == own
    decreases |own|
  {
    var node := own + "::" + name;
    if own == [] {
      assert node[..2] == "::";
    } else {
      assert own == [own[0]] + own[1..];
      assert node[1..] == own[1..] + "::" + name;
      FileOfTest(own[1..], name);
    }
  }

  predicate NoDunder(dir: string) {
    forall k | 0 <= k < |dir| - 1 :: dir[k] != '_' || dir[k + 1] != '_'
  }

  lemma NoCacheDir(dir: string, stem: string)
    requires NoDunder(dir) && '/' !in stem
    ensures !InCacheDir(ModulePath(dir, stem))
  {
    var path := ModulePath(dir, stem);
    assert path == dir + ("/" + (stem + ".py"));
    assert forall k | |dir| < k < |path| :: path[k] == (stem + ".py")[k - |dir| - 1] && path[k] != '/';
    assert "__pycache__"[0] == '_' && "__pycache__"[1] == '_';
    forall i, j | 0 <= i <= j < |path| && path[j] == '/'
      ensures path[i..j] != "__pycache__"
    {
      assert j <= |dir|;
      assert i + 1 < j ==> path[i..j][0] == path[i] == dir[i] && path[i..j][1] == path[i + 1] == dir[i + 1];
    }
  }

  /** A test module by its directory and name. */
  lemma IsTest(dir: string, stem: string)
    requires dir == "tests" || "tests/" <= dir
    requires NoDunder(dir) && ':' !in dir && '/' !in stem && ':' !in stem
    requires "test_" <= stem && stem[|stem| - 1] != 't'
    ensures
      var path := ModulePath(dir, stem);
      IsTestModule(path) && TestTree(path) && !IsConftest(path) && FileOf(path) == path && Dir(path) == dir
  {
    hide FileOf, Dir, InCacheDir, BaseName;
    var path := ModulePath(dir, stem);
    var name := stem + ".py";
    assert path == dir + "/" + name;
    BaseNameOf(dir, name);
    DirOf(dir, name);
    NoColonNoId(path);
    NoCacheDir(dir, stem);
    assert path[|path| - 3..] == ".py" && name[|name| - 3..] == ".py";
    assert path[|path| - 4] == stem[|stem| - 1] && "conftest.py"[7] == 't';
    assert |path| >= 11 ==> path[|path| - 11..][7] == path[|path| - 4];
  }

  /** No import is seen to name `t`, so only `t` reaches it. */
  lemma NothingLeads(tools: Tools, tree: Tree, t: string)
    requires IsTestModule(t) && forall from :: !Imports(tools, tree, from, t)
    ensures forall f :: Reaches(tools, tree, f, t) ==> f == t
    ensures !Shared(tools, tree, t)
  {
    hide Imports, IsTestModule;
    forall f | Reaches(tools, tree, f, t)
      ensures f == t
    {
      var chain :| ImportChain(tools, tree, chain) && chain[0] == f && chain[|chain| - 1] == t;
      if |chain| > 1 {
        LastEdge(tools, tree, chain, t);
      }
    }
  }

  lemma LastEdge(tools: Tools, tree: Tree, chain: seq<string>, t: string)
    requires ImportChain(tools, tree, chain) && |chain| > 1 && chain[|chain| - 1] == t
    ensures exists from :: Imports(tools, tree, from, t)
  {
    hide Imports;
    assert Imports(tools, tree, chain[|chain| - 2], chain[|chain| - 1]);
  }

  lemma RunsIsDependence(tools: Tools, tree: Tree, own: string, t: string)
    requires Really(tools, tree, own, t)
    ensures DependsOn(tools, tree, own, t)
  {
    hide Really;
    assert RealChain(tools, tree, [own, t]);
  }

  /** What the examples conclude: `own` really runs `t` and is not bridged, and a narrow plan
      leaves its only recorded test out although `t` has changed. */
  ghost predicate LosesTest(tools: Tools, past: Tree, own: string, t: string, i: Input, plan: Plan) {
    && DependsOn(tools, past, own, t) && !Bridged(tools, past, own)
    && Recorded(tools, i, past, map[], p => true) && WellIndexed(i.rec) && IsPlan(tools, i, plan)
    && |i.rec.nodes| == 1 && FileOf(i.rec.nodes[0]) == own && own in i.now && Unselected(plan, i.rec.nodes[0])
    && At(past, t) != At(i.now, t)
  }

  lemma Loses(tools: Tools, past: Tree, src: string, own: string, t: string, name: string)
    returns (i: Input, plan: Plan)
    requires FaithfulDigest(tools) && CoveredFile(past, src) && own in past && own != t
    requires FileOf(own + "::" + name) == own && Selectable(past, t)
    requires Really(tools, past, own, t) && forall from :: !Imports(tools, past, from, t)
    ensures LosesTest(tools, past, own, t, i, plan)
  {
    hide Really, Imports, FaithfulDigest, Recorded, IsPlan, FileOf, Unselected;
    RunsIsDependence(tools, past, own, t);
    NothingLeads(tools, past, t);
    var node := own + "::" + name;
    i, plan := MissedImportIsUnsafe(tools, past, src, [node], t, node);
  }

  // ---- a name taken from a one-dot module ----------------------------------------------

  /** The bytes of an ASCII text. */
  function Text(s: string): (b: Bytes)
    ensures |b| == |s|
  {
    seq(|s|, k requires 0 <= k < |s| => if s[k] < 128 as char then s[k] as int else 63)
  }

  /** A source file that the recorded test executed. */
  const SOURCE := ModulePath("src/mind_meld", "core")

  const CODE := Text("def ready():\n    return True\n")

  lemma SourceIsCovered(past: Tree)
    requires SOURCE in past
    ensures CoveredFile(past, SOURCE)
  {
    NoCacheDir("src/mind_meld", "core");
    assert SOURCE == "src/mind_meld/core.py";
  }

  const TESTS := "tests"
  const BENCHMARKS := "tests/benchmarks"
  const TEST_X := ModulePath(TESTS, "test_x")
  const TEST_KDF := ModulePath(BENCHMARKS, "test_kdf_timing")

  /** `tests/test_x.py` says `from .benchmarks import test_kdf_timing`. */
  const ONE_DOT: Tree := map[TEST_X := ONE_DOT_TEXT, TEST_KDF := [], Init(BENCHMARKS) := [], SOURCE := CODE]

  const ONE_DOT_TEXT := Text("from .benchmarks import test_kdf_timing\n\n\ndef test_x():\n    pass\n")

  const FROM_BENCHMARKS := FromImport(1, ["benchmarks"], {"test_kdf_timing"})

  predicate SaysOneDot(tools: Tools) {
    && tools.statements(ONE_DOT_TEXT) == {FROM_BENCHMARKS}
    && tools.statements(CODE) == {} && tools.statements([]) == {}
  }

  lemma OneDotNameIsMissed(tools: Tools) returns (i: Input, plan: Plan)
    requires FaithfulDigest(tools) && SaysOneDot(tools)
    ensures LosesTest(tools, ONE_DOT, TEST_X, TEST_KDF, i, plan)
  {
    hide FaithfulDigest, LosesTest, IsTestModule, TestTree, IsConftest, FileOf, Dir, Really, CoveredFile,
      Text;
    IsTest(TESTS, "test_x");
    IsTest(BENCHMARKS, "test_kdf_timing");
    OneDotTree();
    OneDotRuns(tools);
    OneDotUnseen(tools);
    SourceIsCovered(ONE_DOT);
    FileOfTest(TEST_X, "test_x");
    i, plan := Loses(tools, ONE_DOT, SOURCE, TEST_X, TEST_KDF, "test_x");
  }

  lemma OneDotTree()
    ensures TEST_X in ONE_DOT && TEST_KDF in ONE_DOT && Init(BENCHMARKS) in ONE_DOT && TEST_X != TEST_KDF
    ensures SOURCE in ONE_DOT && ONE_DOT[SOURCE] == CODE
    ensures ONE_DOT[TEST_X] == ONE_DOT_TEXT && ONE_DOT[TEST_KDF] == [] && ONE_DOT[Init(BENCHMARKS)] == []
    ensures ONE_DOT.Keys == {TEST_X, TEST_KDF, Init(BENCHMARKS), SOURCE}
    ensures Init(BENCHMARKS + "/" + "test_kdf_timing") !in ONE_DOT
  {
    assert |TEST_X| == 15 && |TEST_KDF| == 35 && |Init(BENCHMARKS)| == 28 && |SOURCE| == 21;
    assert |Init(BENCHMARKS + "/" + "test_kdf_timing")| == 44;
  }

  lemma BelowTests()
    ensures TESTS + "/" + "benchmarks" == BENCHMARKS
  {
  }

  lemma OneDotRuns(tools: Tools)
    requires SaysOneDot(tools) && Dir(TEST_X) == TESTS && TestTree(TEST_X)
    ensures Really(tools, ONE_DOT, TEST_X, TEST_KDF)
  {
    hide TestTree, Dir, BaseName, TESTS, BENCHMARKS, Init, ONE_DOT, Ambient;
    OneDotTree();
    BelowTests();
    assert Slashed(["benchmarks"]) == "benchmarks";
    assert Base(TESTS, 1, ["benchmarks"]) == Some(BENCHMARKS);
    assert TEST_KDF in ModuleFile(ONE_DOT, BENCHMARKS + "/" + "test_kdf_timing");
    PackageNotModule();
    assert TEST_KDF in Submodules(tools, ONE_DOT, BENCHMARKS, {"test_kdf_timing"});
    assert Loads(tools, ONE_DOT, TEST_X, FROM_BENCHMARKS, TEST_KDF);
  }

  lemma PackageNotModule()
    ensures BENCHMARKS + ".py" !in ModuleFile(ONE_DOT, BENCHMARKS)
  {
    hide ONE_DOT;
    OneDotTree();
    assert |BENCHMARKS + ".py"| != |Init(BENCHMARKS)|;
  }

  lemma OneDotUnseen(tools: Tools)
    requires SaysOneDot(tools) && Dir(TEST_X) == TESTS
    ensures forall from :: !Imports(tools, ONE_DOT, from, TEST_KDF)
  {
    hide TestTree, Dir, ONE_DOT, BaseName;
    OneDotTree();
    BelowTests();
    assert Slashed(["benchmarks"]) == "benchmarks";
    assert Followed(TESTS, FROM_BENCHMARKS) == {BENCHMARKS + ".py"};
    assert |BENCHMARKS + ".py"| != |TEST_KDF|;
  }

  // ---- two dots ----------------------------------------------------------------------------

  const TEST_Y := ModulePath(BENCHMARKS, "test_y")

  /** `tests/benchmarks/test_y.py` says `from ..test_x import helper`. */
  const TWO_DOTS: Tree := map[TEST_Y := TWO_DOTS_TEXT, TEST_X := HELPER, SOURCE := CODE]

  const TWO_DOTS_TEXT := Text("from ..test_x import helper\n\n\ndef test_y():\n    helper()\n")

  const HELPER := Text("def helper():\n    pass\n")

  const FROM_TEST_X := FromImport(2, ["test_x"], {"helper"})

  predicate SaysTwoDots(tools: Tools) {
    && tools.statements(TWO_DOTS_TEXT) == {FROM_TEST_X}
    && tools.statements(HELPER) == {} && tools.statements(CODE) == {}
  }

  lemma TwoDotsAreMissed(tools: Tools) returns (i: Input, plan: Plan)
    requires FaithfulDigest(tools) && SaysTwoDots(tools)
    ensures LosesTest(tools, TWO_DOTS, TEST_Y, TEST_X, i, plan)
  {
    hide FaithfulDigest, LosesTest, IsTestModule, TestTree, IsConftest, FileOf, Dir, Really, CoveredFile,
      Text;
    IsTest(TESTS, "test_x");
    IsTest(BENCHMARKS, "test_y");
    TwoDotsTree();
    TwoDotsRun(tools);
    assert forall from :: !Imports(tools, TWO_DOTS, from, TEST_X) by {
      assert Followed(Dir(TEST_Y), FROM_TEST_X) == {};
    }
    SourceIsCovered(TWO_DOTS);
    FileOfTest(TEST_Y, "test_y");
    i, plan := Loses(tools, TWO_DOTS, SOURCE, TEST_Y, TEST_X, "test_y");
  }

  lemma TwoDotsTree()
    ensures TEST_X in TWO_DOTS && TEST_Y in TWO_DOTS && SOURCE in TWO_DOTS && TEST_X != TEST_Y
    ensures TWO_DOTS.Keys == {TEST_X, TEST_Y, SOURCE}
    ensures TWO_DOTS[TEST_Y] == TWO_DOTS_TEXT && TWO_DOTS[TEST_X] == HELPER && TWO_DOTS[SOURCE] == CODE
    ensures Init(TESTS + "/" + "test_x") !in TWO_DOTS
  {
    assert |TEST_X| == 15 && |TEST_Y| == 26 && |SOURCE| == 21 && |Init(TESTS + "/" + "test_x")| == 24;
  }

  lemma TwoDotsRun(tools: Tools)
    requires SaysTwoDots(tools) && Dir(TEST_Y) == BENCHMARKS && TestTree(TEST_Y)
    ensures Really(tools, TWO_DOTS, TEST_Y, TEST_X)
  {
    hide TestTree, BaseName, Dir, TESTS, BENCHMARKS, Init, TWO_DOTS, Ambient;
    TwoDotsTree();
    OneUp();
    assert Slashed(["test_x"]) == "test_x";
    assert Base(BENCHMARKS, 2, ["test_x"]) == Some(TESTS + "/" + "test_x");
    assert TEST_X in ModuleFile(TWO_DOTS, TESTS + "/" + "test_x");
    assert Loads(tools, TWO_DOTS, TEST_Y, FROM_TEST_X, TEST_X);
  }

  lemma OneUp()
    ensures Up(BENCHMARKS, 1) == Some(TESTS)
  {
    hide Dir;
    BelowTests();
    DirOf(TESTS, "benchmarks");
    assert BENCHMARKS[5] == '/';
    assert Up(TESTS, 0) == Some(TESTS);
  }
}
