/** What a recorded run and the selector's path tests say, in terms of the parts, the worktree
    and the text of the paths alone. */
module RecordMeaning {
  import opened Manifests
  import opened AffectedTests
  import opened TestImports

  // ---- paths ------------------------------------------------------------------------

  /** A path ends in this last segment: what is before it is empty or ends with a slash. */
  ghost predicate Splits(path: string, dir: string, name: string) {
    path == dir + name && '/' !in name && (dir == "" || dir[|dir| - 1] == '/')
  }

  lemma LastSegment(path: string, dir: string, name: string)
    requires Splits(path, dir, name)
    ensures BaseName(path) == name
  {
    if dir != "" {
      var above := dir[..|dir| - 1];
      assert path == above + "/" + name;
      BaseNameOf(above, name);
    }
  }

  /** Test modules: under `tests/`, with a last segment `test_*.py` or `*_test.py`. */
  lemma TestModulesExactly(path: string, dir: string, name: string)
    requires Splits(path, dir, name)
    ensures IsTestModule(path) <==>
      && "tests/" <= path && (exists stem :: name == stem + ".py")
      && ("test_" <= name || exists stem :: name == stem + "_test.py")
  {
    hide BaseName;
    LastSegment(path, dir, name);
    EndsExactly(name, ".py");
    EndsExactly(name, "_test.py");
  }

  lemma EndsExactly(s: string, suffix: string)
    ensures EndsWith(s, suffix) <==> exists stem :: s == stem + suffix
  {
    if EndsWith(s, suffix) {
      assert s == s[..|s| - |suffix|] + suffix;
    }
    if stem :| s == stem + suffix {
      assert s[|s| - |suffix|..] == suffix;
    }
  }

  /** One of the path's directories, the one after `above`, has this name. */
  ghost predicate Passes(path: string, above: string, name: string, below: string) {
    path == above + name + "/" + below && (above == "" || above[|above| - 1] == '/')
  }

  /** A directory of the path is a Python cache. */
  ghost predicate BelowCache(path: string) {
    exists above, below :: Passes(path, above, "__pycache__", below)
  }

  lemma SegmentPasses(path: string, i: nat, j: nat, name: string)
    requires i <= j < |path| && (i == 0 || path[i - 1] == '/') && path[j] == '/' && path[i..j] == name
    ensures Passes(path, path[..i], name, path[j + 1..])
  {
    assert path == path[..i] + path[i..j] + [path[j]] + path[j + 1..];
  }

  lemma PassesSegment(path: string, above: string, name: string, below: string)
    requires Passes(path, above, name, below)
    ensures
      var i, j := |above|, |above| + |name|;
      j < |path| && (i == 0 || path[i - 1] == '/') && path[j] == '/' && path[i..j] == name
  {
  }

  lemma CacheDirExactly(path: string)
    ensures InCacheDir(path) <==> BelowCache(path)
  {
    hide Passes;
    if InCacheDir(path) {
      var i, j :| 0 <= i <= j < |path| && (i == 0 || path[i - 1] == '/') && path[j] == '/'
                  && path[i..j] == "__pycache__";
      SegmentPasses(path, i, j, "__pycache__");
    }
    if above, below :| Passes(path, above, "__pycache__", below) {
      PassesSegment(path, above, "__pycache__", below);
    }
  }

  /** The Python files the selector always looks at. */
  ghost predicate Watched(path: string) {
    && ("src/mind_meld/" <= path || "tests/" <= path || "bin/" <= path)
    && (exists stem :: path == stem + ".py") && !BelowCache(path)
  }

  lemma WatchedExactly(path: string)
    ensures InPython(path) <==> Watched(path)
  {
    hide InCacheDir, BelowCache, EndsWith;
    EndsExactly(path, ".py");
    CacheDirExactly(path);
  }

  predicate Colons(node: string, i: nat) {
    i + 1 < |node| && node[i] == ':' && node[i + 1] == ':'
  }

  /** The file of a test id is what is before the id's first "::", or all of an id without. */
  lemma {:induction false} FilePartExactly(node: string)
    ensures
      var k := |FileOf(node)|;
      && FileOf(node) <= node && (k == |node| || Colons(node, k))
      && forall i | 0 <= i < k :: !Colons(node, i)
    decreases |node|
  {
    if node != [] && !(|node| >= 2 && node[..2] == "::") {
      var rest := node[1..];
      FilePartExactly(rest);
      assert node == [node[0]] + rest;
      assert |node| >= 2 ==> node[..2] == [node[0], node[1]];
      forall i | 0 <= i < |FileOf(node)|
        ensures !Colons(node, i)
      {
        if i > 0 {
          assert !Colons(rest, i - 1);
        }
      }
    }
  }

  // ---- the record ----------------------------------------------------------------------

  /** The files a run records: what is there of the watched and configuration files, and every
      changed path outside the selection directory; a path that is not there is recorded as
      missing, and only a source file that is there has a skeleton. */
  lemma RecordsExactly(tools: Tools, tree: Tree, changed: Changes, path: string)
    ensures path in FilesOf(tools, tree, changed) <==>
      || (path in tree && (Watched(path) || path in {"pyproject.toml", "bin/check", "bin/_check.py"}))
      || (path in changed && !(".mm-test-selection/" <= path))
    ensures path in FilesOf(tools, tree, changed) && path !in tree ==>
      FilesOf(tools, tree, changed)[path] == FileEntry("missing", None)
    ensures path in FilesOf(tools, tree, changed) && path in tree ==>
      FilesOf(tools, tree, changed)[path]
      == FileEntry(tools.sha(tree[path]), if "src/mind_meld/" <= path then tools.skel(tree[path]) else None)
  {
    hide InPython, Watched;
    WatchedExactly(path);
  }

  /** A record is refused exactly when there is no part, some part was filtered, the first part
      collected nothing, or some part collected other tests than the first. */
  lemma RefusedExactly(parts: seq<Part>)
    ensures MergedNodes(parts).None? <==>
      || parts == [] || parts[0].collected == []
      || exists part | part in parts ::
           part.filtered || (part.collected != [] && part.collected != parts[0].collected)
  {
    if part :| part in parts && part.filtered {
      var i :| 0 <= i < |parts| && parts[i] == part;
    }
    if part :| part in parts && part.collected != [] && part.collected != parts[0].collected {
      var i :| 0 <= i < |parts| && parts[i] == part;
    }
  }

  // ---- imports --------------------------------------------------------------------------

  /** A dotted module's path: its parts, one slash between any two. */
  lemma {:induction false} SlashedJoins(one: seq<string>, two: seq<string>, part: string)
    ensures Slashed([]) == "" && Slashed([part]) == part
    ensures one != [] && two != [] ==> Slashed(one + two) == Slashed(one) + "/" + Slashed(two)
    decreases |one|
  {
    if one != [] && two != [] {
      assert (one + two)[1..] == one[1..] + two;
      if |one| == 1 {
        assert one[1..] + two == two;
      } else {
        SlashedJoins(one[1..], two, part);
      }
    }
  }

  /** The files one statement of a file in `pkg` leads the selector to, name by name. */
  lemma NamesExactly(pkg: string, st: Import, t: string)
    ensures t in Followed(pkg, st) <==>
      match st
      case PlainImport(modules) =>
        exists m | m in modules :: "tests/" <= Slashed(m) && t == Slashed(m) + ".py"
      case FromImport(level, from, names) =>
        if from == [] then level == 1 && exists n | n in names :: t == pkg + "/" + n + ".py"
        else
          || (level == 1 && t == pkg + "/" + Slashed(from) + ".py")
          || (level == 0 && "tests" <= Slashed(from)
              && (t == Slashed(from) + ".py" || exists n | n in names :: t == Slashed(from) + "/" + n + ".py"))
  {
    hide Slashed;
  }
}
