/** The path helpers of shared/utils/path_utils.py: containment tests over
    absolute paths, splitting a path and taking its extension. The working
    directory that `os.path.abspath` consults is a parameter. */
module PathUtils {

  import S = PyStrings
  import opened OsPath

  /** `normalize_path(path)`: `os.path.normpath`. The result is a fixed
      point, keeps the path absolute or relative, and holds no two
      separators in a row except an initial pair. */
  function NormalizePath(path: string): (r: string)
    ensures Normpath(r) == r
    ensures IsAbs(r) <==> IsAbs(path)
    ensures NoDoubleSepAfterRoot(r)
  {
    NormpathIdempotent(path);
    NormpathShape(path);
    Normpath(path)
  }

  /** `is_subpath(path, parent)`: the absolute form of `path` starts with the
      absolute form of `parent`, as strings. */
  predicate IsSubpath(path: string, parent: string, cwd: string) {
    S.StartsWith(Abspath(path, cwd), Abspath(parent, cwd))
  }

  /** Every path is a subpath of itself. */
  lemma SubpathReflexive(p: string, cwd: string)
    ensures IsSubpath(p, p, cwd)
  {
  }

  /** Being a subpath is transitive. */
  lemma SubpathTransitive(a: string, b: string, c: string, cwd: string)
    requires IsSubpath(a, b, cwd) && IsSubpath(b, c, cwd)
    ensures IsSubpath(a, c, cwd)
  {
    var x, y, z := Abspath(a, cwd), Abspath(b, cwd), Abspath(c, cwd);
    assert x[..|z|] == y[..|z|];
  }

  /** `is_safe_path(path, base_dir)`: `is_subpath` of the two absolute forms. */
  predicate IsSafePath(path: string, baseDir: string, cwd: string) {
    IsSubpath(Abspath(path, cwd), Abspath(baseDir, cwd), cwd)
  }

  /** With an absolute working directory, making the paths absolute first
      changes nothing: `is_safe_path` is `is_subpath`. */
  lemma SafeIffSubpath(path: string, baseDir: string, cwd: string)
    requires IsAbs(cwd)
    ensures IsSafePath(path, baseDir, cwd) <==> IsSubpath(path, baseDir, cwd)
  {
    AbspathIdempotent(path, cwd);
    AbspathIdempotent(baseDir, cwd);
  }

  /** The prefix test ignores component boundaries: `/a/bc` is counted as
      inside `/a/b`, whatever the working directory, though it is a sibling
      of it. */
  lemma SiblingCountedAsSubpath(x: string, y: string, z: string, cwd: string)
    requires Plain(x) && Plain(y) && x != ".." && y != ".."
    requires z != "" && Sep !in z
    ensures IsSubpath("/" + x + "/" + y + z, "/" + x + "/" + y, cwd)
    ensures !IsWithin("/" + x + "/" + y + z, "/" + x + "/" + y, cwd)
  {
    var a, b := "/" + x + "/" + y + z, "/" + x + "/" + y;
    assert Plain(y + z) && y + z != ".." by {
      assert |y + z| >= 2 && (y + z)[0] == y[0];
      assert (y + z)[..|y|] == y;
    }
    RootedFixed(x, y + z);
    assert "/" + x + "/" + (y + z) == a;
    AbsolutePathKept(a, cwd);
    RootedFixed(x, y);
    AbsolutePathKept(b, cwd);
    assert a == b + z;
    assert a[|b|] == z[0] && b[|b| - 1] == y[|y| - 1];
  }

  /** The separator-joined form of a root and two components. */
  lemma RejoinedTwo(x: string, y: string)
    ensures Rejoined(1, [x, y]) == "/" + x + "/" + y
  {
    var j := S.Join([x, y], [Sep]);
    JoinCons(x, [y]);
    assert [x] + [y] == [x, y];
    assert "//"[..1] == "/";
    assert "/" + x + "/" + y == "/" + j;
  }

  /** A root and two plain components are already normalised. */
  lemma RootedFixed(x: string, y: string)
    requires Plain(x) && Plain(y) && x != ".." && y != ".."
    ensures Normpath("/" + x + "/" + y) == "/" + x + "/" + y
  {
    assert Collapsed([x, y], true);
    NormalFixed(1, [x, y]);
    RejoinedTwo(x, y);
  }

  /** A root and one plain component are already normalised. */
  lemma RootedOne(x: string)
    requires Plain(x) && x != ".."
    ensures Normpath("/" + x) == "/" + x
  {
    assert Collapsed([x], true);
    NormalFixed(1, [x]);
    assert "//"[..1] == "/";
    assert Rejoined(1, [x]) == "/" + x;
  }

  /** `abspath` of an absolute path is its `normpath`. */
  lemma AbsolutePathKept(p: string, cwd: string)
    requires |p| > 0 && p[0] == Sep
    ensures Abspath(p, cwd) == Normpath(p)
  {
    assert p[..1] == [Sep];
  }

  /** Traversal out of the base directory is caught, whatever the working
      directory: the absolute form of `/d/../x/y` (`/base/../etc/passwd`,
      say) is `/x/y`, which is not inside `/d` when `x` and `d` start
      differently. */
  lemma TraversalRejected(d: string, x: string, y: string, cwd: string)
    requires Plain(d) && Plain(x) && Plain(y) && d != ".." && x != ".." && y != ".."
    requires d[0] != x[0]
    ensures Abspath("/" + d + "/../" + x + "/" + y, cwd) == "/" + x + "/" + y
    ensures !IsSafePath("/" + d + "/../" + x + "/" + y, "/" + d, cwd)
  {
    var p, a, b := "/" + d + "/../" + x + "/" + y, "/" + x + "/" + y, "/" + d;
    ParentCollapses(d, x, y);
    AbsolutePathKept(p, cwd);
    RootedFixed(x, y);
    AbsolutePathKept(a, cwd);
    RootedOne(d);
    AbsolutePathKept(b, cwd);
    assert a[1] == x[0] && b[1] == d[0];
  }

  /** A `..` after a directory under the root removes that directory. */
  lemma ParentCollapses(d: string, x: string, y: string)
    requires Plain(d) && Plain(x) && Plain(y) && d != ".." && x != ".." && y != ".."
    ensures Normpath("/" + d + "/../" + x + "/" + y) == "/" + x + "/" + y
  {
    var cs := [d, "..", x, y];
    ParentJoin(d, x, y);
    NormpathOfJoin(cs, true);
    assert Collapse(cs, true, []) == [x, y] by {
      assert CollapseStep([], d, true) == [d];
      assert CollapseStep([d], "..", true) == [];
      assert CollapseStep([], x, true) == [x];
      assert CollapseStep([x], y, true) == [x, y];
      assert Collapse(cs[3..], true, [x]) == [x, y];
      assert Collapse(cs[2..], true, []) == [x, y];
      assert Collapse(cs[1..], true, [d]) == [x, y];
    }
    RejoinedTwo(x, y);
  }

  lemma ParentJoin(d: string, x: string, y: string)
    ensures [Sep] + S.Join([d, "..", x, y], [Sep]) == "/" + d + "/../" + x + "/" + y
  {
    var cs := [d, "..", x, y];
    JoinCons(x, [y]);
    assert [x] + [y] == cs[2..];
    JoinCons("..", cs[2..]);
    assert [".."] + cs[2..] == cs[1..];
    JoinCons(d, cs[1..]);
    assert [d] + cs[1..] == cs;
  }

  /** `path` lies in the tree rooted at `parent`: it starts with `parent` and
      either is `parent`, continues with a separator, or `parent` itself ends
      with one (the root). */
  predicate Within(path: string, parent: string) {
    S.StartsWith(path, parent) &&
    (|path| == |parent| || path[|parent|] == Sep || (parent != "" && parent[|parent| - 1] == Sep))
  }

  /** The containment test `is_subpath` evidently intends, over absolute forms. */
  predicate IsWithin(path: string, parent: string, cwd: string) {
    Within(Abspath(path, cwd), Abspath(parent, cwd))
  }

  /** The components of a path, `p.split('/')`. */
  function Components(p: string): (r: seq<string>)
    ensures |r| >= 1
  {
    S.Split(p, [Sep])
  }

  /** For a parent that does not end with a separator (every normalised path
      but the root), `Within` holds exactly when the parent's components are
      the first components of the path. */
  lemma WithinIffComponentPrefix(path: string, parent: string)
    requires parent != "" && parent[|parent| - 1] != Sep
    ensures Within(path, parent) <==>
      |Components(parent)| <= |Components(path)| &&
      Components(path)[..|Components(parent)|] == Components(parent)
  {
    if Within(path, parent) {
      ComponentsOfWithin(path, parent);
    }
    var cp, cq := Components(parent), Components(path);
    if |cp| <= |cq| && cq[..|cp|] == cp {
      WithinOfComponents(path, parent);
    }
  }

  lemma ComponentsOfWithin(path: string, parent: string)
    requires parent != "" && parent[|parent| - 1] != Sep
    requires Within(path, parent)
    ensures |Components(parent)| <= |Components(path)|
    ensures Components(path)[..|Components(parent)|] == Components(parent)
  {
    if |path| > |parent| {
      var q := path[|parent| + 1..];
      assert path == parent + [Sep] + q;
      S.SplitCharConcat(parent, Sep, q);
    } else {
      assert path == parent;
    }
  }

  lemma WithinOfComponents(path: string, parent: string)
    requires |Components(parent)| <= |Components(path)|
    requires Components(path)[..|Components(parent)|] == Components(parent)
    ensures Within(path, parent)
  {
    var cp, cq := Components(parent), Components(path);
    S.JoinSplit(path, [Sep]);
    S.JoinSplit(parent, [Sep]);
    var rest := cq[|cp|..];
    assert cq == cp + rest;
    if rest != [] {
      S.JoinConcat(cp, rest, [Sep]);
      assert path == parent + [Sep] + S.Join(rest, [Sep]);
      assert path[..|parent|] == parent;
    } else {
      assert cq == cp;
    }
  }

  /** The corrected test only accepts what the prefix test accepts. */
  lemma WithinIsSubpath(path: string, parent: string, cwd: string)
    requires IsWithin(path, parent, cwd)
    ensures IsSubpath(path, parent, cwd)
  {
  }

  /** The corrected test is reflexive and transitive too. */
  lemma WithinPreorder(a: string, b: string, c: string)
    ensures Within(a, a)
    ensures Within(a, b) && Within(b, c) ==> Within(a, c)
  {
    if Within(a, b) && Within(b, c) {
      assert a[..|c|] == b[..|c|];
      if |a| > |c| && |b| > |c| {
        assert a[|c|] == b[|c|];
      }
    }
  }

  /** `split_path(path)`: `os.path.split` of the normalised path. The tail
      holds no separator and ends the normalised path, and the head begins
      it. */
  function SplitPath(path: string): (r: (string, string))
    ensures var q := NormalizePath(path);
      Sep !in r.1 && |r.1| <= |q| && q[|q| - |r.1|..] == r.1 &&
      |r.0| <= |q| && q[..|r.0|] == r.0
  {
    Split(NormalizePath(path))
  }

  /** Joining the two halves of `split_path` gives the normalised path. */
  lemma SplitPathRoundTrip(path: string)
    ensures Join(SplitPath(path).0, SplitPath(path).1) == NormalizePath(path)
  {
    JoinSplit(NormalizePath(path));
  }

  /** `split_path` normalises first: `x/./y/` splits as `x` and `y`. */
  lemma SplitPathNormalises(x: string, y: string)
    requires Plain(x) && Plain(y) && x != ".." && y != ".."
    ensures SplitPath(x + "/./" + y + "/") == (x, y)
  {
    CurrentDirCollapses(x, y);
    assert x[|x| - 1] != Sep;
    DirnameOfChild(x, y);
    assert y[..1] != [Sep];
    assert Join(x, y) == x + "/" + y;
  }

  /** `.` components and a trailing separator are dropped from a relative
      path. */
  lemma CurrentDirCollapses(x: string, y: string)
    requires Plain(x) && Plain(y) && x != ".." && y != ".."
    ensures Normpath(x + "/./" + y + "/") == x + "/" + y
  {
    var cs := [x, ".", y, ""];
    JoinCons(y, [""]);
    assert [y] + [""] == cs[2..];
    JoinCons(".", cs[2..]);
    assert ["."] + cs[2..] == cs[1..];
    JoinCons(x, cs[1..]);
    assert [x] + cs[1..] == cs;
    assert S.Join(cs, [Sep]) == x + "/./" + y + "/";
    NormpathOfJoin(cs, false);
    assert Collapse(cs, false, []) == [x, y] by {
      assert CollapseStep([], x, false) == [x];
      assert CollapseStep([x], ".", false) == [x];
      assert CollapseStep([x], y, false) == [x, y];
      assert CollapseStep([x, y], "", false) == [x, y];
      assert Collapse(cs[3..], false, [x, y]) == [x, y];
      assert Collapse(cs[2..], false, [x]) == [x, y];
      assert Collapse(cs[1..], false, [x]) == [x, y];
    }
    JoinCons(x, [y]);
    assert [x] + [y] == [x, y];
    assert "//"[..0] == "";
    assert Rejoined(0, [x, y]) == x + "/" + y;
  }

  /** `get_file_extension(path)`: either empty or a suffix of the path that
      starts with its only dot and holds no separator. */
  function GetFileExtension(path: string): (e: string)
    ensures e == "" || (e[0] == '.' && '.' !in e[1..] && Sep !in e)
    ensures |e| <= |path| && path[|path| - |e|..] == e
  {
    SplitExt(path).1
  }

  /** A name with an extension gives that extension back. */
  lemma ExtensionOfName(base: string, ext: string)
    requires base != "" && base[|base| - 1] != '.' && base[|base| - 1] != Sep
    requires '.' !in ext && Sep !in ext
    ensures GetFileExtension(base + "." + ext) == "." + ext
  {
    SplitExtOfJoined(base, ext);
  }
}
