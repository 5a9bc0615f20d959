/** The POSIX `os.path` functions the path helpers and the tools call:
    `split`, `dirname`, `join`, `splitext`, `isabs`, `normpath` and
    `abspath`. The separator is `/`. */
module OsPath {

  import S = PyStrings

  const Sep: char := '/'

  /** A string made only of separators. */
  predicate AllSeps(s: string) {
    forall i :: 0 <= i < |s| ==> s[i] == Sep
  }

  /** No two separators in a row. */
  predicate NoDoubleSep(p: string) {
    forall i :: 0 <= i < |p| - 1 ==> !(p[i] == Sep && p[i + 1] == Sep)
  }

  /** No two separators in a row after the first character, as in a
      normalised path, which may start with exactly two. */
  predicate NoDoubleSepAfterRoot(p: string) {
    forall i :: 1 <= i < |p| - 1 ==> !(p[i] == Sep && p[i + 1] == Sep)
  }

  /** `s.rstrip('/')`. */
  function RStripSep(s: string): (r: string)
    ensures |r| <= |s| && r == s[..|r|]
    ensures r != [] ==> r[|r| - 1] != Sep
    ensures forall i :: |r| <= i < |s| ==> s[i] == Sep
  {
    if |s| > 0 && s[|s| - 1] == Sep then RStripSep(s[..|s| - 1]) else s
  }

  /** `os.path.split(p)`: the tail is everything after the last separator;
      the head is what comes before it, with trailing separators removed
      unless the head is made only of separators. */
  function Split(p: string): (r: (string, string))
    ensures Sep !in r.1
    ensures |r.0| + |r.1| <= |p|
    ensures r.1 == p[|p| - |r.1|..]
    ensures r.0 == p[..|r.0|]
    ensures forall i :: |r.0| <= i < |p| - |r.1| ==> p[i] == Sep
    ensures r.0 == "" || AllSeps(r.0) || r.0[|r.0| - 1] != Sep
  {
    var i := S.RFindChar(p, Sep, |p|) + 1;
    var head, tail := p[..i], p[i..];
    if head != "" && !AllSeps(head) then (RStripSep(head), tail) else (head, tail)
  }

  /** `os.path.dirname(p)`. */
  function Dirname(p: string): string {
    Split(p).0
  }

  /** `os.path.join(a, b)`: an absolute `b` replaces `a`; otherwise one
      separator is put between them unless `a` is empty or already ends
      with one. */
  function Join(a: string, b: string): (r: string)
    ensures |b| <= |r| && r[|r| - |b|..] == b
    ensures !S.StartsWith(b, [Sep]) ==> S.StartsWith(r, a)
  {
    if S.StartsWith(b, [Sep]) then b
    else if a == "" || a[|a| - 1] == Sep then a + b
    else a + [Sep] + b
  }

  /** Splitting a normalised path and joining the two halves again gives
      the path back. */
  lemma JoinSplit(p: string)
    requires NoDoubleSepAfterRoot(p)
    ensures Join(Split(p).0, Split(p).1) == p
  {
    var i := S.RFindChar(p, Sep, |p|) + 1;
    var head, tail := p[..i], p[i..];
    assert p == head + tail;
    assert |tail| > 0 ==> tail[0] != Sep;
    if head != "" && !AllSeps(head) {
      StrippedHead(p, i);
      JoinAfterHead(RStripSep(head), tail);
    } else if head != "" {
      assert head[|head| - 1] == Sep;
    }
  }

  /** In a normalised path, stripping the separator off a head that ends with
      one, and holds something else, removes exactly that separator. */
  lemma StrippedHead(p: string, i: nat)
    requires NoDoubleSepAfterRoot(p)
    requires 0 < i <= |p| && p[i - 1] == Sep && !AllSeps(p[..i])
    ensures RStripSep(p[..i]) + [Sep] == p[..i]
    ensures RStripSep(p[..i]) != ""
  {
    var head := p[..i];
    var h := RStripSep(head);
    assert forall k :: |h| <= k < i ==> p[k] == Sep;
    assert h == "" ==> AllSeps(head);
    assert i >= 3 ==> !(p[i - 1] == Sep && p[i - 2] == Sep);
  }

  /** Joining a head that does not end with a separator to a tail without one
      puts exactly one separator between them. */
  lemma JoinAfterHead(h: string, tail: string)
    requires h != "" && h[|h| - 1] != Sep && Sep !in tail
    ensures Join(h, tail) == h + [Sep] + tail
  {
    if |tail| > 0 {
      assert tail[0] != Sep;
    }
  }

  /** The directory of a name joined to a directory is that directory, and
      the name is the tail. */
  lemma DirnameOfChild(d: string, n: string)
    requires d != "" && d[|d| - 1] != Sep && Sep !in n
    ensures Dirname(Join(d, n)) == d
    ensures Split(Join(d, n)) == (d, n)
  {
    var p := d + [Sep] + n;
    assert n != "" ==> n[0] != Sep;
    assert Join(d, n) == p;
    assert p[|d|] == Sep;
    forall j | |d| < j < |p| ensures p[j] != Sep {
      assert p[j] == n[j - |d| - 1];
    }
    var i := S.RFindChar(p, Sep, |p|);
    assert i == |d|;
    var head := p[..i + 1];
    assert head == d + [Sep];
    assert !AllSeps(head) by {
      assert head[|d| - 1] == d[|d| - 1];
    }
    assert RStripSep(head) == RStripSep(d);
  }

  /** `path[first:last]` holds only dots. */
  predicate AllDots(p: string, first: nat, last: nat)
    requires first <= last <= |p|
  {
    forall k :: first <= k < last ==> p[k] == '.'
  }

  /** `os.path.splitext(p)`: the extension runs from the last dot of the
      last component, provided that component has something other than
      dots before it; leading dots (as in `.bashrc`) do not start one. */
  function SplitExt(p: string): (r: (string, string))
    ensures r.0 + r.1 == p
    ensures r.1 == "" || (r.1[0] == '.' && '.' !in r.1[1..] && Sep !in r.1)
    ensures r.1 != "" ==> r.0 != "" && r.0[|r.0| - 1] != Sep
  {
    var sepIndex := S.RFindChar(p, Sep, |p|);
    var dotIndex := S.RFindChar(p, '.', |p|);
    if dotIndex > sepIndex && !AllDots(p, sepIndex + 1, dotIndex) then
      assert p[dotIndex..][1..] == p[dotIndex + 1..];
      (p[..dotIndex], p[dotIndex..])
    else
      (p, "")
  }

  /** A name that ends in something other than a dot or a separator, followed
      by `.e`, has extension `.e` and root the name. */
  lemma SplitExtOfJoined(base: string, e: string)
    requires base != "" && base[|base| - 1] != '.' && base[|base| - 1] != Sep
    requires '.' !in e && Sep !in e
    ensures SplitExt(base + "." + e) == (base, "." + e)
  {
    var p := base + "." + e;
    var n := |base|;
    assert p[n] == '.';
    assert forall j :: n < j < |p| ==> p[j] == e[j - n - 1];
    var dotIndex := S.RFindChar(p, '.', |p|);
    var sepIndex := S.RFindChar(p, Sep, |p|);
    assert dotIndex == n;
    assert sepIndex < n - 1;
    assert p[n - 1] == base[n - 1];
    assert !AllDots(p, sepIndex + 1, dotIndex);
    assert p[..n] == base;
    assert p[n..] == "." + e;
  }

  /** `os.path.isabs(p)`. */
  predicate IsAbs(p: string) {
    S.StartsWith(p, [Sep])
  }

  /** A component `normpath` keeps as it is: not empty, not `.`, and
      without a separator. */
  predicate Plain(c: string) {
    c != "" && c != "." && Sep !in c
  }

  /** The components `normpath` leaves: plain ones, every `..` before all the
      others, and no `..` at all under the root. */
  predicate Collapsed(cs: seq<string>, rooted: bool) {
    (forall i :: 0 <= i < |cs| ==> Plain(cs[i])) &&
    (forall i :: 0 < i < |cs| && cs[i] == ".." ==> cs[i - 1] == "..") &&
    (rooted ==> forall i :: 0 <= i < |cs| ==> cs[i] != "..")
  }

  /** One step of `normpath`'s loop over the components: empty and `.`
      components are dropped; `..` removes the last kept component unless
      there is none or it is itself `..`, in which case a relative path keeps
      the `..` and an absolute one drops it; any other component is kept. */
  function CollapseStep(kept: seq<string>, c: string, rooted: bool): (r: seq<string>)
    ensures Collapsed(kept, rooted) && Sep !in c ==> Collapsed(r, rooted)
  {
    if c == "" || c == "." then kept
    else if c != ".." || (!rooted && kept == []) || (kept != [] && kept[|kept| - 1] == "..") then
      kept + [c]
    else if kept != [] then kept[..|kept| - 1]
    else kept
  }

  /** `normpath`'s loop, from the components kept so far. */
  function Collapse(comps: seq<string>, rooted: bool, kept: seq<string>): (r: seq<string>)
    ensures Collapsed(kept, rooted) && (forall i :: 0 <= i < |comps| ==> Sep !in comps[i]) ==>
            Collapsed(r, rooted)
    decreases |comps|
  {
    if comps == [] then kept
    else Collapse(comps[1..], rooted, CollapseStep(kept, comps[0], rooted))
  }

  /** The separators `normpath` keeps at the start: exactly two when the
      path starts with exactly two, one for any other absolute path. */
  function RootSeps(p: string): (n: nat)
    ensures n <= 2 && (n > 0 <==> IsAbs(p))
  {
    if !IsAbs(p) then 0
    else if S.StartsWith(p, "//") && !S.StartsWith(p, "///") then 2
    else 1
  }

  /** `os.path.normpath(p)`. */
  function Normpath(p: string): (r: string)
    ensures r != ""
  {
    if p == "" then "."
    else
      var n := RootSeps(p);
      Rejoined(n, Collapse(S.Split(p, [Sep]), n > 0, []))
  }

  /** The end of `normpath`: the root separators, then the kept components
      joined by separators, or `.` when that leaves nothing. */
  function Rejoined(n: nat, kept: seq<string>): (r: string)
    requires n <= 2
    ensures r != ""
  {
    var r := "//"[..n] + S.Join(kept, [Sep]);
    if r == "" then "." else r
  }

  /** The pieces of a split are the joined pieces, when none holds a
      separator. */
  lemma {:induction false} SplitJoinFree(cs: seq<string>)
    requires cs != [] && forall i :: 0 <= i < |cs| ==> Sep !in cs[i]
    ensures S.Split(S.Join(cs, [Sep]), [Sep]) == cs
    decreases |cs|
  {
    SplitFree(cs[0]);
    if |cs| > 1 {
      S.SplitCharConcat(cs[0], Sep, S.Join(cs[1..], [Sep]));
      SplitJoinFree(cs[1..]);
    }
  }

  lemma SplitFree(s: string)
    requires Sep !in s
    ensures S.Split(s, [Sep]) == [s]
  {
    S.ContainsChar(s, Sep);
  }

  /** Joined plain components hold no two separators in a row and neither
      start nor end with one. */
  lemma {:induction false} JoinPlain(cs: seq<string>)
    requires forall i :: 0 <= i < |cs| ==> Plain(cs[i])
    ensures var j := S.Join(cs, [Sep]);
      NoDoubleSep(j) && (j == "" <==> cs == []) &&
      (cs != [] ==> j[0] != Sep && j[|j| - 1] != Sep)
    decreases |cs|
  {
    if |cs| == 1 {
      assert forall k :: 0 <= k < |cs[0]| ==> cs[0][k] != Sep;
    } else if |cs| > 1 {
      var a, rest := cs[0], S.Join(cs[1..], [Sep]);
      JoinPlain(cs[1..]);
      var j := a + [Sep] + rest;
      assert S.Join(cs, [Sep]) == j;
      forall k | 0 <= k < |j| - 1 ensures !(j[k] == Sep && j[k + 1] == Sep) {
        if k < |a| {
          assert j[k] == a[k];
        } else if k > |a| {
          assert j[k] == rest[k - |a| - 1] && j[k + 1] == rest[k - |a|];
        }
      }
      assert j[0] == a[0] && j[|j| - 1] == rest[|rest| - 1];
    }
  }

  /** Components that are already collapsed pass through the loop
      unchanged. */
  lemma {:induction false} CollapseKeeps(xs: seq<string>, rooted: bool, acc: seq<string>)
    requires Collapsed(acc + xs, rooted)
    ensures Collapse(xs, rooted, acc) == acc + xs
    decreases |xs|
  {
    if xs == [] {
      assert acc + xs == acc;
    } else {
      var x := xs[0];
      assert (acc + xs)[|acc|] == x;
      if x == ".." && acc != [] {
        assert (acc + xs)[|acc| - 1] == acc[|acc| - 1];
      }
      assert CollapseStep(acc, x, rooted) == acc + [x];
      assert (acc + [x]) + xs[1..] == acc + xs;
      CollapseKeeps(xs[1..], rooted, acc + [x]);
    }
  }

  /** A non-empty result of `normpath` is its root separators followed by
      the joined collapsed components. */
  lemma NormpathParts(p: string) returns (n: nat, kept: seq<string>)
    requires p != ""
    ensures n == RootSeps(p) && Collapsed(kept, n > 0)
    ensures Normpath(p) == Rejoined(n, kept)
  {
    n := RootSeps(p);
    S.SplitPiecesFree(p, Sep);
    kept := Collapse(S.Split(p, [Sep]), n > 0, []);
  }

  /** Empty components are dropped. */
  lemma CollapseDropsEmpty(e: seq<string>, rooted: bool)
    ensures Collapse([""] + e, rooted, []) == Collapse(e, rooted, [])
  {
    assert ([""] + e)[1..] == e;
  }

  /** Collapsing the split of joined collapsed components gives them
      back. */
  lemma SplitCollapse(kept: seq<string>, rooted: bool)
    requires Collapsed(kept, rooted)
    ensures Collapse(S.Split(S.Join(kept, [Sep]), [Sep]), rooted, []) == kept
  {
    if kept == [] {
      SplitFree("");
    } else {
      SplitJoinFree(kept);
      CollapseKeeps(kept, rooted, []);
    }
  }

  /** The root separators of a normalised path are the ones it was built
      with. */
  lemma RootSepsRejoined(n: nat, kept: seq<string>)
    requires n <= 2 && Collapsed(kept, n > 0) && !(n == 0 && kept == [])
    ensures RootSeps(Rejoined(n, kept)) == n
  {
    var j := S.Join(kept, [Sep]);
    JoinPlain(kept);
    var r := "//"[..n] + j;
    assert Rejoined(n, kept) == r;
    if n == 0 {
      assert r[0] == j[0];
    } else {
      assert r[..1] == "/";
      if n == 1 {
        assert |r| >= 2 ==> r[1] == j[0];
      } else {
        assert r[..2] == "//";
        assert |r| >= 3 ==> r[2] == j[0];
      }
    }
  }

  /** Splitting a normalised path and collapsing its components again gives
      the components it was built from. */
  lemma SplitRejoined(n: nat, kept: seq<string>)
    requires n <= 2 && Collapsed(kept, n > 0) && !(n == 0 && kept == [])
    ensures Collapse(S.Split(Rejoined(n, kept), [Sep]), n > 0, []) == kept
  {
    var j := S.Join(kept, [Sep]);
    JoinPlain(kept);
    SplitCollapse(kept, n > 0);
    assert Rejoined(n, kept) == "//"[..n] + j;
    if n == 1 {
      assert "//"[..n] + j == [Sep] + j;
      SplitRooted(j, n > 0);
    } else if n == 2 {
      SplitDoubleRooted(j);
    } else {
      assert "//"[..n] + j == j;
    }
  }

  lemma SplitDoubleRooted(j: string)
    ensures Collapse(S.Split("//"[..2] + j, [Sep]), true, []) == Collapse(S.Split(j, [Sep]), true, [])
  {
    assert "//"[..2] + j == [Sep] + ([Sep] + j);
    SplitRooted([Sep] + j, true);
    SplitRooted(j, true);
  }

  /** A leading separator adds an empty component, which collapsing drops. */
  lemma SplitRooted(j: string, rooted: bool)
    ensures Collapse(S.Split([Sep] + j, [Sep]), rooted, []) == Collapse(S.Split(j, [Sep]), rooted, [])
  {
    SplitFree("");
    S.SplitCharConcat("", Sep, j);
    assert "" + [Sep] + j == [Sep] + j;
    CollapseDropsEmpty(S.Split(j, [Sep]), rooted);
  }

  /** A normalised path is left as it is by `normpath`. */
  lemma NormalFixed(n: nat, kept: seq<string>)
    requires n <= 2 && Collapsed(kept, n > 0)
    ensures Normpath(Rejoined(n, kept)) == Rejoined(n, kept)
  {
    if n == 0 && kept == [] {
      SplitFree(".");
      DotRelative();
      assert Collapse(["."], false, []) == [];
    } else {
      RootSepsRejoined(n, kept);
      SplitRejoined(n, kept);
    }
  }

  /** `.` is a relative path. */
  lemma DotRelative()
    ensures !IsAbs(".")
  {
    assert "."[..1][0] == '.';
  }

  /** `normpath` of a normalised path changes nothing. */
  lemma NormpathIdempotent(p: string)
    ensures Normpath(Normpath(p)) == Normpath(p)
  {
    if p == "" {
      NormalFixed(0, []);
    } else {
      var n, kept := NormpathParts(p);
      NormalFixed(n, kept);
    }
  }

  /** `normpath` keeps a path absolute or relative, and leaves no two
      separators in a row except an initial pair. */
  lemma NormpathShape(p: string)
    ensures IsAbs(Normpath(p)) <==> IsAbs(p)
    ensures NoDoubleSepAfterRoot(Normpath(p))
  {
    if p != "" {
      var n, kept := NormpathParts(p);
      RejoinedShape(n, kept);
    } else {
      DotRelative();
    }
  }

  lemma RejoinedShape(n: nat, kept: seq<string>)
    requires n <= 2 && Collapsed(kept, n > 0)
    ensures IsAbs(Rejoined(n, kept)) <==> n > 0
    ensures NoDoubleSepAfterRoot(Rejoined(n, kept))
  {
    var j := S.Join(kept, [Sep]);
    JoinPlain(kept);
    if !(n == 0 && kept == []) {
      var r := "//"[..n] + j;
      assert Rejoined(n, kept) == r;
      forall i | 1 <= i < |r| - 1 ensures !(r[i] == Sep && r[i + 1] == Sep) {
        if i >= n {
          assert r[i] == j[i - n] && r[i + 1] == j[i - n + 1];
        } else {
          assert r[i + 1] == j[0];
        }
      }
      if n == 0 {
        assert r[0] == j[0];
      } else {
        assert r[0] == Sep;
      }
    } else {
      DotRelative();
    }
  }

  /** `os.path.abspath(p)` with the working directory as a parameter: a
      relative path is joined to it, and the result is normalised. */
  function Abspath(p: string, cwd: string): (r: string)
    ensures IsAbs(p) || IsAbs(cwd) ==> IsAbs(r)
  {
    var q := if IsAbs(p) then p else Join(cwd, p);
    assert IsAbs(p) || IsAbs(cwd) ==> IsAbs(q) by {
      if !IsAbs(p) && IsAbs(cwd) {
        assert q[..1] == cwd[..1];
      }
    }
    NormpathShape(q);
    Normpath(q)
  }

  /** `normpath` of components joined by separators, with or without one
      root separator: the split gives the components back, and the loop
      collapses them. */
  lemma NormpathOfJoin(cs: seq<string>, rooted: bool)
    requires cs != [] && cs[0] != "" && forall i :: 0 <= i < |cs| ==> Sep !in cs[i]
    ensures var j := S.Join(cs, [Sep]);
      Normpath(if rooted then [Sep] + j else j) ==
      Rejoined(if rooted then 1 else 0, Collapse(cs, rooted, []))
  {
    var j := S.Join(cs, [Sep]);
    SplitJoinFree(cs);
    assert j[0] == cs[0][0] by {
      S.JoinAround(cs, 0, [Sep]);
    }
    assert cs[0][0] != Sep;
    if rooted {
      var p := [Sep] + j;
      SplitRooted(j, true);
      assert p[..1] == [Sep];
      assert |p| >= 2 && p[1] == j[0];
      assert RootSeps(p) == 1;
    } else {
      assert j[..1] == [j[0]];
      assert RootSeps(j) == 0;
    }
  }

  /** Joining a first component to the join of the others. */
  lemma JoinCons(c: string, cs: seq<string>)
    requires cs != []
    ensures S.Join([c] + cs, [Sep]) == c + [Sep] + S.Join(cs, [Sep])
  {
    assert ([c] + cs)[1..] == cs;
  }

  /** With an absolute working directory, `abspath` leaves a root and plain
      components only: no empty, `.` or `..` component survives. */
  lemma AbspathCollapsed(p: string, cwd: string) returns (n: nat, kept: seq<string>)
    requires IsAbs(cwd)
    ensures 1 <= n <= 2 && Collapsed(kept, true)
    ensures Abspath(p, cwd) == Rejoined(n, kept)
  {
    var q := if IsAbs(p) then p else Join(cwd, p);
    assert IsAbs(q) && q != "";
    n, kept := NormpathParts(q);
  }

  /** With an absolute working directory every result is absolute, and
      making an absolute path absolute changes nothing. */
  lemma AbspathIdempotent(p: string, cwd: string)
    requires IsAbs(cwd)
    ensures IsAbs(Abspath(p, cwd))
    ensures Abspath(Abspath(p, cwd), cwd) == Abspath(p, cwd)
  {
    var q := if IsAbs(p) then p else Join(cwd, p);
    NormpathIdempotent(q);
  }
}
