/** The Python `str` operations the tools rely on: `find`, `rfind`, `split`,
    `join`, `strip`, `startswith`, `lower` and single-character `replace`. */
module PyStrings {

  /** `sub` occurs in `s` starting at position `j`. */
  predicate OccursAt(s: string, sub: string, j: nat) {
    j + |sub| <= |s| && s[j..j + |sub|] == sub
  }

  /** `sub` occurs somewhere in `s` (Python's `sub in s`). */
  predicate Contains(s: string, sub: string) {
    exists j | 0 <= j <= |s| :: OccursAt(s, sub, j)
  }

  /** `s.find(sub, k)`: the first occurrence at or after `k`, or -1. */
  function FindFrom(s: string, sub: string, k: nat): (i: int)
    requires |sub| > 0
    ensures i == -1 || (k <= i && OccursAt(s, sub, i))
    ensures i == -1 ==> forall j: nat :: k <= j ==> !OccursAt(s, sub, j)
    ensures i >= 0 ==> forall j: nat :: k <= j < i ==> !OccursAt(s, sub, j)
    decreases |s| - k
  {
    if k + |sub| > |s| then -1
    else if s[k..k + |sub|] == sub then k
    else FindFrom(s, sub, k + 1)
  }

  /** `s.find(sub)`. */
  function Find(s: string, sub: string): (i: int)
    requires |sub| > 0
    ensures i == -1 <==> !Contains(s, sub)
    ensures i >= 0 ==> OccursAt(s, sub, i) && forall j: nat :: j < i ==> !OccursAt(s, sub, j)
  {
    FindFrom(s, sub, 0)
  }

  /** `s.rfind(c, 0, hi)` for a single character: the last position before `hi`
      holding `c`, or -1. */
  function RFindChar(s: string, c: char, hi: nat): (i: int)
    requires hi <= |s|
    ensures -1 <= i < hi
    ensures i >= 0 ==> s[i] == c
    ensures forall j :: i < j < hi ==> s[j] != c
  {
    if hi == 0 then -1
    else if s[hi - 1] == c then hi - 1
    else RFindChar(s, c, hi - 1)
  }

  /** `s.split(sep)` for a non-empty separator. */
  function Split(s: string, sep: string): (parts: seq<string>)
    requires |sep| > 0
    ensures |parts| >= 1
    decreases |s|
  {
    var i := Find(s, sep);
    if i < 0 then [s] else [s[..i]] + Split(s[i + |sep|..], sep)
  }

  /** `sep.join(parts)`. */
  function Join(parts: seq<string>, sep: string): string {
    if |parts| == 0 then ""
    else if |parts| == 1 then parts[0]
    else parts[0] + sep + Join(parts[1..], sep)
  }

  /** Splitting and re-joining on the same separator gives the string back. */
  lemma {:induction false} JoinSplit(s: string, sep: string)
    requires |sep| > 0
    ensures Join(Split(s, sep), sep) == s
    decreases |s|
  {
    var i := Find(s, sep);
    if i >= 0 {
      var rest := s[i + |sep|..];
      var tail := Split(rest, sep);
      JoinSplit(rest, sep);
      var parts := [s[..i]] + tail;
      assert Split(s, sep) == parts;
      assert parts[1..] == tail;
      calc {
        Join(parts, sep);
        parts[0] + sep + Join(tail, sep);
        s[..i] + sep + rest;
        { assert s[i..i + |sep|] == sep; }
        s;
      }
    }
  }

  /** Splitting on a single character leaves no piece containing it. */
  lemma {:induction false} SplitPiecesFree(s: string, c: char)
    ensures forall k :: 0 <= k < |Split(s, [c])| ==> c !in Split(s, [c])[k]
    decreases |s|
  {
    var i := Find(s, [c]);
    if i < 0 {
      forall j | 0 <= j < |s| ensures s[j] != c {
        assert !OccursAt(s, [c], j);
      }
    } else {
      forall j | 0 <= j < i ensures s[j] != c {
        assert !OccursAt(s, [c], j);
      }
      SplitPiecesFree(s[i + 1..], c);
    }
  }

  /** A character absent from `s` is absent from every piece of its split. */
  lemma {:induction false} SplitPiecesWithin(s: string, c: char, x: char)
    requires x !in s
    ensures forall k :: 0 <= k < |Split(s, [c])| ==> x !in Split(s, [c])[k]
    decreases |s|
  {
    var i := Find(s, [c]);
    if i >= 0 {
      NotInParts(s, x, i);
      SplitPiecesWithin(s[i + 1..], c, x);
    }
  }

  lemma NotInParts(s: string, x: char, i: nat)
    requires x !in s && i < |s|
    ensures x !in s[..i] && x !in s[i + 1..]
  {
    assert s == s[..i] + [s[i]] + s[i + 1..];
  }

  /** Splitting on a single character at one of its occurrences splits the
      two sides independently. */
  lemma {:induction false} SplitCharConcat(a: string, c: char, b: string)
    ensures Split(a + [c] + b, [c]) == Split(a, [c]) + Split(b, [c])
    decreases |a|
  {
    var s := a + [c] + b;
    ContainsChar(a, c);
    if c in a {
      var i := Find(a, [c]);
      FirstInConcat(a, c, b, i);
      var rest := a[i + 1..];
      assert s[..i] == a[..i];
      assert s[i + 1..] == rest + [c] + b;
      SplitCharConcat(rest, c, b);
      SplitAt(s, c, i);
      SplitAt(a, c, i);
    } else {
      FindFirstChar(s, c, |a|);
      assert s[..|a|] == a && s[|a| + 1..] == b;
      SplitAt(s, c, |a|);
    }
  }

  /** Splitting at the first occurrence of a character. */
  lemma SplitAt(s: string, c: char, i: nat)
    requires i < |s| && Find(s, [c]) == i
    ensures Split(s, [c]) == [s[..i]] + Split(s[i + 1..], [c])
  {
  }

  /** The first occurrence of `c` in `a` is also its first in `a + [c] + b`. */
  lemma FirstInConcat(a: string, c: char, b: string, i: int)
    requires i == Find(a, [c]) && i >= 0
    ensures i < |a| && a[i] == c
    ensures Find(a + [c] + b, [c]) == i
  {
    assert a[i..i + 1] == [c];
    var s := a + [c] + b;
    forall j | 0 <= j < i ensures s[j] != c {
      assert !OccursAt(a, [c], j);
      assert a[j..j + 1][0] == a[j];
    }
    FindFirstChar(s, c, i);
  }

  /** Joining a concatenation puts one separator between the two joins. */
  lemma {:induction false} JoinConcat(a: seq<string>, b: seq<string>, sep: string)
    requires |a| > 0 && |b| > 0
    ensures Join(a + b, sep) == Join(a, sep) + sep + Join(b, sep)
    decreases |a|
  {
    assert (a + b)[0] == a[0];
    assert (a + b)[1..] == a[1..] + b;
    if |a| > 1 {
      JoinConcat(a[1..], b, sep);
    }
  }

  /** The joined string splits around any one piece: what comes before it is
      the join of the earlier pieces and a separator, what follows it a
      separator and the join of the later pieces. */
  lemma JoinAround(parts: seq<string>, k: nat, sep: string)
    requires k < |parts|
    ensures Join(parts, sep) ==
      (if k == 0 then "" else Join(parts[..k], sep) + sep) + parts[k] +
      (if k == |parts| - 1 then "" else sep + Join(parts[k + 1..], sep))
  {
    var before, after := parts[..k], parts[k + 1..];
    if k > 0 {
      assert parts == before + ([parts[k]] + after);
      JoinConcat(before, [parts[k]] + after, sep);
    }
    if k < |parts| - 1 {
      assert [parts[k]] + after == [parts[k]] + after;
      JoinConcat([parts[k]], after, sep);
      assert parts[k..] == [parts[k]] + after;
    }
    if k == 0 {
      assert parts == [parts[k]] + after;
    }
  }

  /** A character that no piece contains appears in the join only if it is
      the separator. */
  lemma {:induction false} JoinFree(parts: seq<string>, c: char, x: char)
    requires x != c
    requires forall k :: 0 <= k < |parts| ==> x !in parts[k]
    ensures x !in Join(parts, [c])
    decreases |parts|
  {
    if |parts| > 1 {
      JoinFree(parts[1..], c, x);
    }
  }

  /** Python's `str.isspace` for one character. */
  predicate IsSpace(c: char) {
    var n := c as int;
    n == 0x20 || 0x09 <= n <= 0x0d || 0x1c <= n <= 0x1f || n == 0x85 || n == 0xa0 ||
    n == 0x1680 || 0x2000 <= n <= 0x200a || n == 0x2028 || n == 0x2029 ||
    n == 0x202f || n == 0x205f || n == 0x3000
  }

  /** `s.lstrip()`. */
  function StripLeft(s: string): (r: string)
    ensures |r| <= |s| && r == s[|s| - |r|..]
    ensures r != [] ==> !IsSpace(r[0])
  {
    if |s| > 0 && IsSpace(s[0]) then StripLeft(s[1..]) else s
  }

  /** `s.rstrip()`. */
  function StripRight(s: string): (r: string)
    ensures |r| <= |s| && r == s[..|r|]
    ensures r != [] ==> !IsSpace(r[|r| - 1])
  {
    if |s| > 0 && IsSpace(s[|s| - 1]) then StripRight(s[..|s| - 1]) else s
  }

  /** `s.strip()`: no leading or trailing white space is left, and what is
      left is a contiguous part of `s`. */
  function Strip(s: string): (r: string)
    ensures r != [] ==> !IsSpace(r[0]) && !IsSpace(r[|r| - 1])
    ensures exists a: nat, b: nat :: a <= b <= |s| && r == s[a..b]
  {
    var l := StripLeft(s);
    var r := StripRight(l);
    assert r == s[|s| - |l|..|s| - |l| + |r|];
    r
  }

  /** `s.startswith(p)`. */
  predicate StartsWith(s: string, p: string) {
    |p| <= |s| && s[..|p|] == p
  }

  /** ASCII upper- to lower-case; other characters are left alone. */
  function LowerChar(c: char): char {
    if 'A' <= c <= 'Z' then (c as int + 32) as char else c
  }

  /** `s.lower()` over ASCII letters. */
  function Lower(s: string): (r: string)
    ensures |r| == |s|
    ensures forall i :: 0 <= i < |s| ==> r[i] == LowerChar(s[i])
  {
    seq(|s|, i requires 0 <= i < |s| => LowerChar(s[i]))
  }

  /** Lower-casing twice changes nothing more. */
  lemma LowerIdempotent(s: string)
    ensures Lower(Lower(s)) == Lower(s)
  {
  }

  /** ASCII lower- to upper-case; other characters are left alone. */
  function UpperChar(c: char): char {
    if 'a' <= c <= 'z' then (c as int - 32) as char else c
  }

  /** `s.upper()` over ASCII letters. */
  function Upper(s: string): (r: string)
    ensures |r| == |s|
    ensures forall i :: 0 <= i < |s| ==> r[i] == UpperChar(s[i])
  {
    seq(|s|, i requires 0 <= i < |s| => UpperChar(s[i]))
  }

  /** Lower-casing forgets an earlier upper-casing. */
  lemma LowerOfUpper(s: string)
    ensures Lower(Upper(s)) == Lower(s)
  {
  }

  /** A string of lower-case ASCII letters. */
  predicate IsLowerWord(s: string) {
    forall i :: 0 <= i < |s| ==> 'a' <= s[i] <= 'z'
  }

  /** Upper-casing a lower-case word turns only letters into letters, and
      lower-casing it again gives the word back. */
  lemma LowerUpper(s: string)
    requires IsLowerWord(s)
    ensures forall i :: 0 <= i < |s| ==> 'A' <= Upper(s)[i] <= 'Z'
    ensures Lower(Upper(s)) == s
  {
  }

  /** A one-character string occurs in `s` exactly when the character does. */
  lemma ContainsChar(s: string, c: char)
    ensures Contains(s, [c]) <==> c in s
  {
    if c in s {
      var j :| 0 <= j < |s| && s[j] == c;
      assert OccursAt(s, [c], j);
    }
    if Contains(s, [c]) {
      var j :| 0 <= j <= |s| && OccursAt(s, [c], j);
      assert s[j..j + 1][0] == s[j];
    }
  }

  /** The first occurrence of a single character is the first position
      holding it. */
  lemma FindFirstChar(s: string, c: char, k: nat)
    requires k < |s| && s[k] == c
    requires forall j :: 0 <= j < k ==> s[j] != c
    ensures Find(s, [c]) == k
  {
    assert OccursAt(s, [c], k);
    forall j: nat | j < k ensures !OccursAt(s, [c], j) {
      assert s[j..j + 1][0] == s[j];
    }
  }

  /** A position where the first occurrence is found, with none before it,
      is what `find` returns. */
  lemma FindIs(s: string, sub: string, at: nat)
    requires |sub| > 0 && OccursAt(s, sub, at)
    requires forall j: nat :: j < at ==> !OccursAt(s, sub, j)
    ensures Find(s, sub) == at
  {
  }

  /** One differing character rules out an occurrence. */
  lemma Mismatch(s: string, sub: string, j: nat, t: nat)
    requires t < |sub| && j + t < |s| && s[j + t] != sub[t]
    ensures !OccursAt(s, sub, j)
  {
    if j + |sub| <= |s| {
      assert s[j..j + |sub|][t] == s[j + t];
    }
  }

  /** Two different strings of one length differ at some position. */
  lemma DiffersSomewhere(a: string, b: string)
    requires |a| == |b| && a != b
    ensures exists t :: 0 <= t < |a| && a[t] != b[t]
  {
  }

  /** `s.replace(a, b)` for single characters. */
  function ReplaceChar(s: string, a: char, b: char): (r: string)
    ensures |r| == |s|
    ensures forall i :: 0 <= i < |s| ==> r[i] == (if s[i] == a then b else s[i])
  {
    seq(|s|, i requires 0 <= i < |s| => if s[i] == a then b else s[i])
  }

  /** `str(n)` for an integer. */
  function IntToString(n: int): string {
    if n < 0 then "-" + NatToString(-n) else NatToString(n)
  }

  function NatToString(n: nat): string
    decreases n
  {
    var d := ['0' + (n % 10) as char];
    if n < 10 then d else NatToString(n / 10) + d
  }
}
