/** Python's rules for slicing and indexing a list or a string, including
    negative positions, which count from the end. */
module PySeqs {

  import opened Wrappers

  /** A slice bound as Python normalises it against a length `n`: a negative
      bound counts from the end, and the result is clamped to `[0, n]`. */
  function Bound(i: int, n: nat): (b: nat)
    ensures b <= n
    ensures 0 <= i <= n ==> b == i
    ensures i > n ==> b == n
    ensures i < 0 && -i <= n ==> b == n + i
    ensures i < 0 && -i > n ==> b == 0
  {
    if i < 0 then (if i + n < 0 then 0 else i + n)
    else if i > n then n
    else i
  }

  /** `s[start:stop]`. */
  function Slice<T>(s: seq<T>, start: int, stop: int): (r: seq<T>)
    ensures var a, b := Bound(start, |s|), Bound(stop, |s|);
      r == if a < b then s[a..b] else []
  {
    var a, b := Bound(start, |s|), Bound(stop, |s|);
    if a < b then s[a..b] else []
  }

  /** `s[start:]`. */
  function SliceFrom<T>(s: seq<T>, start: int): (r: seq<T>)
    ensures r == s[Bound(start, |s|)..]
    ensures |r| <= |s|
  {
    s[Bound(start, |s|)..]
  }

  /** `s[:stop]`. */
  function SliceTo<T>(s: seq<T>, stop: int): (r: seq<T>)
    ensures r == s[..Bound(stop, |s|)]
  {
    s[..Bound(stop, |s|)]
  }

  /** The position `s[i]` denotes, or `None` where Python raises IndexError. */
  function Index(i: int, n: nat): (k: Option<nat>)
    ensures k.Some? <==> -(n as int) <= i < n
    ensures k.Some? ==> k.value < n
    ensures 0 <= i < n ==> k == Some(i)
  {
    if 0 <= i < n then Some(i)
    else if -(n as int) <= i < 0 then Some(n + i)
    else None
  }

  /** `s[start:start+len]` holds at most `len` items, whatever the sign of `start`. */
  lemma SliceLength<T>(s: seq<T>, start: int, len: int)
    requires len >= 0
    ensures |Slice(s, start, start + len)| <= len
  {
    var n := |s|;
    var a, b := Bound(start, n), Bound(start + len, n);
    if a < b {
      if start < 0 && start + len >= 0 {
        assert b <= start + len;
      }
    }
  }

  /** A slice is a run of consecutive items of `s`, starting at the
      normalised start bound. */
  lemma SliceWithin<T>(s: seq<T>, start: int, stop: int)
    ensures Bound(start, |s|) + |Slice(s, start, stop)| <= |s|
    ensures forall i :: 0 <= i < |Slice(s, start, stop)| ==> Slice(s, start, stop)[i] == s[Bound(start, |s|) + i]
  {
  }

  /** Whatever a slice holds, `s` holds. */
  lemma SliceMember<T>(s: seq<T>, start: int, stop: int, x: T)
    requires x in Slice(s, start, stop)
    ensures x in s
  {
    SliceWithin(s, start, stop);
    var r := Slice(s, start, stop);
    var k :| 0 <= k < |r| && r[k] == x;
    assert s[Bound(start, |s|) + k] == x;
  }

  /** `s[-k:]` with `k >= 1` keeps the last `min(k, |s|)` items, in order. */
  lemma SliceLast<T>(s: seq<T>, k: int)
    requires k >= 1
    ensures |SliceFrom(s, -k)| == if k < |s| then k else |s|
    ensures SliceFrom(s, -k) == s[|s| - |SliceFrom(s, -k)|..]
  {
  }

  /** `s[-0:]` is `s[0:]`, the whole sequence. */
  lemma SliceMinusZero<T>(s: seq<T>)
    ensures SliceFrom(s, -0) == s
  {
  }
}
