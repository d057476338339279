/** JavaScript's Array.prototype.slice, for integer arguments, over Dafny sequences. */
module JsArray {

  function Min(a: int, b: int): (m: int)
    ensures m <= a && m <= b && (m == a || m == b)
  {
    if a <= b then a else b
  }

  /** The position that an integer argument of `slice` denotes in an array of
      length `len`: a negative argument counts back from the end, and the
      position is clipped to 0..len. */
  function RelativeIndex(i: int, len: nat): (r: nat)
    ensures r <= len
    ensures 0 <= i ==> r == Min(i, len)
    ensures i < 0 ==> r + Min(-i, len) == len
  {
    if i < 0 then (if len + i < 0 then 0 else len + i)
    else if i < len then i else len
  }

  /** `s.slice(start, end)`: the elements from the relative start up to, not
      including, the relative end; empty when that window is empty. */
  function Slice<T>(s: seq<T>, start: int, end: int): (r: seq<T>)
    ensures |r| <= |s|
    ensures 0 <= start ==> forall i :: 0 <= i < |r| ==> start + i < |s| && r[i] == s[start + i]
    ensures 0 <= start <= end ==> |r| == Min(end, |s|) - Min(start, |s|)
    ensures 0 <= end <= start ==> r == []
    ensures multiset(r) <= multiset(s)
  {
    var from := RelativeIndex(start, |s|);
    var to := RelativeIndex(end, |s|);
    if from < to then
      assert s == s[..from] + s[from..to] + s[to..];
      s[from..to]
    else []
  }

  /** For non-negative arguments, slicing only clips the window to the sequence. */
  lemma SliceClipped<T>(s: seq<T>, start: int, end: int)
    requires 0 <= start <= end
    ensures Slice(s, start, end) == s[Min(start, |s|)..Min(end, |s|)]
  {
  }

  /** A negative start counts back from the end: it slices like the
      non-negative start that many elements before the end. */
  lemma SliceNegativeStart<T>(s: seq<T>, start: int, end: int)
    requires start < 0
    ensures Slice(s, start, end) == Slice(s, |s| - Min(-start, |s|), end)
  {
  }

  /** A negative end counts back from the end in the same way. */
  lemma SliceNegativeEnd<T>(s: seq<T>, start: int, end: int)
    requires end < 0
    ensures Slice(s, start, end) == Slice(s, start, |s| - Min(-end, |s|))
  {
  }
}
