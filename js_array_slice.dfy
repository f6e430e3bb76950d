/**
 * Array.prototype.slice(start, end) of ECMA-262 (section 23.1.3, Properties of
 * the Array Prototype Object) for integer arguments: each relative index is
 * resolved against the length, a negative one counting from the end, and
 * clamped to [0, length]; the result holds the elements from the resolved
 * start up to, not including, the resolved end, and is empty when the start is
 * at or past the end. The receiver is not changed.
 */
module JsArraySlice {
  import opened Common

  /** relativeStart / relativeEnd resolved against `len`. */
  function ResolveIndex(rel: int, len: nat): (k: nat)
    ensures k <= len
    ensures 0 <= rel <= len ==> k == rel
    ensures len < rel ==> k == len
    ensures rel < 0 && len + rel >= 0 ==> k == len + rel
    ensures len + rel < 0 ==> k == 0
  {
    if rel < 0 then Max(len + rel, 0) else Min(rel, len)
  }

  /** s.slice(start, end) */
  function Slice<T>(s: seq<T>, start: int, end: int): (r: seq<T>)
    ensures var k, f := ResolveIndex(start, |s|), ResolveIndex(end, |s|);
      && |r| == Max(f - k, 0)
      && forall i :: 0 <= i < |r| ==> r[i] == s[k + i]
  {
    var k, f := ResolveIndex(start, |s|), ResolveIndex(end, |s|);
    if k < f then s[k..f] else []
  }

  /** With a non-negative start the slice is the sub-sequence between the two clamped bounds. */
  lemma SliceFromNonNegative<T>(s: seq<T>, start: int, end: int)
    requires 0 <= start
    ensures var k := Min(start, |s|);
      Slice(s, start, end) == s[k..Max(k, ResolveIndex(end, |s|))]
  {
    var k := Min(start, |s|);
    var r := Slice(s, start, end);
    assert r == s[k..Max(k, ResolveIndex(end, |s|))];
  }
}
