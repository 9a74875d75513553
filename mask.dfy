/**
 * Element-wise boolean masks over a flattened image volume, the way NumPy
 * evaluates a comparison against a scalar (`a == 1`, `a != 0`) and the
 * element-wise `&` of two masks of the same shape.
 */
module Mask {

  /** The mask `[p(a[0]), p(a[1]), ...]`: one entry per voxel of `a`. */
  function Map<T>(p: T -> bool, a: seq<T>): (r: seq<bool>)
    ensures |r| == |a|
    ensures forall i :: 0 <= i < |a| ==> r[i] == p(a[i])
  {
    if a == [] then [] else [p(a[0])] + Map(p, a[1..])
  }

  /** Element-wise conjunction of two masks of the same shape. */
  function And(a: seq<bool>, b: seq<bool>): (r: seq<bool>)
    requires |a| == |b|
    ensures |r| == |a|
    ensures forall i :: 0 <= i < |a| ==> r[i] == (a[i] && b[i])
  {
    if a == [] then [] else [a[0] && b[0]] + And(a[1..], b[1..])
  }
}
