/**
 * The Java `double` values that the searches store in `timeFromSource` and in A*'s f-scores:
 * a finite real or `Double.POSITIVE_INFINITY`. Rounding is not modelled.
 */
module Doubles {

  datatype Dist = Fin(r: real) | Inf

  /** The value of `Math.sqrt(2)`, to the 17 significant digits of a double. */
  const SQRT2: real := 1.4142135623730951

  /** `a < b` on doubles, infinity included (`Inf < Inf` is false). */
  predicate Below(a: Dist, b: Dist)
  {
    a.Fin? && (b.Inf? || a.r < b.r)
  }

  /** `a <= b` on doubles, infinity included. */
  predicate AtMost(a: Dist, b: Dist)
  {
    b.Inf? || (a.Fin? && a.r <= b.r)
  }

  /** `a + w` for a finite `w`: infinity stays infinity. */
  function Plus(a: Dist, w: real): Dist
  {
    if a.Inf? then Inf else Fin(a.r + w)
  }

  /**
   * `ds[k]` is what a left-to-right scan keeping the running minimum under `<` selects: a finite
   * value no larger than any other, and strictly smaller than every value before it.
   */
  ghost predicate IsFirstMin(ds: seq<Dist>, k: int)
  {
    && 0 <= k < |ds| && ds[k].Fin?
    && (forall j :: 0 <= j < |ds| ==> AtMost(ds[k], ds[j]))
    && (forall j :: 0 <= j < k ==> Below(ds[k], ds[j]))
  }

  /** At most one position is the first minimum. */
  lemma FirstMinUnique(ds: seq<Dist>, k: int, l: int)
    requires IsFirstMin(ds, k) && IsFirstMin(ds, l)
    ensures k == l
  {
  }

  /**
   * The position a left-to-right scan for the first minimum selects in `ds`, or `-1` when every
   * value is infinite (`findMin` returning `null`).
   */
  function FirstMin(ds: seq<Dist>): (k: int)
    ensures k == -1 <==> forall j :: 0 <= j < |ds| ==> ds[j].Inf?
    ensures k != -1 ==> IsFirstMin(ds, k)
  {
    if ds == [] then -1
    else
      var k := FirstMin(ds[..|ds| - 1]);
      if k == -1 then (if ds[|ds| - 1].Fin? then |ds| - 1 else -1)
      else if Below(ds[|ds| - 1], ds[k]) then |ds| - 1
      else k
  }
}
