/** The bounds check shared by every coordinate test of the engine. */
module Utils {

  /** True iff every number of `ns` lies in the closed interval [min, max].
      The numbers are scanned left to right and the first one outside the
      interval answers false; an empty list answers true. */
  function InRange(min: int, max: int, ns: seq<int>): (r: bool)
    ensures r <==> forall i :: 0 <= i < |ns| ==> min <= ns[i] <= max
    ensures |ns| == 0 ==> r
    ensures min > max && |ns| > 0 ==> !r
  {
    if |ns| == 0 then true
    else if ns[0] < min || ns[0] > max then false
    else InRange(min, max, ns[1..])
  }
}
