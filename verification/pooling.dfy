/** Pooling of the two samples into the one sequence that gets ranked. */
module Pooling {

  /** The samples joined as x then y; positions below |x| belong to x and
      the rest to y, in their original order. */
  function Pool(x: seq<real>, y: seq<real>): (z: seq<real>)
    ensures |z| == |x| + |y|
    ensures forall i {:trigger z[i]} :: 0 <= i < |x| ==> z[i] == x[i]
    ensures forall i {:trigger z[i]} :: |x| <= i < |z| ==> z[i] == y[i - |x|]
  {
    x + y
  }

  /** Cutting the pool at |x| gives back exactly the two samples. */
  lemma PoolBoundary(x: seq<real>, y: seq<real>)
    ensures Pool(x, y)[..|x|] == x
    ensures Pool(x, y)[|x|..] == y
  {
  }
}
