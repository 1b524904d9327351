/** Input arguments, error taxonomy and the validation step that every entry
    point of the test runs before touching the samples. */
module Conformance {

  /** A sample as the caller hands it over: a reference to an array of
      doubles, which may be null. Values are modelled as exact reals. */
  datatype Sample = Null | Array(values: seq<real>)

  /** The failures the test can raise. */
  datatype Error =
    | NullArgument         // a sample reference is null
    | NoData               // a sample has no elements
    | DistributionFailure  // the normal CDF did not converge or hit its iteration bound

  datatype Result<+T> = Success(value: T) | Failure(error: Error)

  datatype Option<+T> = None | Some(value: T)

  /** Outcome of validation: it either lets the computation proceed or raises. */
  datatype Outcome = Pass | Fail(error: Error)

  /** Both samples are present and each holds at least one value. */
  predicate Conforming(x: Sample, y: Sample) {
    x.Array? && y.Array? && |x.values| >= 1 && |y.values| >= 1
  }

  /** Null references are rejected before emptiness is looked at, so a null
      sample wins over an empty one whichever argument each is. */
  function EnsureDataConformance(x: Sample, y: Sample): (r: Outcome)
    ensures r == Fail(NullArgument) <==> x.Null? || y.Null?
    ensures r == Fail(NoData) <==> x.Array? && y.Array? && (|x.values| == 0 || |y.values| == 0)
    ensures r == Pass <==> Conforming(x, y)
    ensures r.Fail? ==> r.error != DistributionFailure
  {
    if x.Null? || y.Null? then Fail(NullArgument)
    else if |x.values| == 0 || |y.values| == 0 then Fail(NoData)
    else Pass
  }

  /** Validation does not depend on the order of the two samples. */
  lemma ConformanceSymmetric(x: Sample, y: Sample)
    ensures EnsureDataConformance(y, x) == EnsureDataConformance(x, y)
  {
  }
}
