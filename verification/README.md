# Mann-Whitney U test: a Dafny model

This project models `ExtendedMannWhitneyUTest`, a two-sample Mann-Whitney U
test that reports its intermediate statistics. The test:

- validates the two samples: a null reference is rejected before an empty array;
- pools them as x followed by y;
- ranks the pool with the natural ranking and the AVERAGE tie strategy;
- sums the ranks of the x positions into R1;
- derives U1, U2, R2 and the mean ranks from R1;
- takes Umin = min(U1, U2) and computes the normal-approximation p-value
  2·Φ((Umin − EU)/√VarU). The model uses the exact VarU; the 64-bit
  arithmetic of line 89 is modelled separately (see "## Findings");
- returns a map of ten named entries.

Modules, one per stage of the computation:

- `Conformance` (conformance.dfy) holds the input samples, which may be null (`Sample`), the
  error taxonomy and the validation step `EnsureDataConformance`.
- `Pooling` (pooling.dfy) joins the samples: `Pool`.
- `Ranking` (ranking.dfy) defines the ranking by counting. The rank of a value v in the pool is
  #{below v} + (#{equal to v} + 1)/2. This is the average of the 1-based
  positions that the tie group of v occupies once the pool is sorted
  (`RankIsMeanOfSpan`). `Triangle(n)` is the sum 1+2+…+n, whose closed
  form n(n+1)/2 is `TriangleClosed`.
- `Statistics` (statistics.dfy) contains the rank step `MannWhitneyStatistics`: R1, U1, U2, R2,
  meanr1 and meanr2 as the record `Stats`.
- `UTest` (utest.dfy) contains Umin, EU, VarU, the standard score, the p-value and the ten-key
  result map `MannWhitneyUTest`. The square root and the normal CDF are
  library calls whose code is not part of this model. They are passed in
  as the parameter `Numerics`, and the CDF may fail (`None`), which
  becomes the distribution failure. Doubles are modelled as exact reals.

## Model

| member | source | states |
|---|---|---|
| Conformance.EnsureDataConformance | ExtendedMannWhitneyUTest.java:23-34 | a null sample gives the null-argument error whatever the other sample is, so null is checked before empty; the no-data error happens exactly when both samples are present and one is empty; validation passes exactly for two present, non-empty samples; validation never reports a distribution failure |
| Conformance.ConformanceSymmetric | ExtendedMannWhitneyUTest.java:26-32 | validation gives the same outcome with the two samples exchanged |
| Pooling.Pool | ExtendedMannWhitneyUTest.java:36-43 | the pool has length \|x\|+\|y\|; position i < \|x\| holds x[i] and position \|x\|+j holds y[j] |
| Pooling.PoolBoundary | ExtendedMannWhitneyUTest.java:39-40 | cutting the pool at \|x\| gives back exactly x and y |
| Ranking.TriangleClosed | ExtendedMannWhitneyUTest.java:61-65 | 1+2+…+n = n(n+1)/2, the closed form the U and R2 formulas are written in |
| Ranking.RankIn | ExtendedMannWhitneyUTest.java:50 | a value v that occurs in the pool ranks between L+1 and L+E, the first and last sorted positions of its E copies after the L smaller values |
| Ranking.Ranks | ExtendedMannWhitneyUTest.java:50 | the rank vector has the pool's length and is aligned with the pool: entry i is the average-tie rank of z[i] among all pooled values |
| Ranking.RankSum | ExtendedMannWhitneyUTest.java:50 | the average-tie ranks of any pool of n values add up to 1+2+…+n, with or without ties |
| Ranking.RankBounds | ExtendedMannWhitneyUTest.java:50 | every rank lies between 1 and the pool size |
| Ranking.RankOrder | ExtendedMannWhitneyUTest.java:19-20 | equal values share a rank, and one value is smaller than another exactly when its rank is smaller |
| Ranking.RankIsMeanOfSpan | ExtendedMannWhitneyUTest.java:19-20 | every value is tied with at least itself, and its rank is the mean of the sorted positions L+1..L+E, where L values lie below it and E values equal it (the AVERAGE tie strategy) |
| Statistics.Derive | ExtendedMannWhitneyUTest.java:58-68 | the sizes and R1 are carried through; U1+U2 = n1·n2; R1−U1 = n1(n1+1)/2 and R2−U2 = n2(n2+1)/2; meanr1·n1 = R1 and meanr2·n2 = R2 |
| Statistics.StatisticsOf | ExtendedMannWhitneyUTest.java:49-68 | n1 and n2 are the sample sizes; U1+U2 = n1·n2; R1−U1 = 1+…+n1 and R2−U2 = 1+…+n2 |
| Statistics.MannWhitneyStatistics | ExtendedMannWhitneyUTest.java:45-81 | the rank step succeeds exactly for conforming samples, fails with the validation error otherwise, and on success reports the sample sizes as n1 and n2 |
| Statistics.AccumulateR1 | ExtendedMannWhitneyUTest.java:52-56 | the left-to-right loop computes the sum of the first n1 ranks |
| Statistics.DeriveComplement | ExtendedMannWhitneyUTest.java:61-65 | if R1 and some other sum together make up 1+…+(n1+n2), the R2 obtained through U2 is that other sum |
| Statistics.RankSums | ExtendedMannWhitneyUTest.java:49-65 | R1 is the sum of the pooled ranks of x's values; R2, derived through U2, is the sum of the pooled ranks of y's values, which sit at positions n1 onwards; R1+R2 = 1+…+N for the pool size N |
| Statistics.UBounds | ExtendedMannWhitneyUTest.java:61-63 | 0 ≤ U1 ≤ n1·n2 and 0 ≤ U2 ≤ n1·n2 |
| Statistics.MeanRankBounds | ExtendedMannWhitneyUTest.java:67-68 | (n1+1)/2 ≤ meanr1 ≤ (n1+1)/2 + n2, and likewise for meanr2 with the sizes exchanged |
| Statistics.Symmetry | ExtendedMannWhitneyUTest.java:49-68 | exchanging the samples exchanges n1/n2, U1/U2, R1/R2 and meanr1/meanr2 |
| Statistics.StatisticsSymmetric | ExtendedMannWhitneyUTest.java:45-81 | with the samples exchanged the rank step fails in the same way, or succeeds with the exchanged record |
| UTest.Umin | ExtendedMannWhitneyUTest.java:106 | Umin is at most U1 and at most U2, and it equals one of them |
| UTest.UminBelowExpected | ExtendedMannWhitneyUTest.java:86-106 | 0 ≤ Umin ≤ EU = n1·n2/2, so the numerator Umin − EU of the standard score is never positive |
| UTest.ExpectedU | ExtendedMannWhitneyUTest.java:88 | EU is non-negative and twice EU is n1·n2, the midpoint of the range of U |
| UTest.ExpectedAsWritten | ExtendedMannWhitneyUTest.java:86-88 | for int sample sizes the long product n1·n2 does not wrap, so EU as written equals the exact n1·n2/2 |
| UTest.ZScore | ExtendedMannWhitneyUTest.java:91 | with the exact VarU, the score times √VarU is Umin − EU, and the score is not positive when Umin ≤ EU |
| UTest.VarianceU | ExtendedMannWhitneyUTest.java:89 | VarU = n1·n2·(n1+n2+1)/12 is positive for non-empty samples when computed exactly |
| UTest.AsymptoticPValue | ExtendedMannWhitneyUTest.java:83-96 | the p-value fails exactly when the CDF fails at (Umin−EU)/√VarU, and otherwise equals twice the CDF there |
| UTest.ZScoreNonPositive | ExtendedMannWhitneyUTest.java:91 | with the exact VarU, the CDF is always evaluated at a standard score ≤ 0 |
| UTest.PValueInUnitInterval | ExtendedMannWhitneyUTest.java:95 | with the exact VarU, if the CDF gives values in [0, 1/2] on the non-positive half line, the reported p lies in [0, 1] |
| UTest.StatisticsRecord | ExtendedMannWhitneyUTest.java:70-78 | the rank step's map has exactly the eight keys n1, n2, U1, U2, R1, R2, meanr1 and meanr2, and each key holds the matching statistic |
| UTest.ResultRecord | ExtendedMannWhitneyUTest.java:110-111 | the result map has exactly the ten keys: the rank step's eight, which keep their entries, plus Umin and p holding the values added after the rank step |
| UTest.MannWhitneyUTest | ExtendedMannWhitneyUTest.java:98-114 | non-conforming samples fail with the validation error; a success has conforming samples and exactly the ten keys; on conforming samples the only failure is the distribution failure |
| UTest.UTestFailure | ExtendedMannWhitneyUTest.java:104-108 | on conforming samples the test fails exactly when the CDF fails at the standard score of Umin |
| UTest.UTestInvariants | ExtendedMannWhitneyUTest.java:98-114 | every map a successful test returns has n1 and n2 equal to the sample sizes, U1+U2 = n1·n2, R1 and R2 equal to the pooled rank sums of x's and y's values with R1+R2 = (n1+n2)(n1+n2+1)/2, meanr·n = R for both samples, 0 ≤ U1, U2 ≤ n1·n2 and 0 ≤ Umin ≤ n1·n2/2 |
| UTest.RecordInvariants | ExtendedMannWhitneyUTest.java:58-68 | in the result map, n1 and n2 are the sample sizes; U1+U2 = n1·n2; R1+R2 = (n1+n2)(n1+n2+1)/2; meanr·n = R for both samples; 0 ≤ U1, U2 ≤ n1·n2; 0 ≤ Umin ≤ n1·n2/2; R1 and R2 are the pooled rank sums of x's and y's values |
| UTest.UTestSymmetric | ExtendedMannWhitneyUTest.java:98-114 | exchanging the samples keeps the failure, Umin and p, and exchanges the paired entries of the map |
| UTest.WrapInt | ExtendedMannWhitneyUTest.java:89 | the int sum n1+n2+1 lies in the signed 32-bit range and is congruent to the exact sum modulo 2^32 (Java int arithmetic) |
| UTest.WrapLong | ExtendedMannWhitneyUTest.java:86 | the value lies in the signed 64-bit range and is congruent to its argument modulo 2^64 (Java long arithmetic) |
| UTest.VarianceUAsWritten | ExtendedMannWhitneyUTest.java:86-89 | while n1+n2+1 does not wrap as an int, 12·VarU as written is the exact product n1·n2·(n1+n2+1) reduced into the signed 64-bit range |
| UTest.VarianceAsWrittenExact | ExtendedMannWhitneyUTest.java:86-89 | while n1·n2·(n1+n2+1) stays below 2^63, the long arithmetic as written gives the exact variance |
| UTest.VarianceOverflow | ExtendedMannWhitneyUTest.java:89 | for n1 = n2 = 2,000,000 the variance as written is negative, although the exact variance is positive |

## Left out

- Signed zeros are one value in the model. `NaturalRanking` sorts and detects ties with `Double.compare`, which puts −0.0 strictly below +0.0. The model compares exact reals, where both are 0. Samples that mix −0.0 and +0.0 therefore rank differently. For example, x = [−0.0] and y = [+0.0] are ranked [1, 2] by `NaturalRanking`, giving R1 = 1 and U1 = 0. The model ranks them [1.5, 1.5], giving R1 = 1.5 and U1 = 0.5.
- NaN values are not modelled. The ranking is configured with `NaNStrategy.FIXED`, and samples are exact reals, which cannot be NaN.
- IEEE double rounding is not modelled; all arithmetic is exact. In particular R1 is an exact sum, and the long-to-double conversions at lines 86-89 are not modelled either.
- The sorting algorithm inside `NaturalRanking` is not modelled: its code is not part of this model. The ranking is given by its defining counts instead.
- `FastMath.sqrt` and `NormalDistribution.cumulativeProbability` are not part of this model. They are parameters (`Numerics`). `ConvergenceException` and `MaxCountExceededException` are one error, `DistributionFailure`.
- UTest.MannWhitneyUTest: it requires the square root to be positive on positive arguments (`SqrtPositive`), an assumption about the library function that `calculateAsymptoticPValue` relies on implicitly.
- UTest.MannWhitneyUTest: the p-value it reports is computed with the exact `VarianceU`, not with the long arithmetic of line 89. The two agree only while n1·n2·(n1+n2+1) < 2^63 and n1+n2+1 < 2^31 (`VarianceAsWrittenExact`). Beyond that the VarU of `calculateAsymptoticPValue` wraps: for n1 = n2 = 2,000,000 it is negative, `FastMath.sqrt` gives NaN and p is computed from a NaN score. The model reports twice the CDF at a finite score instead.
- UTest.AsymptoticPValue: it uses the exact `VarianceU`. This matches line 89 only while n1·n2·(n1+n2+1) < 2^63 and n1+n2+1 < 2^31 (`VarianceAsWrittenExact`). The wrapped, as-written variance is `VarianceUAsWritten`, and no p-value is derived from it.
- UTest.ZScore: the score is computed with the exact `VarianceU`. It agrees with lines 89-91 only while n1·n2·(n1+n2+1) < 2^63 and n1+n2+1 < 2^31 (`VarianceAsWrittenExact`). Beyond that VarU as written is negative for some sizes, and the score at line 91 is NaN.
- UTest.ZScoreNonPositive: a score ≤ 0 is proved for the exact-variance score only. Beyond the bounds of `VarianceAsWrittenExact`, line 95 can evaluate the CDF at NaN instead, for example for n1 = n2 = 2,000,000.
- UTest.PValueInUnitInterval: the proof relies on the exact-variance score being ≤ 0 (`ZScoreNonPositive`). It therefore covers line 95 only within the bounds of `VarianceAsWrittenExact`.
- UTest.PValueInUnitInterval: p ∈ [0, 1] is proved only under the stated assumption `LowerHalfCdf` about the CDF parameter, because the CDF itself is not modelled.
- The result map is a Dafny `map`; the key ordering that `TreeMap` provides is not modelled.
- Exceptions are values of `Error` rather than thrown objects.
- The validation is performed twice, at line 102 in `mannWhitneyUTest` and at line 47 in `mannWhitneyStatistics`. Both calls see the same samples, so the model folds them into one match on the rank step's outcome.
- The failure at line 37 is not modelled. Two input arrays of about 1.1·10^9 doubles each can exist on a large heap. Their lengths' int sum then wraps to a negative value, and the allocation throws `NegativeArraySizeException`. The model's `Pool` returns x + y for every pair of samples and never produces that error.
- The constructor at lines 18-21 is not a separate member. Its only effect is the choice of ranking, which the `Ranking` module fixes.

## Findings

| source | as written | input that shows it | evidently intended | confidence | as-written member | corrected member |
|---|---|---|---|---|---|---|
| ExtendedMannWhitneyUTest.java:89 | `n1n2prod * (n1 + n2 + 1)` is a long times an int, evaluated in 64-bit long arithmetic before the division by 12.0 | n1 = n2 = 2,000,000: the product 16,000,004,000,000,000,000 exceeds 2^63−1 and wraps to −2,446,740,073,709,551,616, so VarU is negative and its square root is NaN | the exact n1·n2·(n1+n2+1)/12, which is positive for non-empty samples (for example, computed in double) | not executed; follows from Java's long overflow semantics | UTest.VarianceUAsWritten | UTest.VarianceU |
