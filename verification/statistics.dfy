/** The rank-sum and U statistics computed from the pooled ranks. */
module Statistics {
  import opened Conformance
  import opened Pooling
  import opened Ranking

  /** The eight statistics the rank step reports, one field per key. */
  datatype Stats = Stats(
    n1: real, n2: real,
    u1: real, u2: real,
    r1: real, r2: real,
    meanr1: real, meanr2: real)

  /** The closed-form algebra that turns R1 and the sample sizes into the
      record. Both sizes are at least one after validation, so the two mean
      ranks are genuine quotients. */
  function Derive(r1: real, n1: nat, n2: nat): (s: Stats)
    requires n1 >= 1 && n2 >= 1
    ensures s.n1 == n1 as real && s.n2 == n2 as real && s.r1 == r1
    ensures s.u1 + s.u2 == s.n1 * s.n2
    ensures s.r1 - s.u1 == Triangle(n1) && s.r2 - s.u2 == Triangle(n2)
    ensures s.meanr1 * s.n1 == s.r1 && s.meanr2 * s.n2 == s.r2
  {
    var a := n1 as real;
    var b := n2 as real;
    var u1 := r1 - Triangle(n1);
    var u2 := a * b - u1;
    var r2 := u2 + Triangle(n2);
    Stats(a, b, u1, u2, r1, r2, r1 / a, r2 / b)
  }

  /** The statistics of two validated samples: pool, rank, sum the ranks of
      the first |x| positions, derive the rest. */
  function StatisticsOf(x: seq<real>, y: seq<real>): (s: Stats)
    requires |x| >= 1 && |y| >= 1
    ensures s.n1 == |x| as real && s.n2 == |y| as real
    ensures s.u1 + s.u2 == s.n1 * s.n2
    ensures s.r1 - s.u1 == Triangle(|x|) && s.r2 - s.u2 == Triangle(|y|)
  {
    var ranks := Ranks(Pool(x, y));
    Derive(Sum(ranks[..|x|]), |x|, |y|)
  }

  /** The rank step as the caller sees it: it validates the samples itself
      and fails exactly as validation does. */
  function MannWhitneyStatistics(x: Sample, y: Sample): (r: Result<Stats>)
    ensures r.Success? <==> Conforming(x, y)
    ensures r.Failure? ==> r == Failure(EnsureDataConformance(x, y).error)
    ensures r.Success? ==> r.value.n1 == |x.values| as real && r.value.n2 == |y.values| as real
  {
    match EnsureDataConformance(x, y)
    case Fail(e) => Failure(e)
    case Pass => Success(StatisticsOf(x.values, y.values))
  }

  /** R1 accumulated left to right over the first n1 ranks. */
  method AccumulateR1(ranks: seq<real>, n1: nat) returns (r1: real)
    requires n1 <= |ranks|
    ensures r1 == Sum(ranks[..n1])
  {
    r1 := 0.0;
    var i := 0;
    while i < n1
      invariant 0 <= i <= n1
      invariant r1 == Sum(ranks[..i])
    {
      assert ranks[..i + 1][..i] == ranks[..i];
      r1 := r1 + ranks[i];
      i := i + 1;
    }
  }

  /** Splitting 1..a+b into 1..a and a+1..a+b. */
  lemma {:induction false} TriangleSplit(a: nat, b: nat)
    ensures Triangle(a + b) == Triangle(a) + Triangle(b) + a as real * b as real
    decreases b
  {
    if b > 0 {
      TriangleSplit(a, b - 1);
      assert a as real * (b - 1) as real + a as real == a as real * b as real;
    }
  }

  /** The algebra behind R2: if R1 is one part of a rank sum of n(n+1)/2
      with n = n1 + n2, the R2 that mannWhitneyStatistics derives through U2 is the other
      part. */
  lemma DeriveComplement(r1: real, n1: nat, n2: nat, sy: real, n: nat)
    requires n1 >= 1 && n2 >= 1 && n == n1 + n2 && r1 + sy == Triangle(n)
    ensures Derive(r1, n1, n2).r2 == sy
  {
    TriangleSplit(n1, n2);
  }

  /** R1 is the rank sum of x's values, R2 (derived through U2) is the rank
      sum of y's values at pooled positions n1.., and the two together make
      up the rank sum n(n+1)/2 of the whole pool. */
  lemma RankSums(x: seq<real>, y: seq<real>)
    requires |x| >= 1 && |y| >= 1
    ensures StatisticsOf(x, y).r1 == Sum(RanksOf(x, Pool(x, y)))
    ensures StatisticsOf(x, y).r2 == Sum(RanksOf(y, Pool(x, y)))
    ensures StatisticsOf(x, y).r2 == Sum(Ranks(Pool(x, y))[|x|..])
    ensures StatisticsOf(x, y).r1 + StatisticsOf(x, y).r2 == Triangle(|Pool(x, y)|)
  {
    PoolRankSums(x, y);
    PoolRankTotal(x, y);
    DeriveComplement(Sum(Ranks(Pool(x, y))[..|x|]), |x|, |y|,
      Sum(RanksOf(y, Pool(x, y))), |Pool(x, y)|);
  }

  /** The pool's rank vector is the ranks of x's values followed by those
      of y's values. */
  lemma PoolRanks(x: seq<real>, y: seq<real>)
    ensures Ranks(Pool(x, y))[..|x|] == RanksOf(x, Pool(x, y))
    ensures Ranks(Pool(x, y))[|x|..] == RanksOf(y, Pool(x, y))
  {
    PoolRanksSplit(x, y);
  }

  /** Summing the pool's rank vector over the positions of x gives the
      pooled rank sum of x's values, and likewise for y. */
  lemma PoolRankSums(x: seq<real>, y: seq<real>)
    ensures Sum(Ranks(Pool(x, y))[..|x|]) == Sum(RanksOf(x, Pool(x, y)))
    ensures Sum(Ranks(Pool(x, y))[|x|..]) == Sum(RanksOf(y, Pool(x, y)))
  {
    PoolRanks(x, y);
  }

  /** Together the two samples' pooled rank sums make up n(n+1)/2. */
  lemma PoolRankTotal(x: seq<real>, y: seq<real>)
    ensures Sum(RanksOf(x, Pool(x, y))) + Sum(RanksOf(y, Pool(x, y)))
         == Triangle(|Pool(x, y)|)
  {
    PoolRanksSplit(x, y);
    SumOfParts(Pool(x, y), RanksOf(x, Pool(x, y)), RanksOf(y, Pool(x, y)));
  }

  /** If the rank vector of z splits into a and b, the two parts' sums add
      up to the rank sum of z. */
  lemma SumOfParts(z: seq<real>, a: seq<real>, b: seq<real>)
    requires Ranks(z) == a + b
    ensures Sum(a) + Sum(b) == Triangle(|z|)
  {
    RankSum(z);
    SumAppend(a, b);
  }

  lemma PoolRanksSplit(x: seq<real>, y: seq<real>)
    ensures Ranks(Pool(x, y)) == RanksOf(x, Pool(x, y)) + RanksOf(y, Pool(x, y))
  {
    RanksOfSplit(x, y, x + y);
  }

  /** Each U statistic lies between 0 and n1*n2: every value of x ranks at
      least as high in the pool as within x alone, and likewise for y. */
  lemma UBounds(x: seq<real>, y: seq<real>)
    requires |x| >= 1 && |y| >= 1
    ensures 0.0 <= StatisticsOf(x, y).u1 <= StatisticsOf(x, y).n1 * StatisticsOf(x, y).n2
    ensures 0.0 <= StatisticsOf(x, y).u2 <= StatisticsOf(x, y).n1 * StatisticsOf(x, y).n2
  {
    var s := StatisticsOf(x, y);
    RankSums(x, y);
    assert Triangle(|x|) <= s.r1 by {
      SumRanksGrow(x, x, y);
      RankSum(x);
    }
    assert Triangle(|y|) <= s.r2 by {
      RanksOfSwap(y, x, y);
      SumRanksGrow(y, y, x);
      RankSum(y);
    }
  }

  /** The identities every record of the rank step satisfies, together with
      the non-negativity of both U values; ConsistentUpper and
      ConsistentTotal derive the remaining bounds and the total. */
  predicate Consistent(s: Stats, n1: nat, n2: nat) {
    && s.n1 == n1 as real && s.n2 == n2 as real
    && s.u1 + s.u2 == s.n1 * s.n2
    && s.r1 - s.u1 == Triangle(n1) && s.r2 - s.u2 == Triangle(n2)
    && s.meanr1 * s.n1 == s.r1 && s.meanr2 * s.n2 == s.r2
    && 0.0 <= s.u1 && 0.0 <= s.u2
  }

  /** The rank step's record satisfies Consistent. */
  lemma StatisticsConsistent(x: seq<real>, y: seq<real>)
    requires |x| >= 1 && |y| >= 1
    ensures Consistent(StatisticsOf(x, y), |x|, |y|)
  {
    UBounds(x, y);
    StatisticsDerived(x, y);
    DerivedConsistent(StatisticsOf(x, y), |x|, |y|);
  }

  /** A record built by Derive with non-negative U values is consistent. */
  lemma DerivedConsistent(s: Stats, n1: nat, n2: nat)
    requires n1 >= 1 && n2 >= 1 && s == Derive(s.r1, n1, n2)
    requires 0.0 <= s.u1 && 0.0 <= s.u2
    ensures Consistent(s, n1, n2)
  {
  }

  /** The rank step's record is the one Derive builds from its R1. */
  lemma StatisticsDerived(x: seq<real>, y: seq<real>)
    requires |x| >= 1 && |y| >= 1
    ensures StatisticsOf(x, y) == Derive(StatisticsOf(x, y).r1, |x|, |y|)
  {
  }

  /** Neither U value exceeds n1*n2, since they add up to it. */
  lemma ConsistentUpper(s: Stats, n1: nat, n2: nat)
    requires Consistent(s, n1, n2)
    ensures s.u1 <= s.n1 * s.n2 && s.u2 <= s.n1 * s.n2
  {
  }

  /** The two rank sums add up to N(N+1)/2 for the pooled size N. */
  lemma ConsistentTotal(s: Stats, n1: nat, n2: nat)
    requires Consistent(s, n1, n2)
    ensures s.r1 + s.r2 == (s.n1 + s.n2) * (s.n1 + s.n2 + 1.0) / 2.0
  {
    ConsistentTriangle(s, n1, n2);
    ClosedTotal(s.r1 + s.r2, n1 + n2, s.n1, s.n2);
  }

  /** R1 + R2 = 1 + ... + (n1+n2). */
  lemma ConsistentTriangle(s: Stats, n1: nat, n2: nat)
    requires Consistent(s, n1, n2)
    ensures s.r1 + s.r2 == Triangle(n1 + n2)
  {
    TriangleSplit(n1, n2);
  }

  /** The closed form of the total rank sum, in terms of the sample sizes. */
  lemma ClosedTotal(t: real, k: nat, a: real, b: real)
    requires t == Triangle(k) && k as real == a + b
    ensures t == (a + b) * (a + b + 1.0) / 2.0
  {
    TriangleClosed(k);
  }

  /** The mean ranks lie between the smallest possible mean, (n+1)/2, and
      that value shifted by the other sample's size. */
  lemma MeanRankBounds(x: seq<real>, y: seq<real>)
    requires |x| >= 1 && |y| >= 1
    ensures var s := StatisticsOf(x, y);
      (s.n1 + 1.0) / 2.0 <= s.meanr1 <= (s.n1 + 1.0) / 2.0 + s.n2
    ensures var s := StatisticsOf(x, y);
      (s.n2 + 1.0) / 2.0 <= s.meanr2 <= (s.n2 + 1.0) / 2.0 + s.n1
  {
    StatisticsConsistent(x, y);
    FirstMean(StatisticsOf(x, y), |x|, |y|);
    SecondMean(StatisticsOf(x, y), |x|, |y|);
  }

  /** The bounds of MeanRankBounds for meanr1. */
  lemma FirstMean(s: Stats, n1: nat, n2: nat)
    requires n1 >= 1 && n2 >= 1 && Consistent(s, n1, n2)
    ensures (s.n1 + 1.0) / 2.0 <= s.meanr1 <= (s.n1 + 1.0) / 2.0 + s.n2
  {
    ConsistentUpper(s, n1, n2);
    MeanBetween(s.r1, s.u1, n1, s.n1, s.n2, s.n1 * s.n2, s.meanr1);
  }

  /** The bounds of MeanRankBounds for meanr2. */
  lemma SecondMean(s: Stats, n1: nat, n2: nat)
    requires n1 >= 1 && n2 >= 1 && Consistent(s, n1, n2)
    ensures (s.n2 + 1.0) / 2.0 <= s.meanr2 <= (s.n2 + 1.0) / 2.0 + s.n1
  {
    ConsistentUpper(s, n1, n2);
    MeanBetween(s.r2, s.u2, n2, s.n2, s.n1, s.n1 * s.n2, s.meanr2);
  }

  /** A mean rank is (n+1)/2 plus U/n, and U lies between 0 and n*m. */
  lemma MeanBetween(r: real, u: real, k: nat, n: real, m: real, prod: real, mean: real)
    requires k >= 1 && n == k as real && m >= 0.0 && prod == n * m
    requires r - u == Triangle(k) && 0.0 <= u <= prod && mean * n == r
    ensures (n + 1.0) / 2.0 <= mean <= (n + 1.0) / 2.0 + m
  {
    TriangleClosed(k);
    var mid := (n + 1.0) / 2.0;
    assert (mean - mid) * n == u;
    FactorSign(mean - mid, n);
    FactorSign(mid + m - mean, n);
  }

  /** A product with a positive factor has the sign of the other factor. */
  lemma FactorSign(p: real, n: real)
    requires n > 0.0 && p * n >= 0.0
    ensures p >= 0.0
  {
  }

  /** The record with the roles of the two samples exchanged. */
  function Swap(s: Stats): Stats {
    Stats(s.n2, s.n1, s.u2, s.u1, s.r2, s.r1, s.meanr2, s.meanr1)
  }

  /** Deriving from R2 with the sizes exchanged gives the exchanged record. */
  lemma DeriveSwap(r1: real, n1: nat, n2: nat)
    requires n1 >= 1 && n2 >= 1
    ensures Derive(Derive(r1, n1, n2).r2, n2, n1) == Swap(Derive(r1, n1, n2))
  {
    var s := Derive(r1, n1, n2);
    var t := Derive(s.r2, n2, n1);
    assert t.u1 == s.u2;
    assert t.r2 == s.r1;
  }

  /** Exchanging the samples exchanges U1 with U2, R1 with R2 and the mean
      ranks with each other. */
  lemma Symmetry(x: seq<real>, y: seq<real>)
    requires |x| >= 1 && |y| >= 1
    ensures StatisticsOf(y, x) == Swap(StatisticsOf(x, y))
  {
    var s := StatisticsOf(x, y);
    assert StatisticsOf(y, x).r1 == s.r2 by {
      RankSums(x, y);
      RankSums(y, x);
      RanksOfSwap(y, y, x);
    }
    assert StatisticsOf(y, x) == Derive(s.r2, |y|, |x|);
    DeriveSwap(s.r1, |x|, |y|);
  }

  /** The same exchange seen through validation: failures are unchanged and
      a success is swapped. */
  lemma StatisticsSymmetric(x: Sample, y: Sample)
    ensures MannWhitneyStatistics(y, x).Failure? == MannWhitneyStatistics(x, y).Failure?
    ensures MannWhitneyStatistics(x, y).Failure? ==>
      MannWhitneyStatistics(y, x).error == MannWhitneyStatistics(x, y).error
    ensures MannWhitneyStatistics(x, y).Success? ==>
      MannWhitneyStatistics(y, x).value == Swap(MannWhitneyStatistics(x, y).value)
  {
    ConformanceSymmetric(x, y);
    if Conforming(x, y) {
      Symmetry(x.values, y.values);
    }
  }
}
