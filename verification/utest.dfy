/** The public test: Umin, the normal approximation and the result map. */
module UTest {
  import opened Conformance
  import opened Pooling
  import opened Ranking
  import opened Statistics

  /** The smaller of the two U statistics. */
  function Umin(s: Stats): (m: real)
    ensures m <= s.u1 && m <= s.u2
    ensures m == s.u1 || m == s.u2
  {
    if s.u1 <= s.u2 then s.u1 else s.u2
  }

  /** Mean of U under the null hypothesis, n1*n2/2: the midpoint of the
      range [0, n1*n2] in which both U values lie. */
  function ExpectedU(n1: nat, n2: nat): (e: real)
    ensures 0.0 <= e && 2.0 * e == n1 as real * n2 as real
  {
    (n1 * n2) as real / 2.0
  }

  /** Variance of U under the null hypothesis, n1*n2*(n1+n2+1)/12, without a
      tie correction; computed exactly. */
  function VarianceU(n1: nat, n2: nat): (v: real)
    ensures n1 >= 1 && n2 >= 1 ==> v > 0.0
  {
    (n1 * n2) as real * (n1 + n2 + 1) as real / 12.0
  }

  /** The two library primitives the p-value rests on: a square root and
      the standard normal CDF, which can fail to converge (None). */
  datatype Numerics = Numerics(sqrt: real -> real, cdf: real -> Option<real>)

  /** The square root is positive on positive arguments. */
  ghost predicate SqrtPositive(num: Numerics) {
    forall v :: v > 0.0 ==> num.sqrt(v) > 0.0
  }

  /** The standard score (Umin - EU) / sqrt(VarU): the distance of Umin
      from EU in standard deviations, so it is not positive when Umin is
      at most EU. */
  function ZScore(umin: real, n1: nat, n2: nat, num: Numerics): (z: real)
    requires n1 >= 1 && n2 >= 1 && SqrtPositive(num)
    ensures z * num.sqrt(VarianceU(n1, n2)) == umin - ExpectedU(n1, n2)
    ensures umin <= ExpectedU(n1, n2) ==> z <= 0.0
  {
    (umin - ExpectedU(n1, n2)) / num.sqrt(VarianceU(n1, n2))
  }

  /** Twice the CDF at the standard score; a CDF failure is passed on. */
  function AsymptoticPValue(umin: real, n1: nat, n2: nat, num: Numerics): (p: Option<real>)
    requires n1 >= 1 && n2 >= 1 && SqrtPositive(num)
    ensures p.None? <==> num.cdf(ZScore(umin, n1, n2, num)).None?
    ensures p.Some? ==> p.value == 2.0 * num.cdf(ZScore(umin, n1, n2, num)).value
  {
    match num.cdf(ZScore(umin, n1, n2, num))
    case None => None
    case Some(c) => Some(2.0 * c)
  }

  /** The eight keys of the rank step's map. */
  const StatisticsKeys: set<string> :=
    {"n1", "n2", "U1", "U2", "R1", "R2", "meanr1", "meanr2"}

  /** The ten keys of the result map. */
  const ResultKeys: set<string> :=
    {"n1", "n2", "U1", "U2", "R1", "R2", "meanr1", "meanr2", "Umin", "p"}

  /** The rank step's map: one key per statistic of the record. */
  function StatisticsRecord(s: Stats): (m: map<string, real>)
    ensures m.Keys == StatisticsKeys
    ensures m["n1"] == s.n1 && m["n2"] == s.n2
    ensures m["U1"] == s.u1 && m["U2"] == s.u2
    ensures m["R1"] == s.r1 && m["R2"] == s.r2
    ensures m["meanr1"] == s.meanr1 && m["meanr2"] == s.meanr2
  {
    map[
      "n1" := s.n1, "n2" := s.n2,
      "U1" := s.u1, "U2" := s.u2,
      "R1" := s.r1, "R2" := s.r2,
      "meanr1" := s.meanr1, "meanr2" := s.meanr2]
  }

  /** The result map: the rank step's map with Umin and p added. The eight
      rank-step entries are left as they are. */
  function ResultRecord(s: Stats, umin: real, p: real): (m: map<string, real>)
    ensures m.Keys == ResultKeys
    ensures forall k :: k in StatisticsKeys ==> m[k] == StatisticsRecord(s)[k]
    ensures m["n1"] == s.n1 && m["n2"] == s.n2
    ensures m["U1"] == s.u1 && m["U2"] == s.u2
    ensures m["R1"] == s.r1 && m["R2"] == s.r2
    ensures m["meanr1"] == s.meanr1 && m["meanr2"] == s.meanr2
    ensures m["Umin"] == umin && m["p"] == p
  {
    StatisticsRecord(s)["Umin" := umin]["p" := p]
  }

  /** The test's outcome once the statistics and the p-value are known. */
  function Assemble(s: Stats, q: Option<real>): (r: Result<map<string, real>>)
    ensures r.Success? <==> q.Some?
    ensures r.Failure? ==> r.error == DistributionFailure
    ensures r.Success? ==> r.value == ResultRecord(s, Umin(s), q.value)
  {
    match q
    case None => Failure(DistributionFailure)
    case Some(p) => Success(ResultRecord(s, Umin(s), p))
  }

  /** The test. The samples are validated on entry and again by the rank
      step; the second check sees the same samples, so one match on the
      rank step's outcome covers both. */
  function MannWhitneyUTest(x: Sample, y: Sample, num: Numerics): (r: Result<map<string, real>>)
    requires SqrtPositive(num)
    ensures !Conforming(x, y) ==> r == Failure(EnsureDataConformance(x, y).error)
    ensures r.Success? ==> Conforming(x, y) && r.value.Keys == ResultKeys
    ensures Conforming(x, y) && r.Failure? ==> r.error == DistributionFailure
  {
    match MannWhitneyStatistics(x, y)
    case Failure(e) => Failure(e)
    case Success(s) => Assemble(s, AsymptoticPValue(Umin(s), |x.values|, |y.values|, num))
  }

  // ---------------------------------------------------------------------
  // Properties of Umin and the standard score

  /** Umin never exceeds EU = n1*n2/2, so the standard score's numerator is
      never positive. */
  lemma UminBelowExpected(x: seq<real>, y: seq<real>)
    requires |x| >= 1 && |y| >= 1
    ensures 0.0 <= Umin(StatisticsOf(x, y)) <= ExpectedU(|x|, |y|)
    ensures Umin(StatisticsOf(x, y)) - ExpectedU(|x|, |y|) <= 0.0
    ensures Umin(StatisticsOf(x, y)) <= StatisticsOf(x, y).n1 * StatisticsOf(x, y).n2 / 2.0
  {
    var s := StatisticsOf(x, y);
    UBounds(x, y);
    assert s.n1 * s.n2 == (|x| * |y|) as real;
  }

  lemma NonPositiveQuotient(a: real, b: real)
    requires a <= 0.0 && b > 0.0
    ensures a / b <= 0.0
  {
  }

  /** The CDF is always evaluated at a non-positive standard score, which
      is what lets twice its value serve as the two-sided p-value. */
  lemma ZScoreNonPositive(x: seq<real>, y: seq<real>, num: Numerics)
    requires |x| >= 1 && |y| >= 1 && SqrtPositive(num)
    ensures ZScore(Umin(StatisticsOf(x, y)), |x|, |y|, num) <= 0.0
  {
    UminBelowExpected(x, y);
    NonPositiveQuotient(
      Umin(StatisticsOf(x, y)) - ExpectedU(|x|, |y|),
      num.sqrt(VarianceU(|x|, |y|)));
  }

  /** The CDF yields values in [0, 1/2] at non-positive arguments. */
  ghost predicate LowerHalfCdf(num: Numerics) {
    forall z :: z <= 0.0 && num.cdf(z).Some? ==> 0.0 <= num.cdf(z).value <= 0.5
  }

  /** Given a CDF that behaves as one on the lower half line, the reported p
      lies in [0, 1]. */
  lemma PValueInUnitInterval(x: Sample, y: Sample, num: Numerics)
    requires SqrtPositive(num) && LowerHalfCdf(num)
    ensures MannWhitneyUTest(x, y, num).Success? ==>
      0.0 <= MannWhitneyUTest(x, y, num).value["p"] <= 1.0
  {
    if Conforming(x, y) {
      ZScoreNonPositive(x.values, y.values, num);
    }
  }

  // ---------------------------------------------------------------------
  // Properties of the whole test

  /** The result map of the rank step's statistics for samples x and y and
      a p-value p. */
  function RecordOf(x: seq<real>, y: seq<real>, p: real): map<string, real>
    requires |x| >= 1 && |y| >= 1
  {
    ResultRecord(StatisticsOf(x, y), Umin(StatisticsOf(x, y)), p)
  }

  /** On conforming samples the test fails exactly when the CDF fails at
      the standard score of Umin. */
  lemma UTestFailure(x: Sample, y: Sample, num: Numerics)
    requires SqrtPositive(num) && Conforming(x, y)
    ensures MannWhitneyUTest(x, y, num).Failure? <==>
      num.cdf(ZScore(Umin(StatisticsOf(x.values, y.values)), |x.values|, |y.values|, num)).None?
  {
    var s := StatisticsOf(x.values, y.values);
    assert MannWhitneyStatistics(x, y) == Success(s);
  }

  /** A successful result is the rank step's record, as the rank step
      computes it, completed with Umin and with p as twice the CDF at the
      standard score. */
  lemma UTestResult(x: Sample, y: Sample, num: Numerics)
    requires SqrtPositive(num)
    ensures var r := MannWhitneyUTest(x, y, num);
      r.Success? ==>
        var s := StatisticsOf(x.values, y.values);
        r.value == ResultRecord(s, Umin(s),
          2.0 * num.cdf(ZScore(Umin(s), |x.values|, |y.values|, num)).value)
  {
    if Conforming(x, y) {
      var s := StatisticsOf(x.values, y.values);
      assert MannWhitneyStatistics(x, y) == Success(s);
    }
  }

  /** Every result map satisfies U1 + U2 = n1*n2 and R1 + R2 = n(n+1)/2,
      its mean ranks recover R1 and R2, both U lie in [0, n1*n2] and Umin
      in [0, n1*n2/2], and R1 and R2 are the pooled rank sums of x's and
      y's values. */
  lemma RecordInvariants(m: map<string, real>, x: seq<real>, y: seq<real>, p: real)
    requires |x| >= 1 && |y| >= 1 && m == RecordOf(x, y, p)
    ensures m["n1"] == |x| as real && m["n2"] == |y| as real
    ensures m["U1"] + m["U2"] == m["n1"] * m["n2"]
    ensures m["R1"] + m["R2"] == (m["n1"] + m["n2"]) * (m["n1"] + m["n2"] + 1.0) / 2.0
    ensures m["meanr1"] * m["n1"] == m["R1"]
    ensures m["meanr2"] * m["n2"] == m["R2"]
    ensures 0.0 <= m["U1"] <= m["n1"] * m["n2"]
    ensures 0.0 <= m["U2"] <= m["n1"] * m["n2"]
    ensures 0.0 <= m["Umin"] <= m["n1"] * m["n2"] / 2.0
    ensures m["R1"] == Sum(RanksOf(x, Pool(x, y)))
    ensures m["R2"] == Sum(RanksOf(y, Pool(x, y)))
    ensures ResultInvariants(m, x, y)
  {
    StatisticsConsistent(x, y);
    RecordArith(m, StatisticsOf(x, y), |x|, |y|, p);
    RankSums(x, y);
  }

  /** The map-level facts follow from the same facts about the record the
      map is built from. */
  lemma RecordArith(m: map<string, real>, s: Stats, n1: nat, n2: nat, p: real)
    requires Consistent(s, n1, n2) && m == ResultRecord(s, Umin(s), p)
    ensures m["n1"] == n1 as real && m["n2"] == n2 as real
    ensures m["U1"] + m["U2"] == m["n1"] * m["n2"]
    ensures m["R1"] + m["R2"] == (m["n1"] + m["n2"]) * (m["n1"] + m["n2"] + 1.0) / 2.0
    ensures m["meanr1"] * m["n1"] == m["R1"]
    ensures m["meanr2"] * m["n2"] == m["R2"]
    ensures 0.0 <= m["U1"] <= m["n1"] * m["n2"]
    ensures 0.0 <= m["U2"] <= m["n1"] * m["n2"]
    ensures 0.0 <= m["Umin"] <= m["n1"] * m["n2"] / 2.0
  {
    ConsistentUpper(s, n1, n2);
    ConsistentTotal(s, n1, n2);
    assert m["n1"] == s.n1 && m["n2"] == s.n2;
    assert m["U1"] == s.u1 && m["U2"] == s.u2;
    assert m["R1"] == s.r1 && m["R2"] == s.r2;
    assert m["meanr1"] == s.meanr1 && m["meanr2"] == s.meanr2;
    assert m["Umin"] == Umin(s);
  }

  /** A successful result is the record of the rank step's statistics,
      completed with Umin and the p-value it reports. */
  lemma UTestRecord(x: Sample, y: Sample, num: Numerics) returns (p: real)
    requires SqrtPositive(num)
    ensures MannWhitneyUTest(x, y, num).Success? ==>
      && Conforming(x, y)
      && MannWhitneyUTest(x, y, num).value == RecordOf(x.values, y.values, p)
  {
    UTestResult(x, y, num);
    p := if MannWhitneyUTest(x, y, num).Success? then MannWhitneyUTest(x, y, num).value["p"] else 0.0;
  }

  /** The invariants of a result map for samples x and y: n1 and n2 are
      the sample sizes, U1 + U2 = n1*n2, R1 and R2 are the pooled rank sums
      of x's and y's values and together make n(n+1)/2, the mean ranks
      recover R1 and R2, both U lie in [0, n1*n2] and Umin in
      [0, n1*n2/2]. */
  ghost predicate ResultInvariants(m: map<string, real>, x: seq<real>, y: seq<real>) {
    && ResultKeys <= m.Keys
    && m["n1"] == |x| as real && m["n2"] == |y| as real
    && m["U1"] + m["U2"] == m["n1"] * m["n2"]
    && m["R1"] == Sum(RanksOf(x, Pool(x, y)))
    && m["R2"] == Sum(RanksOf(y, Pool(x, y)))
    && m["R1"] + m["R2"] == (m["n1"] + m["n2"]) * (m["n1"] + m["n2"] + 1.0) / 2.0
    && m["meanr1"] * m["n1"] == m["R1"] && m["meanr2"] * m["n2"] == m["R2"]
    && 0.0 <= m["U1"] <= m["n1"] * m["n2"] && 0.0 <= m["U2"] <= m["n1"] * m["n2"]
    && 0.0 <= m["Umin"] <= m["n1"] * m["n2"] / 2.0
  }

  /** Every map a successful test returns satisfies ResultInvariants. */
  lemma UTestInvariants(x: Sample, y: Sample, num: Numerics)
    requires SqrtPositive(num)
    ensures MannWhitneyUTest(x, y, num).Success? ==>
      ResultInvariants(MannWhitneyUTest(x, y, num).value, x.values, y.values)
  {
    var p := UTestRecord(x, y, num);
    if MannWhitneyUTest(x, y, num).Success? {
      RecordInvariants(MannWhitneyUTest(x, y, num).value, x.values, y.values, p);
    }
  }

  /** Exchanging the samples changes neither the outcome nor Umin nor p; it
      only exchanges n1 with n2, U1 with U2, R1 with R2 and the mean ranks. */
  lemma UTestSymmetric(x: Sample, y: Sample, num: Numerics)
    requires SqrtPositive(num)
    ensures MannWhitneyUTest(y, x, num).Failure? == MannWhitneyUTest(x, y, num).Failure?
    ensures MannWhitneyUTest(x, y, num).Failure? ==>
      MannWhitneyUTest(y, x, num).error == MannWhitneyUTest(x, y, num).error
    ensures MannWhitneyUTest(x, y, num).Success? ==>
      var m := MannWhitneyUTest(x, y, num).value;
      var m' := MannWhitneyUTest(y, x, num).value;
      && m'["Umin"] == m["Umin"] && m'["p"] == m["p"]
      && m'["n1"] == m["n2"] && m'["n2"] == m["n1"]
      && m'["U1"] == m["U2"] && m'["U2"] == m["U1"]
      && m'["R1"] == m["R2"] && m'["R2"] == m["R1"]
      && m'["meanr1"] == m["meanr2"] && m'["meanr2"] == m["meanr1"]
  {
    ConformanceSymmetric(x, y);
    if Conforming(x, y) {
      var s := StatisticsOf(x.values, y.values);
      var q := AsymptoticPValue(Umin(s), |x.values|, |y.values|, num);
      Symmetry(x.values, y.values);
      UminSwap(s);
      PValueSymmetric(Umin(s), |x.values|, |y.values|, num);
      assert MannWhitneyUTest(x, y, num) == Assemble(s, q);
      assert MannWhitneyUTest(y, x, num) == Assemble(Swap(s), q);
      if q.Some? {
        RecordSwap(s, Umin(s), q.value);
      }
    }
  }

  /** Umin does not depend on the order of U1 and U2. */
  lemma UminSwap(s: Stats)
    ensures Umin(Swap(s)) == Umin(s)
  {
  }

  /** The p-value does not depend on the order of the sample sizes. */
  lemma PValueSymmetric(umin: real, n1: nat, n2: nat, num: Numerics)
    requires n1 >= 1 && n2 >= 1 && SqrtPositive(num)
    ensures AsymptoticPValue(umin, n2, n1, num) == AsymptoticPValue(umin, n1, n2, num)
  {
    assert ExpectedU(n2, n1) == ExpectedU(n1, n2);
    assert VarianceU(n2, n1) == VarianceU(n1, n2);
  }

  /** The record of the exchanged statistics is the record with its entries
      for the two samples exchanged. */
  lemma RecordSwap(s: Stats, umin: real, p: real)
    ensures var m := ResultRecord(s, umin, p);
      var m' := ResultRecord(Swap(s), umin, p);
      && m'["Umin"] == m["Umin"] && m'["p"] == m["p"]
      && m'["n1"] == m["n2"] && m'["n2"] == m["n1"]
      && m'["U1"] == m["U2"] && m'["U2"] == m["U1"]
      && m'["R1"] == m["R2"] && m'["R2"] == m["R1"]
      && m'["meanr1"] == m["meanr2"] && m'["meanr2"] == m["meanr1"]
  {
  }

  // ---------------------------------------------------------------------
  // EU and VarU as calculateAsymptoticPValue computes them, in Java's int
  // and long arithmetic

  /** Java's int and long arithmetic: results wrap around modulo 2^32 and
      2^64 into the signed range. */
  function WrapInt(v: int): (w: int)
    ensures -0x8000_0000 <= w < 0x8000_0000
    ensures (w - v) % 0x1_0000_0000 == 0
  {
    var m := v % 0x1_0000_0000;
    if m >= 0x8000_0000 then m - 0x1_0000_0000 else m
  }

  function WrapLong(v: int): (w: int)
    ensures -0x8000_0000_0000_0000 <= w < 0x8000_0000_0000_0000
    ensures (w - v) % 0x1_0000_0000_0000_0000 == 0
  {
    var m := v % 0x1_0000_0000_0000_0000;
    if m >= 0x8000_0000_0000_0000 then m - 0x1_0000_0000_0000_0000 else m
  }

  /** The variance as written: the long product n1*n2 is multiplied by the
      int n1+n2+1 in long arithmetic before the division by 12.0. While the
      int sum does not wrap, the numerator is the exact product
      n1*n2*(n1+n2+1) reduced into the signed 64-bit range. */
  function VarianceUAsWritten(n1: nat, n2: nat): (v: real)
    requires n1 < 0x8000_0000 && n2 < 0x8000_0000
    ensures n1 + n2 + 1 < 0x8000_0000 ==>
      v * 12.0 == WrapLong(n1 * n2 * (n1 + n2 + 1)) as real
  {
    var prod := WrapLong(n1 * n2);
    var w := WrapLong(prod * WrapInt(n1 + n2 + 1));
    ProductFits(n1, n2);
    WrapLongSmall(n1 * n2);
    WrapIntSmall(n1 + n2 + 1);
    w as real / 12.0
  }

  /** Two int factors give a product below 2^62, so n1*n2 never wraps. */
  lemma ProductFits(n1: nat, n2: nat)
    requires n1 < 0x8000_0000 && n2 < 0x8000_0000
    ensures n1 * n2 < 0x4000_0000_0000_0000
  {
    MulMonotone(n1, n2, 0x8000_0000);
  }

  lemma MulMonotone(a: nat, b: nat, c: nat)
    requires b <= c
    ensures a * b <= a * c
  {
    var d := c - b;
    assert a * c == a * b + a * d;
  }

  lemma WrapIntSmall(v: int)
    ensures 0 <= v < 0x8000_0000 ==> WrapInt(v) == v
  {
  }

  lemma WrapLongSmall(v: int)
    requires 0 <= v < 0x8000_0000_0000_0000
    ensures WrapLong(v) == v
  {
  }

  /** EU as written: the long product n1*n2 divided by 2.0. For int sizes
      the product fits in a long, so EU is exact. */
  lemma ExpectedAsWritten(n1: nat, n2: nat)
    requires n1 < 0x8000_0000 && n2 < 0x8000_0000
    ensures WrapLong(n1 * n2) as real / 2.0 == ExpectedU(n1, n2)
  {
    ProductFits(n1, n2);
    WrapLongSmall(n1 * n2);
  }

  /** Below 2^63 for the product the as-written variance is the exact one. */
  lemma VarianceAsWrittenExact(n1: nat, n2: nat)
    requires n1 < 0x8000_0000 && n2 < 0x8000_0000 && n1 + n2 + 1 < 0x8000_0000
    requires n1 * n2 * (n1 + n2 + 1) < 0x8000_0000_0000_0000
    ensures VarianceUAsWritten(n1, n2) == VarianceU(n1, n2)
  {
    assert n1 * n2 < 0x8000_0000_0000_0000;
    WrapLongSmall(n1 * n2);
    WrapLongSmall(n1 * n2 * (n1 + n2 + 1));
  }

  /** Two samples of two million values each: the 64-bit product wraps to a
      negative number and the as-written variance is negative, while the
      exact variance is positive. */
  lemma VarianceOverflow()
    ensures VarianceUAsWritten(2000000, 2000000) < 0.0
    ensures VarianceU(2000000, 2000000) > 0.0
  {
    assert 2000000 * 2000000 * 4000001 == 16000004000000000000;
    assert WrapLong(16000004000000000000) == -2446740073709551616;
  }
}
