/** Natural ranking with the AVERAGE tie strategy, specified by counting.

    Sorting the pool ascending and numbering it 1..n puts the elements equal
    to a value v at the consecutive positions just after the elements below
    v. Averaging those positions gives every such element the rank
      #{elements below v} + (#{elements equal to v} + 1) / 2,
    which is how this module defines the ranking. */
module Ranking {

  /** How an element compares to a reference value. */
  datatype Cmp = Below | Tied | Above

  function Compare(a: real, v: real): Cmp {
    if a < v then Below else if a == v then Tied else Above
  }

  /** Number of elements of s that compare to v as c. */
  function Count(s: seq<real>, v: real, c: Cmp): (k: nat)
    ensures k <= |s|
  {
    if |s| == 0 then 0
    else Count(s[..|s| - 1], v, c) + (if Compare(s[|s| - 1], v) == c then 1 else 0)
  }

  /** Rank that a value v receives within the pool z. When v occurs in z,
      the rank lies between the first and the last of the sorted positions
      L+1..L+E that the E copies of v occupy after the L smaller values. */
  function RankIn(z: seq<real>, v: real): (r: real)
    ensures Count(z, v, Tied) >= 1 ==>
      Count(z, v, Below) as real + 1.0 <= r <= (Count(z, v, Below) + Count(z, v, Tied)) as real
  {
    Count(z, v, Below) as real + (Count(z, v, Tied) as real + 1.0) / 2.0
  }

  /** Ranks, within the pool z, of the values of w, index for index. */
  function RanksOf(w: seq<real>, z: seq<real>): (r: seq<real>)
    ensures |r| == |w|
    ensures forall i {:trigger r[i]} :: 0 <= i < |w| ==> r[i] == RankIn(z, w[i])
  {
    seq(|w|, i requires 0 <= i < |w| => RankIn(z, w[i]))
  }

  /** The rank vector of z, aligned with z (not in sorted order). */
  function Ranks(z: seq<real>): (r: seq<real>)
    ensures |r| == |z|
    ensures forall i {:trigger r[i]} :: 0 <= i < |z| ==> r[i] == RankIn(z, z[i])
  {
    RanksOf(z, z)
  }

  /** Left-to-right sum, in the order mannWhitneyStatistics accumulates R1. */
  function Sum(s: seq<real>): real {
    if |s| == 0 then 0.0 else Sum(s[..|s| - 1]) + s[|s| - 1]
  }

  /** 1 + 2 + ... + n, the sum of the ranks 1..n; TriangleClosed gives its
      closed form n(n+1)/2. */
  function Triangle(n: nat): real {
    if n == 0 then 0.0 else Triangle(n - 1) + n as real
  }

  /** Sum of the consecutive positions lo+1, ..., lo+cnt. */
  function SpanSum(lo: nat, cnt: nat): nat {
    if cnt == 0 then 0 else SpanSum(lo, cnt - 1) + lo + cnt
  }

  /** Mean of the consecutive positions lo+1, ..., lo+cnt. */
  function SpanMean(lo: nat, cnt: nat): real
    requires cnt >= 1
  {
    SpanSum(lo, cnt) as real / cnt as real
  }

  // ---------------------------------------------------------------------
  // Counting facts

  lemma {:induction false} CountAppend(a: seq<real>, b: seq<real>, v: real, c: Cmp)
    ensures Count(a + b, v, c) == Count(a, v, c) + Count(b, v, c)
    decreases |b|
  {
    if |b| == 0 {
      assert a + b == a;
    } else {
      var b' := b[..|b| - 1];
      assert (a + b)[..|a + b| - 1] == a + b';
      assert (a + b)[|a + b| - 1] == b[|b| - 1];
      CountAppend(a, b', v, c);
    }
  }

  lemma CountSingleton(a: real, v: real, c: Cmp)
    ensures Count([a], v, c) == if Compare(a, v) == c then 1 else 0
  {
    assert [a][..0] == [];
  }

  /** Every element is below, tied with or above v. */
  lemma {:induction false} CountPartition(s: seq<real>, v: real)
    ensures Count(s, v, Below) + Count(s, v, Tied) + Count(s, v, Above) == |s|
    decreases |s|
  {
    if |s| > 0 {
      CountPartition(s[..|s| - 1], v);
    }
  }

  /** An element of s is tied with itself. */
  lemma CountTiedMember(s: seq<real>, i: int)
    requires 0 <= i < |s|
    ensures Count(s, s[i], Tied) >= 1
  {
    var p := s[..i + 1];
    assert s == p + s[i + 1..];
    CountAppend(p, s[i + 1..], s[i], Tied);
    assert p[..|p| - 1] == s[..i];
    assert p[|p| - 1] == s[i];
  }

  /** Whatever is below or tied with v is below a larger w. */
  lemma {:induction false} CountOrder(s: seq<real>, v: real, w: real)
    requires v < w
    ensures Count(s, v, Below) + Count(s, v, Tied) <= Count(s, w, Below)
    decreases |s|
  {
    if |s| > 0 {
      CountOrder(s[..|s| - 1], v, w);
    }
  }

  /** Counts over a pool do not depend on the order of its parts. */
  lemma CountSwap(x: seq<real>, y: seq<real>, v: real, c: Cmp)
    ensures Count(x + y, v, c) == Count(y + x, v, c)
  {
    CountAppend(x, y, v, c);
    CountAppend(y, x, v, c);
  }

  // ---------------------------------------------------------------------
  // Rank facts

  /** Extending the pool by y raises a rank by what y holds below v plus
      half of what y holds equal to v. */
  lemma RankInConcat(x: seq<real>, y: seq<real>, v: real)
    ensures RankIn(x + y, v)
         == RankIn(x, v) + Count(y, v, Below) as real + Count(y, v, Tied) as real / 2.0
  {
    CountAppend(x, y, v, Below);
    CountAppend(x, y, v, Tied);
  }

  lemma RanksOfSwap(u: seq<real>, x: seq<real>, y: seq<real>)
    ensures RanksOf(u, x + y) == RanksOf(u, y + x)
  {
    forall i | 0 <= i < |u|
      ensures RankIn(x + y, u[i]) == RankIn(y + x, u[i])
    {
      CountSwap(x, y, u[i], Below);
      CountSwap(x, y, u[i], Tied);
    }
  }

  lemma RanksOfSplit(u: seq<real>, w: seq<real>, z: seq<real>)
    ensures RanksOf(u + w, z) == RanksOf(u, z) + RanksOf(w, z)
  {
  }

  lemma {:induction false} SumAppend(a: seq<real>, b: seq<real>)
    ensures Sum(a + b) == Sum(a) + Sum(b)
    decreases |b|
  {
    if |b| == 0 {
      assert a + b == a;
    } else {
      var b' := b[..|b| - 1];
      assert (a + b)[..|a + b| - 1] == a + b';
      assert (a + b)[|a + b| - 1] == b[|b| - 1];
      SumAppend(a, b');
    }
  }

  /** Dropping the last value of u drops its rank from the rank sum. */
  lemma RanksOfSnoc(u: seq<real>, z: seq<real>)
    requires |u| > 0
    ensures Sum(RanksOf(u, z)) == Sum(RanksOf(u[..|u| - 1], z)) + RankIn(z, u[|u| - 1])
  {
    assert RanksOf(u, z)[..|u| - 1] == RanksOf(u[..|u| - 1], z);
  }

  /** Appending a to the pool adds, to the rank sum of u, one for every
      value of u above a and a half for every value of u equal to a. */
  lemma {:induction false} SumRanksExtend(u: seq<real>, w: seq<real>, a: real)
    ensures Sum(RanksOf(u, w + [a]))
         == Sum(RanksOf(u, w)) + Count(u, a, Above) as real + Count(u, a, Tied) as real / 2.0
    decreases |u|
  {
    if |u| > 0 {
      var u' := u[..|u| - 1];
      var b := u[|u| - 1];
      RanksOfSnoc(u, w + [a]);
      RanksOfSnoc(u, w);
      SumRanksExtend(u', w, a);
      RankInConcat(w, [a], b);
      CountSingleton(a, b, Below);
      CountSingleton(a, b, Tied);
    }
  }

  /** Extending the pool never lowers a rank sum. */
  lemma {:induction false} SumRanksGrow(u: seq<real>, x: seq<real>, y: seq<real>)
    ensures Sum(RanksOf(u, x)) <= Sum(RanksOf(u, x + y))
    decreases |u|
  {
    if |u| > 0 {
      RanksOfSnoc(u, x);
      RanksOfSnoc(u, x + y);
      SumRanksGrow(u[..|u| - 1], x, y);
      RankInConcat(x, y, u[|u| - 1]);
    }
  }

  /** The closed form n(n+1)/2 in which the statistics are written. */
  lemma {:induction false} TriangleClosed(n: nat)
    ensures Triangle(n) == n as real * (n as real + 1.0) / 2.0
    decreases n
  {
    if n > 0 {
      TriangleClosed(n - 1);
      ClosedStep(n as real);
    }
  }

  lemma ClosedStep(k: real)
    ensures (k - 1.0) * k / 2.0 + k == k * (k + 1.0) / 2.0
  {
  }

  /** The ranks of any pool sum to n(n+1)/2, ties or not. */
  lemma {:induction false} RankSum(z: seq<real>)
    ensures Sum(Ranks(z)) == Triangle(|z|)
    decreases |z|
  {
    if |z| > 0 {
      var w := z[..|z| - 1];
      var a := z[|z| - 1];
      assert z == w + [a];
      RankSum(w);
      RanksOfSnoc(z, z);
      assert z[..|z| - 1] == w;
      SumRanksExtend(w, w, a);
      RankInConcat(w, [a], a);
      CountSingleton(a, a, Below);
      CountSingleton(a, a, Tied);
      CountPartition(w, a);
    }
  }

  /** Every rank lies between 1 and the pool size. */
  lemma RankBounds(z: seq<real>, i: int)
    requires 0 <= i < |z|
    ensures 1.0 <= Ranks(z)[i] <= |z| as real
  {
    CountTiedMember(z, i);
    CountPartition(z, z[i]);
  }

  /** Ranks order the pool as the values do: equal values share a rank and
      a smaller value has a strictly smaller rank, and conversely. */
  lemma RankOrder(z: seq<real>, i: int, j: int)
    requires 0 <= i < |z| && 0 <= j < |z|
    ensures z[i] == z[j] ==> Ranks(z)[i] == Ranks(z)[j]
    ensures z[i] < z[j] <==> Ranks(z)[i] < Ranks(z)[j]
  {
    CountTiedMember(z, i);
    CountTiedMember(z, j);
    if z[i] < z[j] {
      CountOrder(z, z[i], z[j]);
    } else if z[j] < z[i] {
      CountOrder(z, z[j], z[i]);
    }
  }

  /** Twice lo+1 + ... + lo+E is E times the sum of its two ends. */
  lemma {:induction false} SpanSumClosed(lo: nat, cnt: nat)
    ensures 2 * SpanSum(lo, cnt) == cnt * (2 * lo + cnt + 1)
    decreases cnt
  {
    if cnt > 0 {
      SpanSumClosed(lo, cnt - 1);
      SpanStep(lo, cnt);
    }
  }

  /** The inductive step of SpanSumClosed. */
  lemma SpanStep(lo: nat, cnt: nat)
    requires cnt >= 1
    requires 2 * SpanSum(lo, cnt - 1) == (cnt - 1) * (2 * lo + (cnt - 1) + 1)
    ensures 2 * SpanSum(lo, cnt) == cnt * (2 * lo + cnt + 1)
  {
    StepArith(lo, cnt, SpanSum(lo, cnt - 1));
  }

  lemma StepArith(l: int, e: int, prev: int)
    requires 2 * prev == (e - 1) * (2 * l + (e - 1) + 1)
    ensures 2 * (prev + l + e) == e * (2 * l + e + 1)
  {
  }

  /** E copies of lo + (E+1)/2 add up to lo+1 + ... + lo+E. */
  lemma SpanSumMean(lo: nat, cnt: nat)
    ensures (lo as real + (cnt as real + 1.0) / 2.0) * cnt as real == SpanSum(lo, cnt) as real
  {
    SpanSumClosed(lo, cnt);
    MeanFromClosed(lo as real, cnt as real, SpanSum(lo, cnt) as real);
  }

  lemma MeanFromClosed(l: real, e: real, t: real)
    requires 2.0 * t == e * (2.0 * l + e + 1.0)
    ensures (l + (e + 1.0) / 2.0) * e == t
  {
  }

  lemma DivCancel(x: real, c: real, s: real)
    requires c != 0.0 && x * c == s
    ensures s / c == x
  {
  }

  /** The mean of lo+1, ..., lo+cnt sits halfway between its ends. */
  lemma SpanMeanMidpoint(lo: nat, cnt: nat)
    requires cnt >= 1
    ensures SpanMean(lo, cnt) == lo as real + (cnt as real + 1.0) / 2.0
  {
    SpanSumMean(lo, cnt);
    DivCancel(lo as real + (cnt as real + 1.0) / 2.0, cnt as real, SpanSum(lo, cnt) as real);
  }

  /** A rank is the mean of the sequential positions its tie group spans:
      the values below z[i] fill positions 1..L, so the E values equal to
      z[i] occupy L+1..L+E, and each of them receives the mean of those. */
  lemma RankIsMeanOfSpan(z: seq<real>, i: int)
    requires 0 <= i < |z|
    ensures Count(z, z[i], Tied) >= 1
    ensures Ranks(z)[i] == SpanMean(Count(z, z[i], Below), Count(z, z[i], Tied))
  {
    CountTiedMember(z, i);
    SpanMeanMidpoint(Count(z, z[i], Below), Count(z, z[i], Tied));
  }
}
