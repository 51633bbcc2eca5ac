/** The distribution a benchmark reports: `_stats` of benchmarks/bench_suite.py. */
module Percentile {
  import opened Sorting

  predicate RealLe(a: real, b: real) {
    a <= b
  }

  /** Position of the 95th percentile among `n` ordered samples, with the original's floor
      division of a negative number. */
  function P95Index(n: nat): int
    requires n > 0
  {
    -(-95 * n / 100) - 1
  }

  datatype Stats = Stats(least: real, median: real, p95: real, greatest: real, spread: real)

  function Median(ordered: seq<real>): real
    requires ordered != []
  {
    var n := |ordered|;
    if n % 2 == 1 then ordered[n / 2] else (ordered[n / 2 - 1] + ordered[n / 2]) / 2.0
  }

  lemma P95IndexBounds(n: nat)
    requires n > 0
    ensures n / 2 <= P95Index(n) < n
    ensures 95 * n <= 100 * (P95Index(n) + 1) < 95 * n + 100
    ensures P95Index(n) == n - 1 <==> n < 20
  {
  }

  function Spread(range: real, median: real): real {
    if median == 0.0 then 0.0 else range / median
  }

  /** The figures of ordered samples. */
  function Summary(o: seq<real>): Stats
    requires o != []
  {
    P95IndexBounds(|o|);
    var n := |o|;
    Stats(o[0], Median(o), o[P95Index(n)], o[n - 1], Spread(o[n - 1] - o[0], Median(o)))
  }

  function StatsOf(samples: seq<real>): Stats
    requires samples != []
  {
    Summary(Sort(samples, RealLe))
  }

  // ----- counting --------------------------------------------------------------------------

  function AtMost(samples: seq<real>, x: real): nat {
    if samples == [] then 0 else (if samples[0] <= x then 1 else 0) + AtMost(samples[1..], x)
  }

  function Below(samples: seq<real>, x: real): nat {
    if samples == [] then 0 else (if samples[0] < x then 1 else 0) + Below(samples[1..], x)
  }

  lemma {:induction false} InsertCounts(y: real, xs: seq<real>, x: real)
    ensures AtMost(Insert(y, xs, RealLe), x) == AtMost(xs, x) + if y <= x then 1 else 0
    ensures Below(Insert(y, xs, RealLe), x) == Below(xs, x) + if y < x then 1 else 0
  {
    if xs != [] && !RealLe(y, xs[0]) {
      InsertCounts(y, xs[1..], x);
    }
  }

  lemma {:induction false} SortCounts(samples: seq<real>, x: real)
    ensures AtMost(Sort(samples, RealLe), x) == AtMost(samples, x)
    ensures Below(Sort(samples, RealLe), x) == Below(samples, x)
  {
    if samples != [] {
      SortCounts(samples[1..], x);
      InsertCounts(samples[0], Sort(samples[1..], RealLe), x);
    }
  }

  lemma {:induction false} AtLeastSoMany(o: seq<real>, x: real, k: nat)
    requires k <= |o| && forall i :: 0 <= i < k ==> o[i] <= x
    ensures AtMost(o, x) >= k
  {
    if k > 0 {
      AtLeastSoMany(o[1..], x, k - 1);
    }
  }

  lemma {:induction false} NoMoreBelow(o: seq<real>, x: real, k: nat)
    requires k <= |o| && forall i :: k <= i < |o| ==> o[i] >= x
    ensures Below(o, x) <= k
  {
    if o != [] {
      NoMoreBelow(o[1..], x, if k > 0 then k - 1 else 0);
    }
  }

  predicate Rising(o: seq<real>) {
    forall i, j :: 0 <= i <= j < |o| ==> o[i] <= o[j]
  }

  lemma SortRises(samples: seq<real>)
    ensures Rising(Sort(samples, RealLe))
  {
    var o := Sort(samples, RealLe);
    SortSorted(samples, RealLe);
    forall i, j | 0 <= i <= j < |o| ensures o[i] <= o[j] {
      assert i == j || RealLe(o[i], o[j]);
    }
  }

  lemma RankCounts(o: seq<real>, k: nat)
    requires Rising(o) && k < |o|
    ensures AtMost(o, o[k]) >= k + 1 && Below(o, o[k]) <= k
  {
    AtLeastSoMany(o, o[k], k + 1);
    NoMoreBelow(o, o[k], k);
  }

  lemma MedianBetween(o: seq<real>, k: nat)
    requires o != [] && Rising(o) && |o| / 2 <= k < |o|
    ensures o[0] <= Median(o) <= o[k] <= o[|o| - 1]
  {
    var h := |o| / 2;
    assert o[h] <= o[k] && o[0] <= o[h];
    if |o| % 2 == 0 {
      assert o[h - 1] <= o[h] && o[0] <= o[h - 1];
    }
  }

  /** At least half of the samples are at most the reported median, and at most half are below
      it, for odd and even numbers of samples. */
  lemma MedianHalves(samples: seq<real>)
    requires samples != []
    ensures var m := StatsOf(samples).median;
            2 * AtMost(samples, m) >= |samples| && 2 * Below(samples, m) <= |samples|
  {
    var o := Sort(samples, RealLe);
    var m, h := Median(o), |o| / 2;
    SortRises(samples);
    SortCounts(samples, m);
    if |o| % 2 == 1 {
      RankCounts(o, h);
    } else {
      assert o[h - 1] <= m <= o[h];
      forall i | 0 <= i < h ensures o[i] <= m {
        assert o[i] <= o[h - 1];
      }
      forall i | h <= i < |o| ensures o[i] >= m {
        assert o[h] <= o[i];
      }
      AtLeastSoMany(o, m, h);
      NoMoreBelow(o, m, h);
    }
  }

  /** `x` is a sample of rank `k`: the `k`-th of the samples in order. */
  predicate RankIs(samples: seq<real>, x: real, k: nat) {
    x in samples && AtMost(samples, x) >= k && Below(samples, x) < k
  }

  /** The middle of the samples: the same one twice for an odd number of them, and the two on either
      side of the middle for an even number. */
  predicate Middle(samples: seq<real>, lo: real, hi: real) {
    RankIs(samples, lo, (|samples| + 1) / 2) && RankIs(samples, hi, |samples| / 2 + 1)
  }

  lemma SortedRank(samples: seq<real>, k: nat)
    requires k < |samples|
    ensures RankIs(samples, Sort(samples, RealLe)[k], k + 1)
  {
    var o := Sort(samples, RealLe);
    SortRises(samples);
    SortMembers(samples, RealLe);
    assert o[k] in o;
    RankCounts(o, k);
    SortCounts(samples, o[k]);
  }

  /** The median is the middle sample of an odd number, and halfway between the two middle ones of an
      even number. */
  lemma MedianMiddle(samples: seq<real>)
    requires samples != []
    ensures exists lo, hi :: Middle(samples, lo, hi) && lo + hi == 2.0 * StatsOf(samples).median
  {
    var o, n := Sort(samples, RealLe), |samples|;
    SortedRank(samples, (n + 1) / 2 - 1);
    SortedRank(samples, n / 2);
    MiddleSum(o);
    assert Middle(samples, o[(n + 1) / 2 - 1], o[n / 2]);
  }

  lemma MiddleSum(o: seq<real>)
    requires o != []
    ensures o[(|o| + 1) / 2 - 1] + o[|o| / 2] == 2.0 * Median(o)
  {
  }

  /** A rank has one value. */
  lemma {:induction false} RankUnique(samples: seq<real>, x: real, y: real, k: nat)
    requires RankIs(samples, x, k) && RankIs(samples, y, k)
    ensures x == y
  {
    if x < y {
      FewerBelow(samples, x, y);
    } else if y < x {
      FewerBelow(samples, y, x);
    }
  }

  lemma {:induction false} FewerBelow(samples: seq<real>, x: real, y: real)
    requires x < y
    ensures AtMost(samples, x) <= Below(samples, y)
  {
    if samples != [] {
      FewerBelow(samples[1..], x, y);
    }
  }

  /** The spread is the range in units of the median, and zero when the median is. */
  lemma SpreadIs(samples: seq<real>)
    requires samples != []
    ensures var s := StatsOf(samples);
            if s.median == 0.0 then s.spread == 0.0 else s.spread * s.median == s.greatest - s.least
  {
  }

  /** The reported percentile is nearest-rank: at least 95 in 100 samples are at most it, and
      fewer than 95 in 100 are below it. */
  lemma NearestRank(samples: seq<real>)
    requires samples != []
    ensures var p := StatsOf(samples).p95;
            100 * AtMost(samples, p) >= 95 * |samples| && 100 * Below(samples, p) < 95 * |samples|
  {
    var o := Sort(samples, RealLe);
    SortRises(samples);
    P95IndexBounds(|samples|);
    var k := P95Index(|samples|);
    RankCounts(o, k);
    SortCounts(samples, o[k]);
  }

  /** The figures are in order, the smallest and the largest bound every sample, the percentile
      is a sample, and it is the maximum when there are fewer than 20 of them. */
  lemma FiguresInOrder(samples: seq<real>)
    requires samples != []
    ensures var s := StatsOf(samples);
            && s.p95 in samples && s.least in samples && s.greatest in samples
            && s.least <= s.median <= s.p95 <= s.greatest
            && (forall x <- samples :: s.least <= x <= s.greatest)
            && (|samples| < 20 ==> s.p95 == s.greatest)
  {
    var o, n := Sort(samples, RealLe), |samples|;
    SortRises(samples);
    SortMembers(samples, RealLe);
    P95IndexBounds(n);
    MedianBetween(o, P95Index(n));
    assert o[0] in o && o[P95Index(n)] in o && o[n - 1] in o;
    forall x | x in samples ensures o[0] <= x <= o[n - 1] {
      assert x in o;
      var i :| 0 <= i < n && o[i] == x;
    }
  }

  // ----- what the gate relies on -----------------------------------------------------------

  /** Samples of elapsed time give non-negative figures and a non-negative spread. */
  lemma StatsNonNegative(samples: seq<real>)
    requires samples != [] && forall x <- samples :: x >= 0.0
    ensures var s := StatsOf(samples); s.median >= 0.0 && s.p95 >= 0.0 && s.spread >= 0.0
  {
    FiguresInOrder(samples);
    var s := StatsOf(samples);
    if s.median > 0.0 {
      assert s.greatest - s.least >= 0.0;
      NonNegativeRatio(s.greatest - s.least, s.median);
    }
  }

  lemma NonNegativeRatio(a: real, b: real)
    requires a >= 0.0 && b > 0.0
    ensures a / b >= 0.0
  {
  }

  function Scaled(c: real, samples: seq<real>): (r: seq<real>)
    ensures |r| == |samples|
  {
    seq(|samples|, i requires 0 <= i < |samples| => c * samples[i])
  }

  ghost function Times(c: real): (rel: (real, real) -> bool)
    ensures forall a, b :: rel(a, b) <==> b == c * a
  {
    (a, b) => b == c * a
  }

  lemma TimesMonotone(c: real, a: real, b: real)
    requires c > 0.0
    ensures a <= b <==> c * a <= c * b
  {
    if a < b {
      assert c * (b - a) > 0.0;
    } else if b < a {
      assert c * (a - b) > 0.0;
    }
  }

  lemma TimesKeepsOrder(c: real)
    requires c > 0.0
    ensures Respects(RealLe, Times(c))
  {
    forall a, a', b, b' | Times(c)(a, a') && Times(c)(b, b') ensures RealLe(a, b) == RealLe(a', b') {
      TimesMonotone(c, a, b);
    }
  }

  lemma ScaledSort(c: real, samples: seq<real>)
    requires c > 0.0
    ensures var o, p := Sort(samples, RealLe), Sort(Scaled(c, samples), RealLe);
            |o| == |p| == |samples| && forall i :: 0 <= i < |o| ==> p[i] == c * o[i]
  {
    TimesKeepsOrder(c);
    SortPairwise(samples, Scaled(c, samples), RealLe, Times(c));
    var o, p := Sort(samples, RealLe), Sort(Scaled(c, samples), RealLe);
    forall i | 0 <= i < |o| ensures p[i] == c * o[i] {
      assert Times(c)(o[i], p[i]);
    }
  }

  /** Every figure multiplied by `c`; the spread is relative. */
  function Slowed(c: real, s: Stats): Stats {
    Stats(c * s.least, c * s.median, c * s.p95, c * s.greatest, s.spread)
  }

  lemma SummaryScaled(c: real, o: seq<real>, p: seq<real>)
    requires c > 0.0 && o != [] && |o| == |p| && forall i :: 0 <= i < |o| ==> p[i] == c * o[i]
    ensures Summary(p) == Slowed(c, Summary(o))
  {
    var n := |o|;
    P95IndexBounds(n);
    MedianScaled(c, o, p);
    Distribute(c, o[n - 1], o[0]);
    SpreadScaled(c, o[n - 1] - o[0], Median(o));
  }

  /** A machine `1/c` times as fast reports every figure multiplied by `c`, and the same relative
      spread. */
  lemma StatsScaled(c: real, samples: seq<real>)
    requires c > 0.0 && samples != []
    ensures StatsOf(Scaled(c, samples)) == Slowed(c, StatsOf(samples))
  {
    ScaledSort(c, samples);
    SummaryScaled(c, Sort(samples, RealLe), Sort(Scaled(c, samples), RealLe));
  }

  lemma Distribute(c: real, a: real, b: real)
    ensures c * (a - b) == c * a - c * b
  {
  }

  lemma MedianScaled(c: real, o: seq<real>, p: seq<real>)
    requires o != [] && |o| == |p| && forall i :: 0 <= i < |o| ==> p[i] == c * o[i]
    ensures Median(p) == c * Median(o)
  {
  }

  lemma SpreadScaled(c: real, a: real, m: real)
    requires c > 0.0
    ensures Spread(c * a, c * m) == Spread(a, m)
  {
    if m != 0.0 {
      assert c * m != 0.0;
      assert (c * a) / (c * m) == a / m;
    }
  }
}
