/** Nearest-rank statistics over latency samples, on exact numbers. */
module LatencyStats {
  import opened Wrappers
  import opened Counting

  /** `variance` is the sample variance, whose square root is shown. */
  datatype Stats = Stats(
    msgSize: nat, samples: nat,
    min: real, max: real, typical: real, avg: real, variance: real, p99: real, p999: real)

  ghost predicate Ordered(s: seq<real>) {
    forall i, j :: 0 <= i < j < |s| ==> s[i] <= s[j]
  }

  function Insert(s: seq<real>, x: real): seq<real> {
    if s == [] || x <= s[0] then [x] + s else [s[0]] + Insert(s[1..], x)
  }

  /** The samples in ascending order. */
  function Sort(s: seq<real>): (r: seq<real>) {
    if s == [] then [] else Insert(Sort(s[1..]), s[0])
  }

  lemma {:induction false} InsertKeeps(s: seq<real>, x: real)
    ensures multiset(Insert(s, x)) == multiset(s) + multiset{x} && |Insert(s, x)| == |s| + 1
  {
    if !(s == [] || x <= s[0]) {
      InsertKeeps(s[1..], x);
      assert s == [s[0]] + s[1..];
    }
  }

  lemma {:induction false} InsertOrdered(s: seq<real>, x: real)
    requires Ordered(s)
    ensures Ordered(Insert(s, x))
  {
    if !(s == [] || x <= s[0]) {
      var rest := Insert(s[1..], x);
      InsertOrdered(s[1..], x);
      InsertKeeps(s[1..], x);
      forall j | 0 <= j < |rest|
        ensures s[0] <= rest[j]
      {
        assert rest[j] in multiset(rest);
        assert rest[j] == x || rest[j] in multiset(s[1..]);
      }
    }
  }

  lemma {:induction false} SortSorts(s: seq<real>)
    ensures Ordered(Sort(s)) && multiset(Sort(s)) == multiset(s) && |Sort(s)| == |s|
  {
    if s != [] {
      SortSorts(s[1..]);
      hide Insert;
      InsertOrdered(Sort(s[1..]), s[0]);
      InsertKeeps(Sort(s[1..]), s[0]);
      assert s == [s[0]] + s[1..];
    }
  }

  /** What `f` makes of the samples, added up. */
  function Total(s: seq<real>, f: real -> real): real {
    if s == [] then 0.0 else Total(s[..|s| - 1], f) + f(s[|s| - 1])
  }

  function Itself(): real -> real {
    (x: real) => x
  }

  function Sum(s: seq<real>): real {
    Total(s, Itself())
  }

  function Times(a: real, b: real): real {
    a * b
  }

  function Square(x: real): real {
    Times(x, x)
  }

  function SquaredFrom(m: real): real -> real {
    (x: real) => Square(x - m)
  }

  /** The sum of squared distances from `m`. */
  function Spread(s: seq<real>, m: real): real {
    Total(s, SquaredFrom(m))
  }

  function CeilDiv(a: nat, b: nat): nat
    requires b > 0
  {
    (a + b - 1) / b
  }

  /** One-based nearest rank of the quantile `p`, in thousandths, among `n` samples. */
  function Rank(n: nat, p: nat): (k: nat)
    requires n > 0
    ensures 1 <= k <= n
  {
    Max(1, Min(n, CeilDiv(n * p, 1000)))
  }

  function Percentile(sorted: seq<real>, p: nat): real
    requires sorted != []
  {
    sorted[Rank(|sorted|, p) - 1]
  }

  /** `None` when nothing was measured. */
  function FromSamples(msgSize: nat, samples: seq<real>): Option<Stats> {
    if samples == [] then None
    else
      SortSorts(samples);
      var sorted := Sort(samples);
      var n := |sorted|;
      var avg := Sum(sorted) / n as real;
      Some(Stats(
             msgSize, n, sorted[0], sorted[n - 1], Percentile(sorted, 500), avg,
             if n > 1 then Spread(sorted, avg) / (n - 1) as real else 0.0,
             Percentile(sorted, 990), Percentile(sorted, 999)))
  }

  // ----- Order does not matter -----

  lemma LeastIsFirst(a: seq<real>, b: seq<real>)
    requires Ordered(a) && a != [] && b != [] && multiset(a) == multiset(b)
    ensures a[0] <= b[0]
  {
    assert b[0] in multiset(a);
  }

  lemma MultisetTail(s: seq<real>)
    requires s != []
    ensures multiset(s[1..]) == multiset(s)[s[0] := multiset(s)[s[0]] - 1]
  {
    MultisetWithout(s, 0);
    assert Without(s, 0) == s[1..];
  }

  lemma {:induction false} OrderedUnique(a: seq<real>, b: seq<real>)
    requires Ordered(a) && Ordered(b) && multiset(a) == multiset(b)
    ensures a == b
    decreases |a|
  {
    assert |a| == |multiset(a)| && |b| == |multiset(b)|;
    if a != [] {
      LeastIsFirst(a, b);
      LeastIsFirst(b, a);
      MultisetTail(a);
      MultisetTail(b);
      OrderedUnique(a[1..], b[1..]);
      assert a == [a[0]] + a[1..] && b == [b[0]] + b[1..];
    }
  }

  lemma StatsIgnoreOrder(msgSize: nat, a: seq<real>, b: seq<real>)
    requires multiset(a) == multiset(b)
    ensures FromSamples(msgSize, a) == FromSamples(msgSize, b)
  {
    assert |multiset(a)| == |a| && |multiset(b)| == |b|;
    SortSorts(a);
    SortSorts(b);
    OrderedUnique(Sort(a), Sort(b));
  }

  // ----- Percentiles -----

  function AtMost(v: real): real -> bool {
    (x: real) => x <= v
  }

  function Below(v: real): real -> bool {
    (x: real) => x < v
  }

  lemma CeilBounds(x: nat, n: nat)
    requires 1 <= x <= 1000 * n
    ensures 1 <= CeilDiv(x, 1000) <= n
  {
  }

  lemma ProductsAscend(n: nat, p: nat, q: nat)
    requires p <= q
    ensures n * p <= n * q
  {
    assert n * q == n * p + n * (q - p);
  }

  lemma CeilAscends(x: nat, y: nat)
    requires x <= y
    ensures CeilDiv(x, 1000) <= CeilDiv(y, 1000)
  {
  }

  lemma RankIsCeil(n: nat, p: nat)
    requires n > 0 && 0 < p <= 1000
    ensures Rank(n, p) == CeilDiv(n * p, 1000)
  {
    hide CeilDiv;
    ProductsAscend(n, 1, p);
    ProductsAscend(n, p, 1000);
    CeilBounds(n * p, n);
  }

  /** A rank that counts a value out of a sorted sequence. */
  lemma SortedRank(sorted: seq<real>, k: nat)
    requires Ordered(sorted) && 1 <= k <= |sorted|
    ensures CountIf(sorted, AtMost(sorted[k - 1])) >= k
    ensures CountIf(sorted, Below(sorted[k - 1])) < k
  {
    var v := sorted[k - 1];
    CountAtLeast(sorted, k, AtMost(v));
    CountAtMost(sorted, k - 1, Below(v));
  }

  /**
   * A percentile is a sample, enough samples are at or below it, and no smaller value has that many.
   */
  lemma NearestRank(samples: seq<real>, p: nat)
    requires samples != [] && 0 < p <= 1000
    ensures Sort(samples) != []
    ensures var v := Percentile(Sort(samples), p);
            var rank := CeilDiv(|samples| * p, 1000);
            && v in samples
            && CountIf(samples, AtMost(v)) >= rank
            && CountIf(samples, Below(v)) < rank
  {
    hide Rank, CeilDiv, Sort, CountIf, AtMost, Below;
    var sorted := Sort(samples);
    SortSorts(samples);
    RankIsCeil(|sorted|, p);
    var k := Rank(|sorted|, p);
    var v := sorted[k - 1];
    assert v in multiset(samples) by {
      assert v in multiset(sorted);
    }
    SortedRank(sorted, k);
    CountPermute(sorted, samples, AtMost(v));
    CountPermute(sorted, samples, Below(v));
  }

  lemma RanksOrdered(n: nat, p: nat, q: nat)
    requires n > 0 && p <= q
    ensures Rank(n, p) <= Rank(n, q)
  {
    hide CeilDiv;
    ProductsAscend(n, p, q);
    CeilAscends(n * p, n * q);
  }

  // ----- Average and variance -----

  lemma {:induction false} SumBounds(s: seq<real>, lo: real, hi: real)
    requires forall i :: 0 <= i < |s| ==> lo <= s[i] <= hi
    ensures lo * |s| as real <= Sum(s) <= hi * |s| as real
  {
    if s != [] {
      SumBounds(s[..|s| - 1], lo, hi);
    }
  }

  lemma {:induction false} SpreadZero(s: seq<real>, m: real)
    ensures Spread(s, m) >= 0.0
    ensures Spread(s, m) == 0.0 <==> forall i :: 0 <= i < |s| ==> s[i] == m
  {
    if s != [] {
      var n := |s| - 1;
      SpreadZero(s[..n], m);
      SquareZero(s[n] - m);
      hide Square;
      assert s[n] == m <==> s[n] - m == 0.0;
    }
  }

  lemma Positive(a: real, b: real)
    requires a > 0.0 && b > 0.0
    ensures a * b > 0.0
  {
  }

  lemma Negative(a: real, b: real)
    requires a < 0.0 && b < 0.0
    ensures a * b > 0.0
  {
  }

  lemma TimesSign(a: real, b: real)
    ensures a > 0.0 && b > 0.0 ==> Times(a, b) > 0.0
    ensures a < 0.0 && b < 0.0 ==> Times(a, b) > 0.0
    ensures a == 0.0 ==> Times(a, b) == 0.0
  {
    if a > 0.0 && b > 0.0 {
      Positive(a, b);
    } else if a < 0.0 && b < 0.0 {
      Negative(a, b);
    }
  }

  lemma SquareZero(x: real)
    ensures Square(x) >= 0.0
    ensures Square(x) == 0.0 <==> x == 0.0
  {
    TimesSign(x, x);
    hide Times;
  }

  lemma Scaled(a: real, b: real, n: real)
    requires n > 0.0
    ensures a <= b <==> a * n <= b * n
  {
    if a < b {
      Positive(b - a, n);
    } else if b < a {
      Positive(a - b, n);
    }
    assert (b - a) * n == b * n - a * n;
    assert (a - b) * n == a * n - b * n;
  }

  lemma QuotientBounds(sum: real, n: real, lo: real, hi: real)
    requires n > 0.0 && lo * n <= sum <= hi * n
    ensures lo <= sum / n <= hi
  {
    var q := sum / n;
    assert q * n == sum;
    Scaled(lo, q, n);
    Scaled(q, hi, n);
  }

  lemma AvgBounds(s: seq<real>)
    requires s != [] && Ordered(s)
    ensures s[0] <= Sum(s) / |s| as real <= s[|s| - 1]
  {
    hide Sum;
    assert forall i :: 0 < i < |s| ==> s[0] <= s[i];
    assert forall i :: 0 <= i < |s| - 1 ==> s[i] <= s[|s| - 1];
    SumBounds(s, s[0], s[|s| - 1]);
    QuotientBounds(Sum(s), |s| as real, s[0], s[|s| - 1]);
  }

  lemma EndsBound(samples: seq<real>)
    requires samples != []
    ensures Sort(samples) != []
    ensures var sorted := Sort(samples);
            && (forall x :: x in samples ==> sorted[0] <= x <= sorted[|sorted| - 1])
            && sorted[0] in samples && sorted[|sorted| - 1] in samples
  {
    var sorted := Sort(samples);
    SortSorts(samples);
    hide Sort;
    assert sorted[0] in multiset(samples);
    assert sorted[|sorted| - 1] in multiset(samples);
    forall x | x in samples
      ensures sorted[0] <= x <= sorted[|sorted| - 1]
    {
      assert x in multiset(samples);
      assert x in sorted;
    }
  }

  lemma PercentilesAscend(sorted: seq<real>, p: nat, q: nat)
    requires sorted != [] && Ordered(sorted) && p <= q
    ensures sorted[0] <= Percentile(sorted, p) <= Percentile(sorted, q) <= sorted[|sorted| - 1]
  {
    RanksOrdered(|sorted|, p, q);
    hide Rank;
  }

  /** The figures of one row stand in the order their names promise. */
  lemma FiguresOrdered(msgSize: nat, samples: seq<real>)
    requires samples != []
    ensures var s := FromSamples(msgSize, samples).value;
            && s.samples == |samples|
            && s.min <= s.typical <= s.p99 <= s.p999 <= s.max
            && s.min <= s.avg <= s.max
            && (forall x :: x in samples ==> s.min <= x <= s.max)
            && s.min in samples && s.max in samples
  {
    hide Sort, Sum, Spread, Percentile;
    var sorted := Sort(samples);
    SortSorts(samples);
    PercentilesAscend(sorted, 500, 990);
    PercentilesAscend(sorted, 990, 999);
    AvgBounds(sorted);
    EndsBound(samples);
  }

  /** Quantile `p` in thousandths: enough of the samples are at or below `v`, and too few are below. */
  ghost predicate IsQuantile(samples: seq<real>, p: nat, v: real) {
    && v in samples
    && CountIf(samples, AtMost(v)) * 1000 >= |samples| * p
    && CountIf(samples, Below(v)) * 1000 < |samples| * p
  }

  lemma CeilReached(x: nat, k: nat)
    ensures k >= CeilDiv(x, 1000) <==> k * 1000 >= x
  {
  }

  lemma PercentileIsQuantile(samples: seq<real>, p: nat)
    requires samples != [] && 0 < p <= 1000
    ensures Sort(samples) != []
    ensures IsQuantile(samples, p, Percentile(Sort(samples), p))
  {
    hide Percentile, Sort, CeilDiv, CountIf, AtMost, Below;
    NearestRank(samples, p);
    var v := Percentile(Sort(samples), p);
    CeilReached(|samples| * p, CountIf(samples, AtMost(v)));
    CeilReached(|samples| * p, CountIf(samples, Below(v)));
  }

  lemma {:induction false} TotalConcat(a: seq<real>, b: seq<real>, f: real -> real)
    ensures Total(a + b, f) == Total(a, f) + Total(b, f)
  {
    if b == [] {
      assert a + b == a;
    } else {
      var n := |b| - 1;
      TotalConcat(a, b[..n], f);
      assert (a + b)[..|a + b| - 1] == a + b[..n];
    }
  }

  lemma TotalOne(x: real, f: real -> real)
    ensures Total([x], f) == f(x)
  {
    assert Total([x], f) == Total([], f) + f(x);
  }

  lemma TotalWithout(s: seq<real>, k: nat, f: real -> real)
    requires k < |s|
    ensures Total(s, f) == Total(Without(s, k), f) + f(s[k])
  {
    hide Total;
    var a, x, b := s[..k], [s[k]], s[k + 1..];
    Parted(s, k);
    TotalConcat(a + x, b, f);
    TotalConcat(a, x, f);
    TotalConcat(a, b, f);
    TotalOne(s[k], f);
  }

  lemma {:induction false} TotalPermute(a: seq<real>, b: seq<real>, f: real -> real)
    requires multiset(a) == multiset(b)
    ensures Total(a, f) == Total(b, f)
    decreases |a|
  {
    if a == [] {
      assert |b| == |multiset(b)|;
    } else {
      assert a[0] in multiset(b);
      var k :| 0 <= k < |b| && b[k] == a[0];
      MultisetWithout(a, 0);
      MultisetWithout(b, k);
      TotalWithout(a, 0, f);
      TotalWithout(b, k, f);
      TotalPermute(Without(a, 0), Without(b, k), f);
    }
  }

  lemma Divided(a: real, b: real)
    requires b > 0.0
    ensures (a / b) * b == a
  {
  }

  /** There is a row exactly when something was measured, and its figures are the ones it names. */
  lemma FiguresMeasure(msgSize: nat, samples: seq<real>)
    ensures FromSamples(msgSize, samples).None? <==> samples == []
    ensures samples != [] ==>
              var s := FromSamples(msgSize, samples).value;
              && s.msgSize == msgSize && s.samples == |samples|
              && IsQuantile(samples, 500, s.typical)
              && IsQuantile(samples, 990, s.p99)
              && IsQuantile(samples, 999, s.p999)
              && s.avg * |samples| as real == Sum(samples)
              && (|samples| == 1 ==> s.variance == 0.0)
              && (|samples| > 1 ==> s.variance * (|samples| - 1) as real == Spread(samples, s.avg))
  {
    hide Sort, Total, Percentile, IsQuantile;
    if samples != [] {
      var sorted := Sort(samples);
      SortSorts(samples);
      PercentileIsQuantile(samples, 500);
      PercentileIsQuantile(samples, 990);
      PercentileIsQuantile(samples, 999);
      var n := |samples|;
      var avg := Sum(sorted) / n as real;
      TotalPermute(sorted, samples, Itself());
      TotalPermute(sorted, samples, SquaredFrom(avg));
      Divided(Sum(sorted), n as real);
      if n > 1 {
        Divided(Spread(sorted, avg), (n - 1) as real);
      }
    }
  }

  ghost predicate AllEqual(s: seq<real>) {
    forall i, j :: 0 <= i < |s| && 0 <= j < |s| ==> s[i] == s[j]
  }

  /** The variance is zero exactly when every sample is the same. */
  lemma VarianceZero(msgSize: nat, samples: seq<real>)
    requires samples != []
    ensures FromSamples(msgSize, samples).value.variance >= 0.0
    ensures FromSamples(msgSize, samples).value.variance == 0.0 <==> AllEqual(samples)
  {
    var sorted := Sort(samples);
    SortSorts(samples);
    var n := |sorted|;
    var avg := Sum(sorted) / n as real;
    AvgBounds(sorted);
    SpreadZero(sorted, avg);
    SameElements(samples, sorted);
    hide Sort, Spread, Sum, Rank;
    if n > 1 {
      RatioZero(Spread(sorted, avg), (n - 1) as real);
    }
    if AllEqual(sorted) {
      assert sorted[0] == sorted[n - 1] == avg;
    }
  }

  lemma RatioZero(a: real, b: real)
    requires a >= 0.0 && b > 0.0
    ensures a / b >= 0.0
    ensures a / b == 0.0 <==> a == 0.0
  {
    var q := a / b;
    assert q * b == a;
    Scaled(0.0, q, b);
    Scaled(q, 0.0, b);
  }

  lemma SameElements(a: seq<real>, b: seq<real>)
    requires multiset(a) == multiset(b)
    ensures AllEqual(a) <==> AllEqual(b)
  {
    if AllEqual(a) { EqualCarries(a, b); }
    if AllEqual(b) { EqualCarries(b, a); }
  }

  lemma EqualCarries(a: seq<real>, b: seq<real>)
    requires multiset(a) == multiset(b) && AllEqual(a)
    ensures AllEqual(b)
  {
    forall i, j | 0 <= i < |b| && 0 <= j < |b|
      ensures b[i] == b[j]
    {
      assert b[i] in multiset(b) && b[j] in multiset(b);
      assert b[i] in multiset(a) && b[j] in multiset(a);
    }
  }
}
