/**
 * The trend primitives of scripts/rcrainfo_account_violations/main.py in
 * exact arithmetic: `slope_pct` (the least-squares slope relative to the
 * first count), `spike_year` (the year of the largest z-score, when it is at
 * least 2) and `emerging_type` (the category whose recent share grew the
 * most). Years and counts are integers, so every sum is an exact integer and
 * a real division happens only where the source divides.
 */
module ComplianceTrends {
  import opened Wrappers
  import opened Strs

  // ---------------------------------------------------------------- integer sums

  function Sum(xs: seq<int>): int {
    if |xs| == 0 then 0 else xs[0] + Sum(xs[1..])
  }

  /** Sum of `x * y` over paired entries. */
  function SumProd(xs: seq<int>, ys: seq<int>): int
    requires |xs| == |ys|
  {
    if |xs| == 0 then 0 else xs[0] * ys[0] + SumProd(xs[1..], ys[1..])
  }

  /** The terms `(a * x - b) * (c * y - d)` over paired entries. */
  function Prods(xs: seq<int>, ys: seq<int>, a: int, b: int, c: int, d: int): (r: seq<int>)
    requires |xs| == |ys|
    ensures |r| == |xs|
    ensures forall i :: 0 <= i < |xs| ==> r[i] == (a * xs[i] - b) * (c * ys[i] - d)
  {
    if |xs| == 0 then []
    else [(a * xs[0] - b) * (c * ys[0] - d)] + Prods(xs[1..], ys[1..], a, b, c, d)
  }

  /** Sum of `(a * x - b) * (c * y - d)` over paired entries. */
  function Centered(xs: seq<int>, ys: seq<int>, a: int, b: int, c: int, d: int): int
    requires |xs| == |ys|
  {
    Sum(Prods(xs, ys, a, b, c, d))
  }

  predicate Increasing(xs: seq<int>) {
    forall i, j :: 0 <= i < j < |xs| ==> xs[i] < xs[j]
  }

  predicate AllEqual(xs: seq<int>) {
    forall i :: 0 <= i < |xs| ==> xs[i] == xs[0]
  }

  // Arithmetic facts over plain integers, used by the lemmas below.

  lemma Expand(x: int, y: int, a: int, b: int, c: int, d: int)
    ensures (a * x - b) * (c * y - d) == a * c * (x * y) - a * d * x - b * c * y + b * d
  {
  }

  lemma ExpandStep(h: int, p: int, sx: int, sy: int, x: int, y: int, n: int, a: int, b: int, c: int, d: int)
    requires h == a * c * (x * y) - a * d * x - b * c * y + b * d
    ensures h + (a * c * p - a * d * sx - b * c * sy + n * (b * d))
      == a * c * (x * y + p) - a * d * (x + sx) - b * c * (y + sy) + (n + 1) * (b * d)
  {
  }

  lemma CovAlgebraMean(n: int, sx: int, sy: int, p: int, t: int)
    ensures n * 1 * p - n * t * sx - sx * 1 * sy + n * (sx * t) == n * p - sx * sy
  {
  }

  lemma CovAlgebraBoth(n: int, sx: int, sy: int, p: int)
    ensures n * n * p - n * sy * sx - sx * n * sy + n * (sx * sy) == n * (n * p - sx * sy)
  {
  }

  lemma SquareSign(p: int)
    ensures p * p >= 0 && (p != 0 ==> p * p > 0)
  {
  }

  lemma PairSign(p: int, q: int)
    requires (p < 0 && q < 0) || (p >= 0 && q >= 0)
    ensures p * q >= 0 && (p < 0 ==> p * q > 0)
  {
  }

  lemma MulMono(n: int, a: int, b: int)
    requires n >= 0 && a >= b
    ensures n * a >= n * b
  {
  }

  lemma PositiveFactor(n: int, v: int, w: int)
    requires n > 0 && w > 0 && w == n * v
    ensures v > 0
  {
  }

  lemma FlatAlgebra(n: int, c: int, sx: int)
    ensures n * (c * sx) - sx * (n * c) == 0
    ensures n * (c * (n * c)) - (n * c) * (n * c) == 0
  {
  }

  // Sums.

  lemma SumCons(h: int, t: seq<int>)
    ensures Sum([h] + t) == h + Sum(t)
  {
    assert ([h] + t)[1..] == t;
  }

  lemma {:induction false} SumNonNeg(xs: seq<int>)
    requires forall i :: 0 <= i < |xs| ==> xs[i] >= 0
    ensures Sum(xs) >= 0
  {
    if |xs| > 0 {
      assert forall i :: 0 <= i < |xs| - 1 ==> xs[1..][i] == xs[i + 1];
      SumNonNeg(xs[1..]);
    }
  }

  lemma {:induction false} SumPos(xs: seq<int>, k: nat)
    requires k < |xs| && xs[k] > 0 && forall i :: 0 <= i < |xs| ==> xs[i] >= 0
    ensures Sum(xs) > 0
  {
    assert forall i :: 0 <= i < |xs| - 1 ==> xs[1..][i] == xs[i + 1];
    if k == 0 {
      SumNonNeg(xs[1..]);
    } else {
      SumPos(xs[1..], k - 1);
    }
  }

  /** The centred sum expands into plain sums. */
  lemma {:induction false} CenteredSums(xs: seq<int>, ys: seq<int>, a: int, b: int, c: int, d: int)
    requires |xs| == |ys|
    ensures Centered(xs, ys, a, b, c, d)
      == a * c * SumProd(xs, ys) - a * d * Sum(xs) - b * c * Sum(ys) + |xs| * (b * d)
  {
    if |xs| > 0 {
      var h := (a * xs[0] - b) * (c * ys[0] - d);
      CenteredSums(xs[1..], ys[1..], a, b, c, d);
      SumCons(h, Prods(xs[1..], ys[1..], a, b, c, d));
      Expand(xs[0], ys[0], a, b, c, d);
      ExpandStep(h, SumProd(xs[1..], ys[1..]), Sum(xs[1..]), Sum(ys[1..]), xs[0], ys[0], |xs| - 1, a, b, c, d);
    }
  }

  /**
   * Centring the first series at its scaled mean (`n * x - Sum x`) makes the
   * second centre irrelevant, and the result is `n` times the scaled
   * covariance `n * Sum(x * y) - Sum x * Sum y`.
   */
  lemma CenteredCovariance(xs: seq<int>, ys: seq<int>, t: int)
    requires |xs| == |ys|
    ensures Centered(xs, ys, |xs|, Sum(xs), 1, t) == |xs| * SumProd(xs, ys) - Sum(xs) * Sum(ys)
    ensures Centered(xs, ys, |xs|, Sum(xs), |xs|, Sum(ys))
      == |xs| * (|xs| * SumProd(xs, ys) - Sum(xs) * Sum(ys))
  {
    CenteredMean(xs, ys, t);
    CenteredBoth(xs, ys);
  }

  lemma CenteredMean(xs: seq<int>, ys: seq<int>, t: int)
    requires |xs| == |ys|
    ensures Centered(xs, ys, |xs|, Sum(xs), 1, t) == |xs| * SumProd(xs, ys) - Sum(xs) * Sum(ys)
  {
    var n, sx, sy, p := |xs|, Sum(xs), Sum(ys), SumProd(xs, ys);
    CenteredSums(xs, ys, n, sx, 1, t);
    CovAlgebraMean(n, sx, sy, p, t);
  }

  lemma CenteredBoth(xs: seq<int>, ys: seq<int>)
    requires |xs| == |ys|
    ensures Centered(xs, ys, |xs|, Sum(xs), |xs|, Sum(ys)) == |xs| * (|xs| * SumProd(xs, ys) - Sum(xs) * Sum(ys))
  {
    var n, sx, sy, p := |xs|, Sum(xs), Sum(ys), SumProd(xs, ys);
    CenteredSums(xs, ys, n, sx, n, sy);
    CovAlgebraBoth(n, sx, sy, p);
  }

  lemma {:induction false} SumAtLeast(xs: seq<int>, c: int)
    requires forall i :: 0 <= i < |xs| ==> xs[i] >= c
    ensures Sum(xs) >= |xs| * c
  {
    if |xs| > 0 {
      assert forall i :: 0 <= i < |xs| - 1 ==> xs[1..][i] == xs[i + 1];
      SumAtLeast(xs[1..], c);
    }
  }

  lemma {:induction false} SumAtMost(xs: seq<int>, c: int)
    requires forall i :: 0 <= i < |xs| ==> xs[i] <= c
    ensures Sum(xs) <= |xs| * c
  {
    if |xs| > 0 {
      assert forall i :: 0 <= i < |xs| - 1 ==> xs[1..][i] == xs[i + 1];
      SumAtMost(xs[1..], c);
    }
  }

  lemma {:induction false} SumConst(xs: seq<int>, c: int)
    requires forall i :: 0 <= i < |xs| ==> xs[i] == c
    ensures Sum(xs) == |xs| * c
  {
    if |xs| > 0 {
      assert forall i :: 0 <= i < |xs| - 1 ==> xs[1..][i] == xs[i + 1];
      SumConst(xs[1..], c);
    }
  }

  lemma {:induction false} SumProdConst(xs: seq<int>, ys: seq<int>, c: int)
    requires |xs| == |ys| && forall i :: 0 <= i < |ys| ==> ys[i] == c
    ensures SumProd(xs, ys) == c * Sum(xs)
  {
    if |xs| > 0 {
      assert forall i :: 0 <= i < |ys| - 1 ==> ys[1..][i] == ys[i + 1];
      SumProdConst(xs[1..], ys[1..], c);
    }
  }

  /** A strictly increasing series starts below its mean and ends at or above it. */
  lemma MeanBetween(xs: seq<int>)
    requires |xs| >= 2 && Increasing(xs)
    ensures |xs| * xs[0] < Sum(xs) <= |xs| * xs[|xs| - 1]
  {
    var tail := xs[1..];
    forall i | 0 <= i < |tail| ensures tail[i] >= xs[0] + 1 {
      assert tail[i] == xs[i + 1];
    }
    SumAtLeast(tail, xs[0] + 1);
    assert |xs| * xs[0] == xs[0] + |tail| * xs[0];
    assert |tail| * (xs[0] + 1) == |tail| * xs[0] + |tail|;
    SumAtMost(xs, xs[|xs| - 1]);
  }

  /** The first index at or after `i` whose scaled entry reaches `s`. */
  function FirstAtLeast(xs: seq<int>, n: int, s: int, i: nat): (k: nat)
    requires i < |xs| && n * xs[|xs| - 1] >= s
    ensures i <= k < |xs| && n * xs[k] >= s
    ensures forall j :: i <= j < k ==> n * xs[j] < s
    decreases |xs| - i
  {
    if n * xs[i] >= s then i else FirstAtLeast(xs, n, s, i + 1)
  }

  /**
   * Two strictly increasing series have a positive scaled covariance: every
   * product `(n * x - Sum x) * (y - t)` is non-negative for `t` the `y` at
   * the first `x` that reaches the mean, and the first product is positive.
   */
  lemma CoMonotonePositive(xs: seq<int>, ys: seq<int>)
    requires |xs| == |ys| >= 2 && Increasing(xs) && Increasing(ys)
    ensures |xs| * SumProd(xs, ys) - Sum(xs) * Sum(ys) > 0
  {
    var n := |xs|;
    var s := Sum(xs);
    MeanBetween(xs);
    var k := FirstAtLeast(xs, n, s, 0);
    var t := ys[k];
    var ps := Prods(xs, ys, n, s, 1, t);
    forall i | 0 <= i < n ensures ps[i] >= 0 && (i == 0 ==> ps[i] > 0) {
      if i > k {
        assert xs[i] > xs[k] && ys[i] > ys[k];
        MulMono(n, xs[i], xs[k]);
      } else if i < k {
        assert ys[i] < ys[k];
      }
      PairSign(n * xs[i] - s, 1 * ys[i] - t);
    }
    SumPos(ps, 0);
    CenteredCovariance(xs, ys, t);
  }

  /** Scaled variance `n * Sum(x^2) - (Sum x)^2`, that is `n^2` times the population variance. */
  function Spread(xs: seq<int>): int {
    |xs| * SumProd(xs, xs) - Sum(xs) * Sum(xs)
  }

  lemma MulCancel(n: int, a: int, b: int)
    requires n > 0 && a != b
    ensures n * a != n * b
  {
  }

  lemma SpreadFlat(xs: seq<int>)
    requires |xs| > 0 && AllEqual(xs)
    ensures Spread(xs) == 0
  {
    SumConst(xs, xs[0]);
    SumProdConst(xs, xs, xs[0]);
    FlatAlgebra(|xs|, xs[0], Sum(xs));
  }

  lemma SpreadPositive(xs: seq<int>, i: nat)
    requires i < |xs| && xs[i] != xs[0]
    ensures Spread(xs) > 0
  {
    var n := |xs|;
    var s := Sum(xs);
    CenteredCovariance(xs, xs, 0);
    var ps := Prods(xs, xs, n, s, n, s);
    forall j | 0 <= j < n ensures ps[j] >= 0 {
      SquareSign(n * xs[j] - s);
    }
    MulCancel(n, xs[i], xs[0]);
    var k := if n * xs[i] != s then i else 0;
    SquareSign(n * xs[k] - s);
    SumPos(ps, k);
    PositiveFactor(n, Spread(xs), Centered(xs, xs, n, s, n, s));
  }

  /** The scaled variance is zero for equal entries and positive otherwise. */
  lemma SpreadSign(xs: seq<int>)
    requires |xs| > 0
    ensures AllEqual(xs) <==> Spread(xs) == 0
    ensures Spread(xs) >= 0
  {
    if AllEqual(xs) {
      SpreadFlat(xs);
    } else {
      var i :| 0 <= i < |xs| && xs[i] != xs[0];
      SpreadPositive(xs, i);
    }
  }

  // ---------------------------------------------------------------- slope_pct

  /** `len(years.unique()) >= 2`: some year differs from the first. */
  predicate TwoYears(years: seq<int>) {
    exists i :: 0 <= i < |years| && years[i] != years[0]
  }

  /**
   * The least-squares slope of `values` against `years`
   * (`np.polyfit(years, values, 1)[0]`), as
   * `(n * Sum(x * y) - Sum x * Sum y) / (n * Sum(x^2) - (Sum x)^2)`.
   */
  function Slope(years: seq<int>, values: seq<int>): real
    requires |years| == |values| && TwoYears(years)
  {
    SpreadSign(years);
    (|years| * SumProd(years, values) - Sum(years) * Sum(values)) as real / Spread(years) as real
  }

  /** `values.iloc[0] or 1e-9`. */
  function Base(values: seq<int>): real
    requires |values| > 0
  {
    if values[0] == 0 then 0.000000001 else values[0] as real
  }

  /**
   * `slope_pct` without its final rounding: 0 with fewer than two distinct
   * years or a zero total, else the slope as a percentage of the first value.
   */
  function SlopePct(years: seq<int>, values: seq<int>): real
    requires |years| == |values|
  {
    if !TwoYears(years) || Sum(values) == 0 then 0.0
    else 100.0 * Slope(years, values) / Base(values)
  }

  lemma DivPos(a: real, b: real)
    requires a > 0.0 && b > 0.0
    ensures a / b > 0.0
  {
  }

  lemma SumRising(values: seq<int>)
    requires |values| >= 2 && Increasing(values) && values[0] >= 0
    ensures Sum(values) > 0
  {
    var tail := values[1..];
    forall i | 0 <= i < |tail| ensures tail[i] >= values[1] {
      if i > 0 { assert tail[i] == values[i + 1]; }
    }
    SumAtLeast(tail, values[1]);
  }

  /** Strictly rising yearly counts over strictly increasing years have a positive trend. */
  lemma SlopeRising(years: seq<int>, values: seq<int>)
    requires |years| == |values| >= 2
    requires Increasing(years) && Increasing(values) && values[0] >= 0
    ensures SlopePct(years, values) > 0.0
  {
    assert years[1] != years[0];
    assert TwoYears(years);
    CoMonotonePositive(years, values);
    SpreadSign(years);
    assert !AllEqual(years);
    SumRising(values);
    DivPos((|years| * SumProd(years, values) - Sum(years) * Sum(values)) as real, Spread(years) as real);
    DivPos(100.0 * Slope(years, values), Base(values));
  }

  /** Flat yearly counts have no trend. */
  lemma SlopeFlat(years: seq<int>, values: seq<int>)
    requires |years| == |values| && AllEqual(values)
    ensures SlopePct(years, values) == 0.0
  {
    if TwoYears(years) && Sum(values) != 0 {
      var c := values[0];
      SumConst(values, c);
      SumProdConst(years, values, c);
      FlatAlgebra(|years|, c, Sum(years));
      var num := |years| * SumProd(years, values) - Sum(years) * Sum(values);
      assert num == 0;
      SpreadSign(years);
      assert Slope(years, values) == num as real / Spread(years) as real;
    }
  }

  // ---------------------------------------------------------------- spike_year

  /** The first index of a largest entry (`idxmax`). */
  function MaxIndex(xs: seq<int>): (k: nat)
    requires |xs| > 0
    ensures k < |xs|
    ensures forall i :: 0 <= i < |xs| ==> xs[i] <= xs[k]
    ensures forall i :: 0 <= i < k ==> xs[i] < xs[k]
  {
    if |xs| == 1 then 0
    else
      var k := MaxIndex(xs[..|xs| - 1]);
      assert forall i :: 0 <= i < |xs| - 1 ==> xs[..|xs| - 1][i] == xs[i];
      if xs[|xs| - 1] > xs[k] then |xs| - 1 else k
  }

  /**
   * `spike_year` with threshold 2: no spike for a zero spread, otherwise the
   * year of the first largest count when its z-score is at least 2. With
   * `D = n * v - Sum` the z-score is `D / sqrt(Spread)`, so `z >= 2` is
   * `D >= 0 && D^2 >= 4 * Spread`.
   */
  function SpikeYear(years: seq<int>, values: seq<int>): (r: Option<int>)
    requires |years| == |values| > 0
  {
    var v := Spread(values);
    if v == 0 then None
    else
      var k := MaxIndex(values);
      var d := |values| * values[k] - Sum(values);
      if d >= 0 && d * d >= 4 * v then Some(years[k]) else None
  }

  /**
   * No spike for equal counts; otherwise a spike exactly when the first
   * largest count is at least two standard deviations above the mean, and
   * then it is that count's year.
   */
  lemma SpikeYearSpec(years: seq<int>, values: seq<int>)
    requires |years| == |values| > 0
    ensures AllEqual(values) ==> SpikeYear(years, values) == None
    ensures !AllEqual(values) ==>
      var k := MaxIndex(values);
      var d := |values| * values[k] - Sum(values);
      SpikeYear(years, values) == (if d * d >= 4 * Spread(values) then Some(years[k]) else None)
  {
    SpreadSign(values);
    var k := MaxIndex(values);
    SumAtMost(values, values[k]);
  }

  /** Four ones and a twenty: the last value sits exactly two deviations above the mean. */
  lemma SpikeAtLast()
    ensures SpikeYear([2020, 2021, 2022, 2023, 2024], [1, 1, 1, 1, 20]) == Some(2024)
  {
    var v := [1, 1, 1, 1, 20];
    var t1 := v[1..];
    assert t1 == [1, 1, 1, 20];
    var t2 := t1[1..];
    assert t2 == [1, 1, 20];
    var t3 := t2[1..];
    assert t3 == [1, 20];
    var t4 := t3[1..];
    assert t4 == [20] && t4[1..] == [];
    assert Sum(t4) == 20 && SumProd(t4, t4) == 400;
    assert Sum(t3) == 21 && SumProd(t3, t3) == 401;
    assert Sum(t2) == 22 && SumProd(t2, t2) == 402;
    assert Sum(t1) == 23 && SumProd(t1, t1) == 403;
    assert Sum(v) == 24 && SumProd(v, v) == 404;
    assert Spread(v) == 1444;
    var p4 := v[..4];
    assert p4 == [1, 1, 1, 1];
    var p3 := p4[..3];
    assert p3 == [1, 1, 1];
    var p2 := p3[..2];
    assert p2 == [1, 1];
    assert p2[..1] == [1];
    assert MaxIndex(p2) == 0;
    assert MaxIndex(p3) == 0;
    assert MaxIndex(p4) == 0;
    assert MaxIndex(v) == 4;
    assert 5 * 20 - 24 == 76 && 76 * 76 >= 4 * 1444;
  }

  /** A steady rise has no spike. */
  lemma NoSpikeOnRise()
    ensures SpikeYear([2020, 2021, 2022, 2023, 2024], [1, 2, 3, 4, 5]) == None
  {
    var v := [1, 2, 3, 4, 5];
    var t1 := v[1..];
    assert t1 == [2, 3, 4, 5];
    var t2 := t1[1..];
    assert t2 == [3, 4, 5];
    var t3 := t2[1..];
    assert t3 == [4, 5];
    var t4 := t3[1..];
    assert t4 == [5] && t4[1..] == [];
    assert Sum(t4) == 5 && SumProd(t4, t4) == 25;
    assert Sum(t3) == 9 && SumProd(t3, t3) == 41;
    assert Sum(t2) == 12 && SumProd(t2, t2) == 50;
    assert Sum(t1) == 14 && SumProd(t1, t1) == 54;
    assert Sum(v) == 15 && SumProd(v, v) == 55;
    assert Spread(v) == 50;
    var p4 := v[..4];
    assert p4 == [1, 2, 3, 4];
    var p3 := p4[..3];
    assert p3 == [1, 2, 3];
    var p2 := p3[..2];
    assert p2 == [1, 2];
    assert p2[..1] == [1];
    assert MaxIndex(p2) == 1;
    assert MaxIndex(p3) == 2;
    assert MaxIndex(p4) == 3;
    assert MaxIndex(v) == 4;
    assert 5 * 5 - 15 == 10 && 10 * 10 < 4 * 50;
  }

  // ---------------------------------------------------------------- emerging_type

  /** One row of a per-year, per-category count table. */
  datatype YearCount = YearCount(year: int, kind: string, cnt: int)

  function Recent(rows: seq<YearCount>, start: int): (r: seq<YearCount>)
    ensures forall x :: x in r <==> x in rows && x.year >= start
  {
    if |rows| == 0 then []
    else (if rows[0].year >= start then [rows[0]] else []) + Recent(rows[1..], start)
  }

  function Early(rows: seq<YearCount>, start: int): (r: seq<YearCount>)
    ensures forall x :: x in r <==> x in rows && x.year < start
  {
    if |rows| == 0 then []
    else (if rows[0].year < start then [rows[0]] else []) + Early(rows[1..], start)
  }

  function Total(rows: seq<YearCount>): int {
    if |rows| == 0 then 0 else rows[0].cnt + Total(rows[1..])
  }

  /** `groupby(kind)[cnt].sum()` for one category. */
  function KindTotal(rows: seq<YearCount>, k: string): int {
    if |rows| == 0 then 0 else (if rows[0].kind == k then rows[0].cnt else 0) + KindTotal(rows[1..], k)
  }

  function Kinds(rows: seq<YearCount>): (r: seq<string>)
    ensures forall k :: k in r <==> exists x :: x in rows && x.kind == k
  {
    if |rows| == 0 then [] else [rows[0].kind] + Kinds(rows[1..])
  }

  /** The early total, with 0 replaced by 1 (`early_tot or 1`). */
  function EarlyTotal(early: seq<YearCount>): (t: int)
    ensures t != 0
  {
    if Total(early) == 0 then 1 else Total(early)
  }

  /**
   * The share ratio of a category is finite exactly when it occurs in both
   * partitions, the recent total is non-zero and its early sum is non-zero;
   * an infinite or undefined ratio is dropped.
   */
  predicate Finite(recent: seq<YearCount>, early: seq<YearCount>, k: string) {
    (k in Kinds(recent)) && (k in Kinds(early)) && Total(recent) != 0 && KindTotal(early, k) != 0
  }

  /** `(recent sum / recent total) / (early sum / early total)`. */
  function Share(recent: seq<YearCount>, early: seq<YearCount>, k: string): real
    requires Finite(recent, early, k)
  {
    (KindTotal(recent, k) as real / Total(recent) as real) / (KindTotal(early, k) as real / EarlyTotal(early) as real)
  }

  lemma SortedCons(ks: seq<string>, rest: seq<string>)
    requires |ks| > 0 && StrictlySorted(ks) && StrictlySorted(rest)
    requires forall k :: k in rest ==> k in ks[1..]
    ensures StrictlySorted([ks[0]] + rest)
  {
    var r := [ks[0]] + rest;
    forall i, j | 0 <= i < j < |r| ensures Less(r[i], r[j]) {
      assert r[j] == rest[j - 1];
      if i > 0 {
        assert r[i] == rest[i - 1];
      } else {
        assert rest[j - 1] in rest;
        assert rest[j - 1] in ks[1..];
        var m :| 0 <= m < |ks[1..]| && ks[1..][m] == rest[j - 1];
        assert ks[m + 1] == r[j];
      }
    }
  }

  /** The categories of `ks` whose share is finite, in the order of `ks`. */
  function FiniteKinds(recent: seq<YearCount>, early: seq<YearCount>, ks: seq<string>): (r: seq<string>)
    ensures forall k :: k in r <==> k in ks && Finite(recent, early, k)
    ensures StrictlySorted(ks) ==> StrictlySorted(r)
  {
    if |ks| == 0 then []
    else
      var rest := FiniteKinds(recent, early, ks[1..]);
      assert StrictlySorted(ks) ==> StrictlySorted(ks[1..]);
      if Finite(recent, early, ks[0]) then
        assert StrictlySorted(ks) ==> StrictlySorted([ks[0]] + rest) by {
          if StrictlySorted(ks) { SortedCons(ks, rest); }
        }
        [ks[0]] + rest
      else rest
  }

  /** The first category of largest share among `ks`, all of them finite (`idxmax`). */
  function BestShare(recent: seq<YearCount>, early: seq<YearCount>, ks: seq<string>): (r: nat)
    requires |ks| > 0 && forall k :: k in ks ==> Finite(recent, early, k)
    ensures r < |ks|
    ensures forall i :: 0 <= i < |ks| ==> Share(recent, early, ks[i]) <= Share(recent, early, ks[r])
    ensures forall i :: 0 <= i < r ==> Share(recent, early, ks[i]) < Share(recent, early, ks[r])
  {
    if |ks| == 1 then 0
    else
      var init := ks[..|ks| - 1];
      var b := BestShare(recent, early, init);
      assert forall i :: 0 <= i < |init| ==> init[i] == ks[i];
      if Share(recent, early, ks[|ks| - 1]) > Share(recent, early, ks[b]) then |ks| - 1 else b
  }

  /**
   * `emerging_type`: no category when either partition around `recentStart`
   * is empty or no ratio is finite; otherwise the first category, in sorted
   * order, of largest finite share ratio.
   */
  function EmergingType(rows: seq<YearCount>, recentStart: int): Option<string> {
    var recent := Recent(rows, recentStart);
    var early := Early(rows, recentStart);
    if |recent| == 0 || |early| == 0 then None
    else
      var ks := FiniteKinds(recent, early, SortedUnique(Kinds(recent) + Kinds(early)));
      if |ks| == 0 then None else Some(ks[BestShare(recent, early, ks)])
  }

  /** A returned category occurs in both partitions and no finite share beats it. */
  lemma EmergingTypeSpec(rows: seq<YearCount>, recentStart: int)
    ensures var recent := Recent(rows, recentStart); var early := Early(rows, recentStart);
      match EmergingType(rows, recentStart)
      case None =>
        |recent| == 0 || |early| == 0 || forall k :: !Finite(recent, early, k)
      case Some(k) =>
        (exists x :: x in rows && x.kind == k && x.year >= recentStart) &&
        (exists x :: x in rows && x.kind == k && x.year < recentStart) &&
        Finite(recent, early, k) &&
        forall j :: Finite(recent, early, j) ==> Share(recent, early, j) <= Share(recent, early, k)
  {
    var recent := Recent(rows, recentStart);
    var early := Early(rows, recentStart);
    var all := SortedUnique(Kinds(recent) + Kinds(early));
    var ks := FiniteKinds(recent, early, all);
    forall j | Finite(recent, early, j) ensures j in ks {
      assert j in Kinds(recent) + Kinds(early);
    }
    if |recent| > 0 && |early| > 0 && |ks| > 0 {
      var b := BestShare(recent, early, ks);
      forall j | Finite(recent, early, j) ensures Share(recent, early, j) <= Share(recent, early, ks[b]) {
        var i :| 0 <= i < |ks| && ks[i] == j;
      }
    }
  }
}
