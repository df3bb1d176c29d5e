/** Paired bootstrap ratios and their interval (scripts/verify.py). */
module PairedBootstrap {
  import opened Collections

  const RESAMPLES: nat := 10000

  const LOW: nat := 250

  const HIGH: nat := 9749

  function Ratio(numerator: seq<real>, denominator: seq<real>, i: nat): real
    requires i < |numerator| == |denominator| && denominator[i] != 0.0
  {
    numerator[i] / denominator[i]
  }

  ghost predicate Positive(xs: seq<real>) {
    forall i :: 0 <= i < |xs| ==> xs[i] > 0.0
  }

  /** Every per-session ratio lies between low and high. */
  ghost predicate Between(numerator: seq<real>, denominator: seq<real>, low: real, high: real)
    requires |numerator| == |denominator| && Positive(denominator)
  {
    forall i :: 0 <= i < |numerator| ==> low <= Ratio(numerator, denominator, i) <= high
  }

  /** The sum of the entries that a resample row selects, with repetitions. */
  function Picked(xs: seq<real>, row: seq<nat>): real
    requires forall k :: 0 <= k < |row| ==> row[k] < |xs|
  {
    if row == [] then 0.0 else Picked(xs, row[..|row| - 1]) + xs[row[|row| - 1]]
  }

  /** A resampled ratio is a mediant of per-session ratios: it lies between the smallest and the largest. */
  lemma {:induction false} MediantSums(numerator: seq<real>, denominator: seq<real>, row: seq<nat>, low: real,
                                       high: real)
    requires |numerator| == |denominator| && Positive(denominator) && Between(numerator, denominator, low, high)
    requires forall k :: 0 <= k < |row| ==> row[k] < |numerator|
    ensures row != [] ==> Picked(denominator, row) > 0.0
    ensures low * Picked(denominator, row) <= Picked(numerator, row) <= high * Picked(denominator, row)
  {
    if row != [] {
      var n := |row| - 1;
      MediantSums(numerator, denominator, row[..n], low, high);
      var i := row[n];
      assert low <= Ratio(numerator, denominator, i) <= high;
      Crossed(numerator[i], denominator[i], low, high);
      Distribute(low, Picked(denominator, row[..n]), denominator[i]);
      Distribute(high, Picked(denominator, row[..n]), denominator[i]);
      if n == 0 {
        assert Picked(denominator, row[..0]) == 0.0;
      }
    }
  }

  lemma Crossed(x: real, y: real, low: real, high: real)
    requires y > 0.0 && low <= x / y <= high
    ensures low * y <= x <= high * y
  {
    var q := x / y;
    assert x == q * y;
    assert (q - low) * y >= 0.0 && (high - q) * y >= 0.0;
  }

  lemma Distribute(a: real, x: real, y: real)
    ensures a * (x + y) == a * x + a * y
  {
  }

  lemma Quotient(x: real, y: real, low: real, high: real)
    requires y > 0.0 && low * y <= x <= high * y
    ensures low <= x / y <= high
  {
    var q := x / y;
    assert x == q * y;
    assert q < low ==> (low - q) * y > 0.0;
    assert q > high ==> (q - high) * y > 0.0;
  }

  /** Row selects positions of a sample of n, and at least one. */
  ghost predicate RowOf(row: seq<nat>, n: nat) {
    row != [] && forall k :: 0 <= k < |row| ==> row[k] < n
  }

  method SumPicked(xs: seq<real>, row: seq<nat>) returns (total: real)
    requires forall k :: 0 <= k < |row| ==> row[k] < |xs|
    ensures total == Picked(xs, row)
  {
    total := 0.0;
    for k := 0 to |row|
      invariant total == Picked(xs, row[..k])
    {
      assert row[..k + 1][..k] == row[..k];
      total := total + xs[row[k]];
    }
    assert row[..|row|] == row;
  }

  // ----- the interval -----

  ghost predicate Ordered(xs: seq<real>) {
    forall i, j :: 0 <= i < j < |xs| ==> xs[i] <= xs[j]
  }

  lemma InsertKeeps(ordered: seq<real>, x: real, at: nat)
    requires at <= |ordered|
    ensures multiset(ordered[..at] + [x] + ordered[at..]) == multiset(ordered) + multiset{x}
  {
    assert ordered == ordered[..at] + ordered[at..];
  }

  lemma InsertedAt(ordered: seq<real>, x: real, at: nat, k: nat)
    requires at <= |ordered| && k <= |ordered|
    ensures (ordered[..at] + [x] + ordered[at..])[k] ==
            if k < at then ordered[k] else if k == at then x else ordered[k - 1]
  {
  }

  lemma InsertOrdered(ordered: seq<real>, x: real, at: nat)
    requires Ordered(ordered) && at <= |ordered|
    requires (forall k :: 0 <= k < at ==> ordered[k] <= x) && (at < |ordered| ==> x < ordered[at])
    ensures Ordered(ordered[..at] + [x] + ordered[at..])
  {
    var more := ordered[..at] + [x] + ordered[at..];
    forall i, j | 0 <= i < j < |more|
      ensures more[i] <= more[j]
    {
      InsertedAt(ordered, x, at, i);
      InsertedAt(ordered, x, at, j);
    }
  }

  /** sorted(values). */
  method Sorted(values: seq<real>) returns (ordered: seq<real>)
    ensures Ordered(ordered) && multiset(ordered) == multiset(values) && |ordered| == |values|
  {
    ordered := [];
    for i := 0 to |values|
      invariant Ordered(ordered) && multiset(ordered) == multiset(values[..i]) && |ordered| == i
    {
      var at := 0;
      while at < |ordered| && ordered[at] <= values[i]
        invariant at <= |ordered| && forall k :: 0 <= k < at ==> ordered[k] <= values[i]
      {
        at := at + 1;
      }
      assert values[..i + 1] == values[..i] + [values[i]];
      InsertOrdered(ordered, values[i], at);
      InsertKeeps(ordered, values[i], at);
      ordered := ordered[..at] + [values[i]] + ordered[at..];
    }
    assert values[..|values|] == values;
  }

  /** interval: the two percentile draws are ordered and are draws themselves; None if draws are missing. */
  method Interval(values: seq<real>) returns (r: Option<(real, real)>, ghost ordered: seq<real>)
    ensures r.None? <==> |values| != 10000
    ensures r.Some? ==> r.value.0 <= r.value.1 && r.value.0 in values && r.value.1 in values
    ensures r.Some? ==> OrderStatistics(values, ordered) && r.value == (ordered[250], ordered[9749])
  {
    ordered := [];
    if |values| != RESAMPLES {
      return None, ordered;
    }
    var sorted := Sorted(values);
    ordered := sorted;
    assert ordered[LOW] in multiset(ordered) && ordered[HIGH] in multiset(ordered);
    assert ordered[LOW] in multiset(values) && ordered[HIGH] in multiset(values);
    assert OrderStatistics(values, ordered);
    r := Some((sorted[LOW], sorted[HIGH]));
  }

  ghost predicate OrderStatistics(values: seq<real>, ordered: seq<real>) {
    Ordered(ordered) && multiset(ordered) == multiset(values) && |ordered| == 10000
  }

  datatype Estimate = Estimate(point: real, low: real, high: real)

  /** Each draw is the ratio of the resampled sums of its row. */
  ghost predicate Draws(numerator: seq<real>, denominator: seq<real>, matrix: seq<seq<nat>>, draws: seq<real>)
    requires |numerator| == |denominator|
  {
    && |draws| <= |matrix|
    && forall j :: 0 <= j < |draws| ==> DrawOf(numerator, denominator, matrix[j], draws[j])
  }

  ghost predicate DrawOf(numerator: seq<real>, denominator: seq<real>, row: seq<nat>, draw: real)
    requires |numerator| == |denominator|
  {
    && RowOf(row, |numerator|) && Picked(denominator, row) > 0.0
    && draw == Picked(numerator, row) / Picked(denominator, row)
  }

  lemma DrawBetween(numerator: seq<real>, denominator: seq<real>, row: seq<nat>, draw: real, low: real, high: real)
    requires |numerator| == |denominator| && Positive(denominator) && Between(numerator, denominator, low, high)
    requires DrawOf(numerator, denominator, row, draw)
    ensures low <= draw <= high
  {
    MediantSums(numerator, denominator, row, low, high);
    Quotient(Picked(numerator, row), Picked(denominator, row), low, high);
  }

  /** The positions of a whole sample, in order. */
  function All(n: nat): (r: seq<nat>)
    ensures |r| == n && forall k :: 0 <= k < n ==> r[k] == k
  {
    seq(n, k requires 0 <= k < n => k)
  }

  method DrawAll(numerator: seq<real>, denominator: seq<real>, matrix: seq<seq<nat>>) returns (draws: seq<real>)
    requires |numerator| == |denominator| && Positive(denominator)
    requires forall j :: 0 <= j < |matrix| ==> RowOf(matrix[j], |numerator|)
    ensures |draws| == |matrix| && Draws(numerator, denominator, matrix, draws)
  {
    draws := [];
    for j := 0 to |matrix|
      invariant |draws| == j && Draws(numerator, denominator, matrix, draws)
    {
      var row := matrix[j];
      var x := SumPicked(numerator, row);
      var y := SumPicked(denominator, row);
      PositiveSum(denominator, row);
      draws := draws + [x / y];
    }
  }

  lemma {:induction false} PositiveSum(xs: seq<real>, row: seq<nat>)
    requires Positive(xs) && RowOf(row, |xs|)
    ensures Picked(xs, row) > 0.0
  {
    var n := |row| - 1;
    if n > 0 {
      PositiveSum(xs, row[..n]);
    } else {
      assert row[..0] == [];
    }
  }

  /** What a paired estimate reports, and the bounds that every per-session ratio puts on it. */
  ghost predicate EstimateOk(numerator: seq<real>, denominator: seq<real>, e: Estimate)
    requires |numerator| == |denominator| && Positive(denominator)
  {
    && DrawOf(numerator, denominator, All(|numerator|), e.point)
    && e.low <= e.high
    && forall least, greatest :: Between(numerator, denominator, least, greatest) ==>
         least <= e.point <= greatest && least <= e.low && e.high <= greatest
  }

  /** The interval ends are the two order statistics of the resampled ratios. */
  ghost predicate IntervalOf(numerator: seq<real>, denominator: seq<real>, matrix: seq<seq<nat>>, e: Estimate,
                             draws: seq<real>, ordered: seq<real>)
    requires |numerator| == |denominator|
  {
    && Draws(numerator, denominator, matrix, draws) && OrderStatistics(draws, ordered)
    && e.low == ordered[250] && e.high == ordered[9749]
  }

  /** paired_ratio over any resample indices; None stands for the ValueError of an unpaired or nonpositive sample. */
  method PairedRatio(numerator: seq<real>, denominator: seq<real>, matrix: seq<seq<nat>>)
    returns (r: Option<Estimate>, ghost draws: seq<real>, ghost ordered: seq<real>)
    requires |matrix| == RESAMPLES
    requires forall j :: 0 <= j < RESAMPLES ==> RowOf(matrix[j], |numerator|) || |numerator| == 0
    ensures r.None? <==> |numerator| != |denominator| || |numerator| == 0 || !Positive(denominator)
    ensures r.Some? ==> EstimateOk(numerator, denominator, r.value)
    ensures r.Some? ==> IntervalOf(numerator, denominator, matrix, r.value, draws, ordered)
  {
    draws, ordered := [], [];
    if |numerator| != |denominator| || |numerator| == 0 {
      return None, draws, ordered;
    }
    if exists i :: 0 <= i < |denominator| && denominator[i] <= 0.0 {
      return None, draws, ordered;
    }
    var drawn := DrawAll(numerator, denominator, matrix);
    draws := drawn;
    var bounds;
    bounds, ordered := Interval(drawn);
    var all := All(|numerator|);
    var x := SumPicked(numerator, all);
    var y := SumPicked(denominator, all);
    PositiveSum(denominator, all);
    var e := Estimate(x / y, bounds.value.0, bounds.value.1);
    forall least, greatest | Between(numerator, denominator, least, greatest)
      ensures least <= e.point <= greatest && least <= e.low && e.high <= greatest
    {
      EstimateBetween(numerator, denominator, matrix, draws, e, least, greatest);
    }
    r := Some(e);
  }

  lemma EstimateBetween(numerator: seq<real>, denominator: seq<real>, matrix: seq<seq<nat>>, draws: seq<real>,
                        e: Estimate, least: real, greatest: real)
    requires |numerator| == |denominator| && Positive(denominator) && Between(numerator, denominator, least, greatest)
    requires Draws(numerator, denominator, matrix, draws) && e.low in draws && e.high in draws
    requires DrawOf(numerator, denominator, All(|numerator|), e.point)
    ensures least <= e.point <= greatest && least <= e.low && e.high <= greatest
  {
    DrawBetween(numerator, denominator, All(|numerator|), e.point, least, greatest);
    var i :| 0 <= i < |draws| && draws[i] == e.low;
    var j :| 0 <= j < |draws| && draws[j] == e.high;
    DrawBetween(numerator, denominator, matrix[i], e.low, least, greatest);
    DrawBetween(numerator, denominator, matrix[j], e.high, least, greatest);
  }
}
