/** R-7 interpolation over exact numbers, and the viewer's search that undoes it. */
module Quantiles {
  import opened Domain

  type Percent = p: real | 0.0 <= p <= 100.0

  ghost predicate Ascending(s: seq<u64>) {
    forall i, j | 0 <= i < j < |s| :: s[i] <= s[j]
  }

  function Ceiling(x: real): int {
    if x.Floor as real == x then x.Floor else x.Floor + 1
  }

  /** The point of a segment at a share of its length. */
  function Line(low: real, high: real, share: real): real {
    low + (high - low) * share
  }

  lemma Product(a: real, b: real)
    requires a >= 0.0 && b >= 0.0
    ensures a * b >= 0.0
    ensures a > 0.0 && b > 0.0 ==> a * b > 0.0
  {
  }

  lemma Distributes(a: real, b: real, c: real)
    ensures a * (b + c) == a * b + a * c
  {
  }

  lemma LineRises(low: real, high: real, x: real, y: real)
    requires low <= high && x <= y
    ensures Line(low, high, x) <= Line(low, high, y)
    ensures low < high && x < y ==> Line(low, high, x) < Line(low, high, y)
  {
    var length, step := high - low, y - x;
    Product(length, step);
    Distributes(length, x, step);
    assert y == x + step;
  }

  lemma LineEnds(low: real, high: real)
    ensures Line(low, high, 0.0) == low && Line(low, high, 1.0) == high
  {
  }

  lemma Quotient(x: real, step: real)
    requires 0.0 <= x <= step && step > 0.0
    ensures 0.0 <= x / step <= 1.0
    ensures x / step * step == x
    ensures 0.0 < x ==> 0.0 < x / step
    ensures x < step ==> x / step < 1.0
  {
    assert x / step * step == x;
    if x / step >= 1.0 { Product(x / step - 1.0, step); }
  }

  /** The value at a fractional rank. */
  function Interpolate(s: seq<u64>, rank: real): real
    requires |s| > 0 && 0.0 <= rank <= (|s| - 1) as real
  {
    var lower, upper := rank.Floor, Ceiling(rank);
    Line(s[lower] as real, s[upper] as real, rank - lower as real)
  }

  lemma AtPosition(s: seq<u64>, i: nat)
    requires i < |s|
    ensures Interpolate(s, i as real) == s[i] as real
  {
    assert (i as real).Floor == i;
    LineEnds(s[i] as real, s[i] as real);
  }

  /** A rank between two positions. */
  lemma Between(s: seq<u64>, i: nat, rank: real)
    requires i + 1 < |s| && i as real <= rank <= (i + 1) as real
    ensures Interpolate(s, rank) == Line(s[i] as real, s[i + 1] as real, rank - i as real)
  {
    LineEnds(s[i] as real, s[i + 1] as real);
    if rank == (i + 1) as real {
      AtPosition(s, i + 1);
    } else if rank == i as real {
      AtPosition(s, i);
    } else {
      assert rank.Floor == i;
    }
  }

  /** Within one step the value rises with the rank, strictly if the ends differ. */
  lemma StepMonotone(s: seq<u64>, i: nat, a: real, b: real)
    requires Ascending(s) && i + 1 < |s| && i as real <= a <= b <= (i + 1) as real
    ensures s[i] as real <= Interpolate(s, a) <= Interpolate(s, b) <= s[i + 1] as real
    ensures a < b && s[i] < s[i + 1] ==> Interpolate(s, a) < Interpolate(s, b)
  {
    Between(s, i, a);
    Between(s, i, b);
    var low, high := s[i] as real, s[i + 1] as real;
    LineEnds(low, high);
    LineRises(low, high, 0.0, a - i as real);
    LineRises(low, high, a - i as real, b - i as real);
    LineRises(low, high, b - i as real, 1.0);
  }

  /** The value never falls as the rank rises. */
  lemma InterpolateMonotone(s: seq<u64>, a: real, b: real)
    requires Ascending(s) && |s| > 0 && 0.0 <= a <= b <= (|s| - 1) as real
    ensures Interpolate(s, a) <= Interpolate(s, b)
  {
    var i, j := a.Floor, b.Floor;
    if i == j {
      if i + 1 < |s| { StepMonotone(s, i, a, b); }
    } else {
      StepMonotone(s, i, a, (i + 1) as real);
      assert s[i + 1] <= s[j];
      if j + 1 < |s| { StepMonotone(s, j, j as real, b); }
    }
  }

  function Clamped(percentile: real): real {
    if percentile < 0.0 then 0.0 else if percentile > 100.0 then 100.0 else percentile
  }

  function RankAt(n: nat, percentile: real): (r: real)
    requires n > 0
    ensures 0.0 <= r <= (n - 1) as real
  {
    var bounded := Clamped(percentile) / 100.0;
    Product(bounded, (n - 1) as real);
    Product(1.0 - bounded, (n - 1) as real);
    bounded * (n - 1) as real
  }

  /** `percentile_r7`. */
  function R7(sorted: seq<u64>, percentile: real): Option<real> {
    if sorted == [] then None
    else if |sorted| == 1 then Some(sorted[0] as real)
    else Some(Interpolate(sorted, RankAt(|sorted|, percentile)))
  }

  lemma RanksRise(n: nat, a: real, b: real)
    requires n > 0 && Clamped(a) <= Clamped(b)
    ensures RankAt(n, a) <= RankAt(n, b)
  {
    Product(Clamped(b) / 100.0 - Clamped(a) / 100.0, (n - 1) as real);
  }

  lemma RankEnds(n: nat)
    requires n > 0
    ensures RankAt(n, 0.0) == 0.0 && RankAt(n, 100.0) == (n - 1) as real
  {
  }

  lemma R7Rises(sorted: seq<u64>, a: real, b: real)
    requires Ascending(sorted) && sorted != [] && Clamped(a) <= Clamped(b)
    ensures R7(sorted, a).value <= R7(sorted, b).value
  {
    var n := |sorted|;
    RanksRise(n, a, b);
    if n > 1 { InterpolateMonotone(sorted, RankAt(n, a), RankAt(n, b)); }
  }

  lemma R7Ends(sorted: seq<u64>)
    requires sorted != []
    ensures R7(sorted, 0.0) == Some(sorted[0] as real)
    ensures R7(sorted, 100.0) == Some(sorted[|sorted| - 1] as real)
  {
    RankEnds(|sorted|);
    AtPosition(sorted, 0);
    AtPosition(sorted, |sorted| - 1);
  }

  /** R-7 rises with the percentile, from the minimum at 0 to the maximum at 100. */
  lemma R7Monotone(sorted: seq<u64>, a: real, b: real)
    requires Ascending(sorted) && sorted != [] && a <= b
    ensures R7(sorted, 0.0) == Some(sorted[0] as real)
    ensures R7(sorted, 100.0) == Some(sorted[|sorted| - 1] as real)
    ensures sorted[0] as real <= R7(sorted, a).value <= R7(sorted, b).value <= sorted[|sorted| - 1] as real
  {
    R7Ends(sorted);
    R7Rises(sorted, 0.0, a);
    R7Rises(sorted, a, b);
    R7Rises(sorted, b, 100.0);
  }

  /** A value is read off at a position, or between it and the next one in proportion. */
  predicate ReadsOff(sorted: seq<u64>, position: real, value: real)
    requires 0.0 <= position <= (|sorted| - 1) as real
  {
    var k := position.Floor;
    if position == k as real then value == sorted[k] as real
    else value == sorted[k] as real + (position - k as real) * (sorted[k + 1] as real - sorted[k] as real)
  }

  /** How far a percentile is on the way from the first of `n` values to the last. */
  function Position(n: nat, percentile: Percent): (r: real)
    requires n > 0
    ensures 0.0 <= r <= (n - 1) as real
  {
    Product(percentile / 100.0, (n - 1) as real);
    Product(1.0 - percentile / 100.0, (n - 1) as real);
    percentile / 100.0 * (n - 1) as real
  }

  /** The R-7 quantile: of no values none, of others the value at that position. */
  predicate IsR7(sorted: seq<u64>, percentile: Percent, value: Option<real>) {
    if sorted == [] then value == None
    else value.Some? && ReadsOff(sorted, Position(|sorted|, percentile), value.value)
  }

  lemma InterpolateReads(sorted: seq<u64>, rank: real)
    requires 0.0 <= rank <= (|sorted| - 1) as real
    ensures ReadsOff(sorted, rank, Interpolate(sorted, rank))
  {
    var k := rank.Floor;
    if rank == k as real { AtPosition(sorted, k); } else { Between(sorted, k, rank); }
  }

  lemma SamePosition(n: nat, percentile: Percent)
    requires n > 0
    ensures RankAt(n, percentile) == Position(n, percentile)
  {
  }

  lemma OneRead(sorted: seq<u64>, position: real)
    requires |sorted| == 1 && 0.0 <= position <= 0.0
    ensures ReadsOff(sorted, position, sorted[0] as real)
  {
  }

  lemma RankReads(sorted: seq<u64>, percentile: Percent, rank: real)
    requires sorted != [] && rank == RankAt(|sorted|, percentile)
    ensures ReadsOff(sorted, Position(|sorted|, percentile), Interpolate(sorted, rank))
  {
    SamePosition(|sorted|, percentile);
    InterpolateReads(sorted, rank);
  }

  /** `percentile_r7` is the R-7 quantile. */
  lemma R7Value(sorted: seq<u64>, percentile: Percent)
    ensures IsR7(sorted, percentile, R7(sorted, percentile))
  {
    if |sorted| == 1 {
      OneRead(sorted, Position(1, percentile));
    } else if sorted != [] {
      RankReads(sorted, percentile, RankAt(|sorted|, percentile));
    }
  }

  /** Of no values there is none, and a percentile outside 0 to 100 is taken as the nearer bound. */
  lemma R7Clamps(sorted: seq<u64>, percentile: real)
    ensures R7([], percentile) == None
    ensures percentile <= 0.0 ==> R7(sorted, percentile) == R7(sorted, 0.0)
    ensures percentile >= 100.0 ==> R7(sorted, percentile) == R7(sorted, 100.0)
  {
  }

  // ---- The viewer's scale ----

  /** `durationAtPercentile`, for the percentiles that the viewer holds. */
  function DurationAtPercentile(durations: seq<u64>, percentile: Percent): real {
    if durations == [] then 0.0
    else if |durations| == 1 then durations[0] as real
    else Interpolate(durations, RankAt(|durations|, percentile))
  }

  /** So is `durationAtPercentile`, which answers 0 when there are no durations. */
  lemma DurationValue(durations: seq<u64>, percentile: Percent)
    ensures
      var value := DurationAtPercentile(durations, percentile);
      if durations == [] then value == 0.0 else IsR7(durations, percentile, Some(value))
  {
    if |durations| == 1 {
      OneRead(durations, Position(1, percentile));
    } else if durations != [] {
      RankReads(durations, percentile, RankAt(|durations|, percentile));
    }
  }

  /** The percentile of a rank. */
  function PercentileOf(rank: real, n: nat): (p: Percent)
    requires n >= 2 && 0.0 <= rank <= (n - 1) as real
  {
    Quotient(rank, (n - 1) as real);
    rank / (n - 1) as real * 100.0
  }

  lemma PercentileRank(rank: real, n: nat)
    requires n >= 2 && 0.0 <= rank <= (n - 1) as real
    ensures RankAt(n, PercentileOf(rank, n)) == rank
  {
    Quotient(rank, (n - 1) as real);
    assert PercentileOf(rank, n) / 100.0 == rank / (n - 1) as real;
  }

  lemma RankPercentile(percentile: Percent, n: nat)
    requires n >= 2
    ensures PercentileOf(RankAt(n, percentile), n) == percentile
  {
    Undone(percentile / 100.0, (n - 1) as real);
  }

  lemma Undone(x: real, y: real)
    requires y > 0.0
    ensures x * y / y == x
  {
  }

  function Largest(a: real, b: real): real {
    if a < b then b else a
  }

  /** The part of a step that a value has covered. */
  function Share(low: u64, high: u64, value: real): real {
    (value - low as real) / Largest(1.0, high as real - low as real)
  }

  lemma Fraction(low: u64, high: u64, value: real)
    requires low as real < value < high as real
    ensures 0.0 < Share(low, high, value) < 1.0
    ensures Line(low as real, high as real, Share(low, high, value)) == value
  {
    var step := high as real - low as real;
    assert high - low >= 1;
    Quotient(value - low as real, step);
    assert step * Share(low, high, value) == Share(low, high, value) * step;
  }

  /** Every value at a rank below `rank` is smaller than the value there. */
  ghost predicate LeastRank(s: seq<u64>, rank: real)
    requires |s| > 0 && 0.0 <= rank <= (|s| - 1) as real
  {
    forall below: real | 0.0 <= below < rank :: Interpolate(s, below) < Interpolate(s, rank)
  }

  /** A rank in a rising step, or at its end, is the least one with its value. */
  lemma LeastInStep(s: seq<u64>, i: nat, rank: real)
    requires Ascending(s) && i + 1 < |s| && s[i] < s[i + 1]
    requires i as real < rank <= (i + 1) as real
    ensures LeastRank(s, rank)
  {
    forall below: real | 0.0 <= below < rank ensures Interpolate(s, below) < Interpolate(s, rank) {
      if below >= i as real {
        StepMonotone(s, i, below, rank);
      } else {
        InterpolateMonotone(s, below, i as real);
        StepMonotone(s, i, i as real, rank);
      }
    }
  }

  /** The low loop: from `index` on, past every duration less than the value. */
  function SkipBelow(ds: seq<u64>, value: real, index: nat): (r: nat)
    requires index <= |ds|
    ensures index <= r <= |ds| && (r < |ds| ==> value <= ds[r] as real)
    ensures forall j | index <= j < r :: ds[j] as real < value
    decreases |ds| - index
  {
    if index < |ds| && (ds[index] as real) < value then SkipBelow(ds, value, index + 1) else index
  }

  /** The high loop: from `index` on, past every duration not greater than the value. */
  function SkipAtMost(ds: seq<u64>, value: real, index: nat): (r: nat)
    requires index <= |ds|
    ensures index <= r <= |ds| && (r < |ds| ==> value < ds[r] as real)
    ensures forall j | index <= j < r :: ds[j] as real <= value
    decreases |ds| - index
  {
    if index < |ds| && ds[index] as real <= value then SkipAtMost(ds, value, index + 1) else index
  }

  /** A value strictly inside a step has the percentile of its place there. */
  function InStep(ds: seq<u64>, index: nat, value: real): Percent
    requires 1 <= index < |ds| && (ds[index - 1] as real) < value < ds[index] as real
  {
    Fraction(ds[index - 1], ds[index], value);
    PercentileOf((index - 1) as real + Share(ds[index - 1], ds[index], value), |ds|)
  }

  /** `percentileAtDuration` on its low side. */
  function LowSide(ds: seq<u64>, value: real): Percent {
    if |ds| < 2 || value <= ds[0] as real then 0.0
    else if value >= ds[|ds| - 1] as real then 100.0
    else
      var index := SkipBelow(ds, value, 1);
      if ds[index] as real == value then PercentileOf(index as real, |ds|) else InStep(ds, index, value)
  }

  /** `percentileAtDuration` on its high side: an exact hit answers the next rank. */
  function HighSide(ds: seq<u64>, value: real): Percent {
    if |ds| < 2 || value <= ds[0] as real then 0.0
    else if value >= ds[|ds| - 1] as real then 100.0
    else
      var index := SkipAtMost(ds, value, 1);
      if ds[index - 1] as real == value then PercentileOf(index as real, |ds|) else InStep(ds, index, value)
  }

  datatype Side = LowEdge | HighEdge

  /** `percentileAtDuration`. */
  method PercentileAtDuration(durations: seq<u64>, value: real, side: Side) returns (percentile: Percent)
    ensures percentile == if side.LowEdge? then LowSide(durations, value) else HighSide(durations, value)
  {
    var n := |durations|;
    if n < 2 || value <= durations[0] as real { return 0.0; }
    if value >= durations[n - 1] as real { return 100.0; }
    var index := 1;
    if side.LowEdge? {
      while index < n && (durations[index] as real) < value
        invariant 1 <= index <= n && SkipBelow(durations, value, index) == SkipBelow(durations, value, 1)
      {
        index := index + 1;
      }
      if durations[index] as real == value { return PercentileOf(index as real, n); }
    } else {
      while index < n && durations[index] as real <= value
        invariant 1 <= index <= n && SkipAtMost(durations, value, index) == SkipAtMost(durations, value, 1)
      {
        index := index + 1;
      }
      if durations[index - 1] as real == value { return PercentileOf(index as real, n); }
    }
    percentile := PercentileInStep(durations, index, value);
  }

  /** The answer for a value strictly inside a step, which both sides share. */
  method PercentileInStep(durations: seq<u64>, index: nat, value: real) returns (percentile: Percent)
    requires 1 <= index < |durations| && (durations[index - 1] as real) < value < durations[index] as real
    ensures percentile == InStep(durations, index, value)
  {
    var low, high := durations[index - 1], durations[index];
    Fraction(low, high, value);
    var share := (value - low as real) / Largest(1.0, high as real - low as real);
    percentile := PercentileOf((index - 1) as real + share, |durations|);
  }

  // ---- The low side undoes the interpolation ----

  /** A percentile read off a rank has the value of that rank. */
  lemma FoundAt(durations: seq<u64>, rank: real, value: real)
    requires |durations| >= 2 && 0.0 <= rank <= (|durations| - 1) as real && Interpolate(durations, rank) == value
    ensures RankAt(|durations|, PercentileOf(rank, |durations|)) == rank
    ensures DurationAtPercentile(durations, PercentileOf(rank, |durations|)) == value
  {
    PercentileRank(rank, |durations|);
  }

  lemma {:induction false} InStepValue(ds: seq<u64>, index: nat, value: real)
    requires Ascending(ds) && 1 <= index < |ds| && (ds[index - 1] as real) < value < ds[index] as real
    ensures DurationAtPercentile(ds, InStep(ds, index, value)) == value
    ensures LeastRank(ds, RankAt(|ds|, InStep(ds, index, value)))
  {
    var rank := (index - 1) as real + Share(ds[index - 1], ds[index], value);
    Fraction(ds[index - 1], ds[index], value);
    Between(ds, index - 1, rank);
    FoundAt(ds, rank, value);
    LeastInStep(ds, index - 1, rank);
  }

  /**
   For every value between the least and the greatest of at least two durations, `durationAtPercentile`
   undoes the low side; below the greatest the low side finds the least such percentile.
   */
  lemma {:induction false} LowSideUndone(ds: seq<u64>, value: real)
    requires Ascending(ds) && |ds| >= 2 && ds[0] as real <= value <= ds[|ds| - 1] as real
    ensures DurationAtPercentile(ds, LowSide(ds, value)) == value
    ensures value < ds[|ds| - 1] as real ==> LeastRank(ds, RankAt(|ds|, LowSide(ds, value)))
  {
    RankEnds(|ds|);
    R7Ends(ds);
    if ds[0] as real < value < ds[|ds| - 1] as real {
      var index := SkipBelow(ds, value, 1);
      if ds[index] as real == value {
        AtPosition(ds, index);
        FoundAt(ds, index as real, value);
        LeastInStep(ds, index - 1, index as real);
      } else {
        InStepValue(ds, index, value);
      }
    }
  }
}
