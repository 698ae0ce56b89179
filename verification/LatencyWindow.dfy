/**
 The latency window of the viewer. Before every aggregation the viewer turns its percentile range into
 durations and back; the range that it then ranks by is in general not the one that was asked for.
 */
module LatencyWindow {
  import opened Domain
  import opened Ranks
  import opened Quantiles

  /** The viewer's percentile range; it is fractional once the window has settled. */
  datatype Percentiles = Percentiles(low: Percent, high: Percent)

  /** The viewer's window of durations. */
  datatype Span = Span(low: real, high: real)

  function Smallest(a: real, b: real): real {
    if b < a then b else a
  }

  /** `syncLatencyWindow`: the range and the window after one call. */
  function Settle(range: Percentiles, window: Option<Span>, ds: seq<u64>): (Percentiles, Span) {
    if ds == [] then (range, Span(0.0, 0.0))
    else
      var span :=
        if window.Some? then window.value
        else Span(DurationAtPercentile(ds, range.low), DurationAtPercentile(ds, range.high));
      var first, last := ds[0] as real, ds[|ds| - 1] as real;
      var low := Largest(first, Smallest(last, span.low));
      var high := Largest(low, Smallest(last, span.high));
      (if low < high then Percentiles(LowSide(ds, low), HighSide(ds, high)) else range, Span(low, high))
  }

  /** Settling is stable: a second call with the same durations changes nothing. */
  lemma {:induction false} SettleOnce(range: Percentiles, window: Option<Span>, ds: seq<u64>)
    requires Ascending(ds)
    ensures
      var (range', window') := Settle(range, window, ds);
      Settle(range', Some(window'), ds) == (range', window')
  {
    if ds != [] { assert ds[0] <= ds[|ds| - 1]; }
  }

  /** One side of the viewer's `rankBounds`, with a fractional percentile. */
  function ViewRank(size: nat, percentile: Percent): nat {
    Product(size as real, percentile);
    Min(size, Ceiling(size as real * percentile / 100.0))
  }

  /** It is the least integer that is not below the share, for every percentile, whole or not. */
  lemma {:induction false} ViewRankIs(size: nat, percentile: Percent, k: nat)
    ensures k == ViewRank(size, percentile) <==>
            k as real >= size as real * percentile / 100.0 > k as real - 1.0
  {
    Product(size as real, percentile);
    ShareWithin(size as real, percentile);
    CappedCeiling(size, size as real * percentile / 100.0, k);
  }

  lemma CappedCeiling(size: nat, share: real, k: nat)
    requires 0.0 <= share <= size as real
    ensures k == Min(size, Ceiling(share)) <==> k as real >= share > k as real - 1.0
  {
  }

  /** No percentile takes more than everything. */
  lemma ShareWithin(size: real, percentile: Percent)
    requires size >= 0.0
    ensures 0.0 <= size * percentile / 100.0 <= size
  {
    Product(size, percentile);
    Product(size, 100.0 - percentile);
    Distributes(size, percentile, 100.0 - percentile);
  }

  function ViewBounds(size: nat, range: Percentiles): (nat, nat) {
    (ViewRank(size, range.low), ViewRank(size, range.high))
  }

  function Asked(range: PercentileRange): Percentiles
    requires range.Legal()
  {
    Percentiles(range.low as real, range.high as real)
  }

  /** The ranks by which the viewer selects when it has loaded a query. */
  function LoadedBounds(ds: seq<u64>, range: PercentileRange): (nat, nat)
    requires range.Legal()
  {
    ViewBounds(|ds|, Settle(Asked(range), None, ds).0)
  }

  // ---- Ranks of settled percentiles ----

  lemma CeilHundredth(x: nat)
    ensures Ceiling(x as real / 100.0) == (x + 99) / 100
  {
    var q, r := x / 100, x % 100;
    assert x as real / 100.0 == q as real + r as real / 100.0;
    assert (x as real / 100.0).Floor == q;
  }

  lemma TimesReal(a: nat, b: nat)
    ensures a as real * b as real == (a * b) as real
  {
  }

  /** A whole percentile is ranked by the exact ceiling. */
  lemma WholeRank(n: nat, percent: nat)
    requires percent <= 100
    ensures ViewRank(n, percent as real) == CeilRank(n, percent) <= n
  {
    TimesIs(n, percent);
    TimesRises(n, percent, 100);
    TimesIs(n, 100);
    TimesReal(n, percent);
    CeilHundredth(n * percent);
  }

  lemma Beyond(n: nat, i: nat, q: real)
    requires q * (n - 1) as real == i as real
    ensures n as real * q == i as real + q
  {
  }

  /** The percentile of a position is ranked past that position, unless it is the first. */
  lemma PositionRank(n: nat, i: nat)
    requires n >= 2 && i < n
    ensures ViewRank(n, PercentileOf(i as real, n)) == if i == 0 then 0 else i + 1
  {
    var q := i as real / (n - 1) as real;
    Quotient(i as real, (n - 1) as real);
    Beyond(n, i, q);
    Scaled(n as real, q);
    assert n as real * PercentileOf(i as real, n) / 100.0 == i as real + q;
    if i > 0 {
      if q < 1.0 { assert (i as real + q).Floor == i; } else { assert (i as real + q).Floor == i + 1; }
    }
  }

  lemma Scaled(n: real, q: real)
    ensures n * (q * 100.0) / 100.0 == n * q
  {
  }

  /** How many durations are smaller than the value. */
  function Below(ds: seq<u64>, value: real): (k: nat)
    ensures k <= |ds|
  {
    if ds == [] then 0
    else Below(ds[..|ds| - 1], value) + if ds[|ds| - 1] as real < value then 1 else 0
  }

  /** How many durations are not greater than the value. */
  function AtMost(ds: seq<u64>, value: real): (m: nat)
    ensures m <= |ds|
  {
    if ds == [] then 0
    else AtMost(ds[..|ds| - 1], value) + if ds[|ds| - 1] as real <= value then 1 else 0
  }

  lemma {:induction false} BelowIs(ds: seq<u64>, value: real, k: nat)
    requires k <= |ds|
    requires forall j | 0 <= j < |ds| :: j < k <==> ds[j] as real < value
    ensures Below(ds, value) == k
  {
    if ds != [] { BelowIs(ds[..|ds| - 1], value, if k == |ds| then k - 1 else k); }
  }

  lemma {:induction false} AtMostIs(ds: seq<u64>, value: real, m: nat)
    requires m <= |ds|
    requires forall j | 0 <= j < |ds| :: j < m <==> ds[j] as real <= value
    ensures AtMost(ds, value) == m
  {
    if ds != [] { AtMostIs(ds[..|ds| - 1], value, if m == |ds| then m - 1 else m); }
  }

  /** The value is one of the durations. */
  ghost predicate Listed(ds: seq<u64>, value: real) {
    exists j :: 0 <= j < |ds| && ds[j] as real == value
  }

  /** A value that is no duration was read off strictly inside a step. */
  lemma {:induction false} Unlisted(ds: seq<u64>, rank: real) returns (i: nat)
    requires Ascending(ds) && |ds| >= 2 && 0.0 <= rank <= (|ds| - 1) as real && !Listed(ds, Interpolate(ds, rank))
    ensures i + 1 < |ds| && (i as real) < rank < (i + 1) as real
    ensures (ds[i] as real) < Interpolate(ds, rank) < ds[i + 1] as real
    ensures rank - i as real == Share(ds[i], ds[i + 1], Interpolate(ds, rank))
  {
    i := rank.Floor;
    if rank == i as real { AtPosition(ds, i); }
    Between(ds, i, rank);
    StepMonotone(ds, i, rank, rank);
    LineShare(ds[i], ds[i + 1], rank - i as real);
  }

  /** The share of a step gives back the place inside it. */
  lemma LineShare(low: u64, high: u64, share: real)
    requires low < high
    ensures Share(low, high, Line(low as real, high as real, share)) == share
  {
    assert high - low >= 1;
    Undone(share, high as real - low as real);
    assert (high as real - low as real) * share == share * (high as real - low as real);
  }

  /** Inside a step both sides give back the percentile. */
  lemma {:induction false} UnlistedUndone(ds: seq<u64>, percentile: Percent)
    requires Ascending(ds) && |ds| >= 2 && !Listed(ds, DurationAtPercentile(ds, percentile))
    ensures LowSide(ds, DurationAtPercentile(ds, percentile)) == percentile
    ensures HighSide(ds, DurationAtPercentile(ds, percentile)) == percentile
  {
    var n, value := |ds|, DurationAtPercentile(ds, percentile);
    var i := Unlisted(ds, RankAt(n, percentile));
    assert Listed(ds, ds[0] as real) && Listed(ds, ds[n - 1] as real);
    assert ds[0] <= ds[i] && ds[i + 1] <= ds[n - 1];
    Stops(ds, value, i + 1);
    RankPercentile(percentile, n);
    assert RankAt(n, percentile) == ((i + 1) - 1) as real + Share(ds[i], ds[i + 1], value);
  }

  /** Where the loops stop: before the first duration that is not less, or greater. */
  lemma {:induction false} Stops(ds: seq<u64>, value: real, index: nat)
    requires Ascending(ds) && 1 <= index < |ds| && (ds[index - 1] as real) < value < ds[index] as real
    ensures SkipBelow(ds, value, 1) == index && SkipAtMost(ds, value, 1) == index
  {
    assert forall j | 0 <= j < index :: ds[j] <= ds[index - 1];
  }

  /** The low rank of a settled window. */
  lemma {:induction false} LowRankSettles(ds: seq<u64>, percentile: Percent)
    requires Ascending(ds) && |ds| >= 2 && DurationAtPercentile(ds, percentile) < ds[|ds| - 1] as real
    ensures
      var value, n := DurationAtPercentile(ds, percentile), |ds|;
      ViewRank(n, LowSide(ds, value)) ==
      if !Listed(ds, value) then ViewRank(n, percentile)
      else if Below(ds, value) == 0 then 0
      else Below(ds, value) + 1
  {
    var value, n := DurationAtPercentile(ds, percentile), |ds|;
    if !Listed(ds, value) {
      UnlistedUndone(ds, percentile);
    } else {
      LowHit(ds, value);
    }
  }

  lemma {:induction false} LowHit(ds: seq<u64>, value: real)
    requires Ascending(ds) && |ds| >= 2 && Listed(ds, value) && value < ds[|ds| - 1] as real
    ensures ViewRank(|ds|, LowSide(ds, value)) == if Below(ds, value) == 0 then 0 else Below(ds, value) + 1
  {
    var j :| 0 <= j < |ds| && ds[j] as real == value;
    if value <= ds[0] as real {
      assert ds[0] <= ds[j];
      BelowIs(ds, value, 0);
      assert PercentileOf(0.0, |ds|) == 0.0;
      PositionRank(|ds|, 0);
    } else {
      var index := SkipBelow(ds, value, 1);
      assert ds[index] <= ds[j];
      BelowIs(ds, value, index);
      PositionRank(|ds|, index);
    }
  }

  /** The high rank of a settled window. */
  lemma {:induction false} HighRankSettles(ds: seq<u64>, percentile: Percent)
    requires Ascending(ds) && |ds| >= 2 && DurationAtPercentile(ds, percentile) > ds[0] as real
    ensures
      var value, n := DurationAtPercentile(ds, percentile), |ds|;
      ViewRank(n, HighSide(ds, value)) ==
      if !Listed(ds, value) then ViewRank(n, percentile) else Min(n, AtMost(ds, value) + 1)
  {
    var value := DurationAtPercentile(ds, percentile);
    if !Listed(ds, value) {
      UnlistedUndone(ds, percentile);
    } else {
      HighHit(ds, value);
    }
  }

  lemma {:induction false} HighHit(ds: seq<u64>, value: real)
    requires Ascending(ds) && |ds| >= 2 && Listed(ds, value) && value > ds[0] as real
    ensures ViewRank(|ds|, HighSide(ds, value)) == Min(|ds|, AtMost(ds, value) + 1)
  {
    var n := |ds|;
    var j :| 0 <= j < n && ds[j] as real == value;
    if value >= ds[n - 1] as real {
      AtMostIs(ds, value, n);
      WholeRank(n, 100);
      TimesIs(n, 100);
    } else {
      var index := SkipAtMost(ds, value, 1);
      assert forall k | index <= k < n :: ds[index] <= ds[k];
      assert ds[j] <= ds[index - 1];
      AtMostIs(ds, value, index);
      PositionRank(n, index);
    }
  }

  // ---- What the window and the two sides are ----

  /**
   The settled window lies between the least and the greatest duration. A window that lies there is kept, one
   that does not is moved to the nearer end, and the first one holds the durations of the range.
   */
  lemma {:induction false} WindowIs(range: Percentiles, window: Option<Span>, ds: seq<u64>)
    requires Ascending(ds) && ds != []
    ensures
      var first, last, settled := ds[0] as real, ds[|ds| - 1] as real, Settle(range, window, ds).1;
      && first <= settled.low <= settled.high <= last
      && (window.Some? && first <= window.value.low <= window.value.high <= last ==> settled == window.value)
      && (window.Some? && window.value.low < first ==> settled.low == first)
      && (window.Some? && window.value.low > last ==> settled == Span(last, last))
      && (window.Some? && window.value.high > last ==> settled.high == last)
      && (window.Some? && window.value.high < settled.low ==> settled.high == settled.low)
      && (window.None? && range.low <= range.high ==>
            settled == Span(DurationAtPercentile(ds, range.low), DurationAtPercentile(ds, range.high)))
  {
    assert ds[0] <= ds[|ds| - 1];
    DurationWithin(ds, range.low);
    DurationWithin(ds, range.high);
    if range.low <= range.high { R7Monotone(ds, range.low, range.high); }
  }

  /** Without durations the window is empty and the range stays; so it does if the window has no extent. */
  lemma {:induction false} RangeStays(range: Percentiles, window: Option<Span>, ds: seq<u64>)
    ensures ds == [] ==> Settle(range, window, ds) == (range, Span(0.0, 0.0))
    ensures Settle(range, window, ds).1.low >= Settle(range, window, ds).1.high ==> Settle(range, window, ds).0 == range
  {
  }

  /** A window with an extent gives the range its low side and its high side. */
  lemma {:induction false} RangeMoves(range: Percentiles, window: Option<Span>, ds: seq<u64>)
    requires ds != []
    ensures
      var (range', settled) := Settle(range, window, ds);
      settled.low < settled.high ==> range' == Percentiles(LowSide(ds, settled.low), HighSide(ds, settled.high))
  {
  }

  /**
   The high side of a duration that is neither the least nor the greatest is the position just past all that
   are not greater; between two durations it is where the interpolation has the value.
   */
  lemma {:induction false} HighSideIs(ds: seq<u64>, value: real)
    requires Ascending(ds) && |ds| >= 2 && ds[0] as real < value < ds[|ds| - 1] as real
    ensures
      if Listed(ds, value) then RankAt(|ds|, HighSide(ds, value)) == AtMost(ds, value) as real
      else DurationAtPercentile(ds, HighSide(ds, value)) == value
  {
    var n, index := |ds|, SkipAtMost(ds, value, 1);
    assert forall k | index <= k < n :: ds[index] <= ds[k];
    if Listed(ds, value) {
      var j :| 0 <= j < n && ds[j] as real == value;
      assert ds[j] <= ds[index - 1];
      AtMostIs(ds, value, index);
      PercentileRank(index as real, n);
    } else {
      assert Listed(ds, ds[index - 1] as real);
      Stops(ds, value, index);
      assert Listed(ds, ds[index] as real);
      LowSideUndone(ds, value);
    }
  }

  // ---- When the settled ranks are the asked ones ----

  /** The low rank survives: it was read off inside a step, or at the first duration, or just past its equals. */
  ghost predicate LowKept(ds: seq<u64>, percent: nat)
    requires percent <= 100
  {
    var value := DurationAtPercentile(ds, percent as real);
    Listed(ds, value) ==> CeilRank(|ds|, percent) == if Below(ds, value) == 0 then 0 else Below(ds, value) + 1
  }

  ghost predicate HighKept(ds: seq<u64>, percent: nat)
    requires percent <= 100
  {
    var value := DurationAtPercentile(ds, percent as real);
    Listed(ds, value) ==> CeilRank(|ds|, percent) == Min(|ds|, AtMost(ds, value) + 1)
  }

  /** The condition, on the sorted durations and the asked range, under which loading keeps the ranks. */
  ghost predicate RanksKept(ds: seq<u64>, range: PercentileRange)
    requires range.Legal()
  {
    || |ds| < 2
    || DurationAtPercentile(ds, range.high as real) <= DurationAtPercentile(ds, range.low as real)
    || (LowKept(ds, range.low) && HighKept(ds, range.high))
  }

  lemma {:induction false} DurationWithin(ds: seq<u64>, percentile: Percent)
    requires Ascending(ds) && ds != []
    ensures ds[0] as real <= DurationAtPercentile(ds, percentile) <= ds[|ds| - 1] as real
  {
    R7Monotone(ds, percentile, percentile);
  }

  /** With no window yet, the window is what the range says. */
  lemma {:induction false} FirstSettle(ds: seq<u64>, range: Percentiles)
    requires Ascending(ds) && ds != []
    ensures
      var low, high := DurationAtPercentile(ds, range.low), DurationAtPercentile(ds, range.high);
      Settle(range, None, ds).0 == if low < high then Percentiles(LowSide(ds, low), HighSide(ds, high)) else range
  {
    DurationWithin(ds, range.low);
    DurationWithin(ds, range.high);
  }

  /** Loading keeps the ranks of the asked range if and only if the condition holds. */
  lemma {:induction false} LoadingKeepsRanks(ds: seq<u64>, range: PercentileRange)
    requires Ascending(ds) && range.Legal()
    ensures LoadedBounds(ds, range) == (CeilRank(|ds|, range.low), CeilRank(|ds|, range.high)) <==> RanksKept(ds, range)
  {
    LoadedForm(ds, range);
  }

  predicate Opens(ds: seq<u64>, range: PercentileRange)
    requires range.Legal()
  {
    |ds| >= 2 && DurationAtPercentile(ds, range.low as real) < DurationAtPercentile(ds, range.high as real)
  }

  ghost function LowLoaded(ds: seq<u64>, percent: nat): int
    requires percent <= 100
  {
    var value := DurationAtPercentile(ds, percent as real);
    if !Listed(ds, value) then CeilRank(|ds|, percent) else if Below(ds, value) == 0 then 0 else Below(ds, value) + 1
  }

  ghost function HighLoaded(ds: seq<u64>, percent: nat): int
    requires percent <= 100
  {
    var value := DurationAtPercentile(ds, percent as real);
    if !Listed(ds, value) then CeilRank(|ds|, percent) else Min(|ds|, AtMost(ds, value) + 1)
  }

  /** What the ranks are once the range is loaded. */
  lemma {:induction false} LoadedForm(ds: seq<u64>, range: PercentileRange)
    requires Ascending(ds) && range.Legal()
    ensures
      LoadedBounds(ds, range) ==
      if Opens(ds, range) then (LowLoaded(ds, range.low), HighLoaded(ds, range.high))
      else (CeilRank(|ds|, range.low), CeilRank(|ds|, range.high))
  {
    var low, high := range.low as real, range.high as real;
    WholeRank(|ds|, range.low);
    WholeRank(|ds|, range.high);
    if ds != [] { FirstSettle(ds, Asked(range)); }
    if Opens(ds, range) {
      DurationWithin(ds, low);
      DurationWithin(ds, high);
      LowRankSettles(ds, low);
      HighRankSettles(ds, high);
    }
  }

  /** The whole range is always kept. */
  lemma {:induction false} WholeRangeKept(ds: seq<u64>)
    requires Ascending(ds)
    ensures RanksKept(ds, PercentileRange(0, 100))
  {
    var n := |ds|;
    if n >= 2 {
      RankEnds(n);
      R7Ends(ds);
      BelowIs(ds, ds[0] as real, 0);
      AtMostIs(ds, ds[n - 1] as real, n);
      TimesIs(n, 0);
      TimesIs(n, 100);
    }
  }

  // ---- Durations that all differ ----

  ghost predicate Rising(ds: seq<u64>) {
    forall i, j | 0 <= i < j < |ds| :: ds[i] < ds[j]
  }

  /** The rank of a whole percentile, in hundredths. */
  lemma WholePosition(n: nat, percent: nat)
    requires n >= 2 && percent <= 100
    ensures RankAt(n, percent as real) == Times(n - 1, percent) as real / 100.0
  {
    TimesIs(n - 1, percent);
    TimesReal(n - 1, percent);
    Hundredths(percent as real, (n - 1) as real);
  }

  lemma Hundredths(a: real, b: real)
    ensures a / 100.0 * b == b * a / 100.0
  {
  }

  lemma {:induction false} RisingListed(ds: seq<u64>, percent: nat)
    requires Rising(ds) && |ds| >= 2 && percent <= 100
    ensures Listed(ds, DurationAtPercentile(ds, percent as real)) <==> Times(|ds| - 1, percent) % 100 == 0
    ensures Times(|ds| - 1, percent) % 100 == 0 ==>
              && Times(|ds| - 1, percent) / 100 < |ds|
              && DurationAtPercentile(ds, percent as real) == ds[Times(|ds| - 1, percent) / 100] as real
  {
    var n, product := |ds|, Times(|ds| - 1, percent);
    var rank := RankAt(n, percent as real);
    WholePosition(n, percent);
    if product % 100 == 0 {
      assert rank == (product / 100) as real;
      AtPosition(ds, product / 100);
      assert Listed(ds, ds[product / 100] as real);
    } else {
      var i := rank.Floor;
      assert rank != i as real by { Remainder(product, i); }
      Between(ds, i, rank);
      LineEnds(ds[i] as real, ds[i + 1] as real);
      LineRises(ds[i] as real, ds[i + 1] as real, 0.0, rank - i as real);
      LineRises(ds[i] as real, ds[i + 1] as real, rank - i as real, 1.0);
      InsideUnlisted(ds, i, Interpolate(ds, rank));
    }
  }

  lemma Remainder(product: nat, i: int)
    requires product % 100 != 0
    ensures product as real / 100.0 != i as real
  {
    assert product as real / 100.0 == i as real ==> product == 100 * i;
  }

  lemma InsideUnlisted(ds: seq<u64>, i: nat, value: real)
    requires Rising(ds) && i + 1 < |ds| && (ds[i] as real) < value < ds[i + 1] as real
    ensures !Listed(ds, value)
  {
    forall j | 0 <= j < |ds| ensures ds[j] as real != value {
      assert j < i ==> ds[j] < ds[i];
      assert i + 1 < j ==> ds[i + 1] < ds[j];
    }
  }

  lemma {:induction false} RisingCounts(ds: seq<u64>, j: nat)
    requires Rising(ds) && j < |ds|
    ensures Below(ds, ds[j] as real) == j && AtMost(ds, ds[j] as real) == j + 1
  {
    BelowIs(ds, ds[j] as real, j);
    AtMostIs(ds, ds[j] as real, j + 1);
  }

  lemma {:induction false} TimesMore(n: nat, percent: nat)
    requires n >= 1
    ensures Times(n, percent) == Times(n - 1, percent) + percent
  {
    if percent > 0 { TimesMore(n, percent - 1); }
  }

  lemma {:induction false} TimesStrict(n: nat, a: nat, b: nat)
    requires n >= 1 && a < b
    ensures Times(n, a) < Times(n, b)
  {
    TimesRises(n, a, b - 1);
  }

  /** With a position at `j`, the ceiling of the share of the whole count. */
  lemma {:induction false} PositionCeil(n: nat, percent: nat, j: nat)
    requires n >= 2 && percent <= 100 && Times(n - 1, percent) == 100 * j
    ensures CeilRank(n, percent) == if percent == 0 then 0 else j + 1
    ensures percent == 0 <==> j == 0
    ensures j + 1 == n <==> percent == 100
  {
    TimesMore(n, percent);
    if percent > 0 { TimesStrict(n - 1, 0, percent); }
    if percent < 100 { TimesStrict(n - 1, percent, 100); }
    TimesIs(n - 1, 100);
  }

  lemma {:induction false} RisingDurations(ds: seq<u64>, range: PercentileRange)
    requires Rising(ds) && |ds| >= 2 && range.Legal()
    ensures DurationAtPercentile(ds, range.low as real) < DurationAtPercentile(ds, range.high as real)
  {
    var n := |ds|;
    WholePosition(n, range.low);
    WholePosition(n, range.high);
    TimesStrict(n - 1, range.low, range.high);
    StrictlyRises(ds, RankAt(n, range.low as real), RankAt(n, range.high as real));
  }

  lemma {:induction false} StrictlyRises(ds: seq<u64>, a: real, b: real)
    requires Rising(ds) && 0.0 <= a < b <= (|ds| - 1) as real
    ensures Interpolate(ds, a) < Interpolate(ds, b)
  {
    var i := a.Floor;
    assert i + 1 < |ds|;
    if b <= (i + 1) as real {
      StepMonotone(ds, i, a, b);
    } else {
      StepMonotone(ds, i, a, (i + 1) as real);
      InterpolateMonotone(ds, (i + 1) as real, b);
    }
  }

  /**
   Among durations that all differ, loading keeps the ranks exactly when there are fewer than two, or the
   range ends at 100, or the upper percentile falls between two positions.
   */
  lemma {:induction false} DistinctDurationsKept(ds: seq<u64>, range: PercentileRange)
    requires Rising(ds) && range.Legal()
    ensures RanksKept(ds, range) <==> |ds| < 2 || range.high == 100 || Times(|ds| - 1, range.high) % 100 != 0
  {
    var n := |ds|;
    if n >= 2 {
      RisingDurations(ds, range);
      RisingLowKept(ds, range.low);
      RisingHighKept(ds, range.high);
    }
  }

  lemma {:induction false} RisingLowKept(ds: seq<u64>, percent: nat)
    requires Rising(ds) && |ds| >= 2 && percent <= 100
    ensures LowKept(ds, percent)
  {
    RisingListed(ds, percent);
    if Times(|ds| - 1, percent) % 100 == 0 {
      var j := Times(|ds| - 1, percent) / 100;
      PositionCeil(|ds|, percent, j);
      RisingCounts(ds, j);
    }
  }

  lemma {:induction false} RisingHighKept(ds: seq<u64>, percent: nat)
    requires Rising(ds) && |ds| >= 2 && 0 < percent <= 100
    ensures HighKept(ds, percent) <==> percent == 100 || Times(|ds| - 1, percent) % 100 != 0
  {
    RisingListed(ds, percent);
    if Times(|ds| - 1, percent) % 100 == 0 {
      var j := Times(|ds| - 1, percent) / 100;
      PositionCeil(|ds|, percent, j);
      RisingCounts(ds, j);
    } else {
      TimesIs(|ds| - 1, 100);
    }
  }

  // ---- Two inputs where loading changes the ranks ----

  /** Of durations 1, 2, 3 the query selects two for p0:50, and the viewer three. */
  lemma {:induction false} UpperEdgeDiverges()
    ensures
      var ds, range := [1, 2, 3], PercentileRange(0, 50);
      LoadedBounds(ds, range) == (0, 3) && RankBounds(3, range) == (0, 2)
  {
    var ds: seq<u64>, range := [1, 2, 3], PercentileRange(0, 50);
    TimesIs(3, 0);
    TimesIs(3, 50);
    TimesIs(2, 0);
    TimesIs(2, 50);
    RisingDurations(ds, range);
    RisingListed(ds, 0);
    RisingListed(ds, 50);
    RisingCounts(ds, 0);
    RisingCounts(ds, 1);
    LoadedForm(ds, range);
  }

  lemma {:induction false} TiedMedian()
    ensures DurationAtPercentile([1, 1, 1, 5], 50.0) == 1.0
  {
    TimesIs(3, 50);
    WholePosition(4, 50);
    Between([1, 1, 1, 5], 1, 1.5);
  }

  /** Of durations 1, 1, 1, 5 the query selects the two slowest for p50:100, and the viewer all four. */
  lemma {:induction false} TiesDiverge()
    ensures
      var ds, range := [1, 1, 1, 5], PercentileRange(50, 100);
      LoadedBounds(ds, range) == (0, 4) && RankBounds(4, range) == (2, 4)
  {
    var ds: seq<u64>, range := [1, 1, 1, 5], PercentileRange(50, 100);
    TimesIs(4, 50);
    TimesIs(4, 100);
    TiedMedian();
    RankEnds(4);
    AtPosition(ds, 3);
    BelowIs(ds, 1.0, 0);
    AtMostIs(ds, 5.0, 4);
    assert ds[0] as real == 1.0 && ds[3] as real == 5.0;
    assert Listed(ds, 1.0) && Listed(ds, 5.0);
    LoadedForm(ds, range);
  }
}
