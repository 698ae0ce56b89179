/** Which ranks a percentile range selects. */
module Ranks {
  import opened Domain

  type u8 = x: int | 0 <= x <= 255

  datatype PercentileRange = PercentileRange(low: u8, high: u8) {
    /** `PercentileRange::validate`. */
    predicate Legal() {
      low < high <= 100
    }
  }

  function Min(a: nat, b: nat): nat {
    if a < b then a else b
  }

  /** The product, as repeated addition: who only compares ranks need not multiply. */
  function Times(count: nat, percent: nat): nat {
    if percent == 0 then 0 else Times(count, percent - 1) + count
  }

  lemma {:induction false} TimesIs(count: nat, percent: nat)
    ensures Times(count, percent) == count * percent
  {
    if percent > 0 { TimesIs(count, percent - 1); }
  }

  /** One side of `rank_bounds`, with its saturating arithmetic on 64-bit sizes. */
  function RankBound(count: nat, percent: u8): nat {
    Min(count, SatAdd(Cap(Times(count, percent)), 99) / 100)
  }

  /** `rank_bounds`. */
  function RankBounds(count: nat, range: PercentileRange): (nat, nat) {
    (RankBound(count, range.low), RankBound(count, range.high))
  }

  /** `k` is `percent` percent of `count`, rounded up. */
  predicate IsCeiling(k: nat, count: nat, percent: nat) {
    100 * k - 100 < count * percent <= 100 * k
  }

  function CeilRank(count: nat, percent: nat): nat {
    (Times(count, percent) + 99) / 100
  }

  lemma CeilRankIs(count: nat, percent: nat)
    ensures IsCeiling(CeilRank(count, percent), count, percent)
  {
    TimesIs(count, percent);
  }

  lemma {:induction false} TimesRises(count: nat, a: nat, b: nat)
    requires a <= b
    ensures Times(count, a) <= Times(count, b)
  {
    if a < b { TimesRises(count, a, b - 1); }
  }

  /** In every case the rank is the least of the count, the ceiling and the saturated quotient. */
  lemma RankIs(count: nat, percent: u8)
    ensures RankBound(count, percent) == Min(count, Min(CeilRank(count, percent), U64_MAX / 100))
  {
  }

  /** The saturating rank is the exact ceiling if and only if that fits under the saturated quotient. */
  lemma {:induction false} RankExact(count: nat, percent: u8)
    requires percent <= 100
    ensures RankBound(count, percent) == CeilRank(count, percent) <==> CeilRank(count, percent) <= U64_MAX / 100
    ensures RankBound(count, percent) <= CeilRank(count, percent) <= count
  {
    TimesRises(count, percent, 100);
    TimesIs(count, 100);
  }

  /** The selected ranks always lie in order within the population. */
  lemma {:induction false} RankBoundsOrdered(count: nat, range: PercentileRange)
    requires range.low <= range.high
    ensures RankBounds(count, range).0 <= RankBounds(count, range).1 <= count
  {
    TimesRises(count, range.low, range.high);
  }

  /**
   How many are selected: the exact share, rounded one way or the other; up to the slowest one it is
   rounded down. (While the ranks are exact.)
   */
  lemma {:induction false} PopulationSize(count: nat, range: PercentileRange)
    requires range.Legal() && CeilRank(count, range.high) <= U64_MAX / 100
    ensures
      var size := RankBounds(count, range).1 - RankBounds(count, range).0;
      && count * (range.high - range.low) / 100 <= size <= CeilRank(count, range.high - range.low)
      && (range.high == 100 ==> size == count * (100 - range.low) / 100)
  {
    var low, high := range.low, range.high;
    TimesSplit(count, low, high);
    RankExact(count, high);
    TimesRises(count, low, high);
    RankExact(count, low);
    Shares(Times(count, low), Times(count, high));
    TimesIs(count, high - low);
    if high == 100 { TimesIs(count, 100); }
  }

  lemma {:induction false} TimesSplit(count: nat, a: nat, b: nat)
    requires a <= b
    ensures Times(count, b) == Times(count, a) + Times(count, b - a)
  {
    if a < b { TimesSplit(count, a, b - 1); }
  }

  /** The difference of two ceilings of hundredths. */
  lemma Shares(x: nat, y: nat)
    requires x <= y
    ensures (y - x) / 100 <= (y + 99) / 100 - (x + 99) / 100 <= (y - x + 99) / 100
    ensures y % 100 == 0 ==> (y + 99) / 100 - (x + 99) / 100 == (y - x) / 100
  {
  }

  /** Neighbouring ranges meet: nothing is selected twice and nothing in between is left out. */
  lemma {:induction false} RangesMeet(count: nat, a: u8, b: u8, c: u8)
    requires a < b < c <= 100
    ensures
      var (ab, bc, ac) := (RankBounds(count, PercentileRange(a, b)), RankBounds(count, PercentileRange(b, c)),
                           RankBounds(count, PercentileRange(a, c)));
      ab.1 == bc.0 && ac.0 == ab.0 && ac.1 == bc.1 && ab.0 <= ab.1 <= bc.1
  {
    RankBoundsOrdered(count, PercentileRange(a, b));
    RankBoundsOrdered(count, PercentileRange(b, c));
  }
}
