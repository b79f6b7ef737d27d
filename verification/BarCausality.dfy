/** No row knows the future: what is computed for a bar depends on what had closed by then, and on nothing later. */
module BarCausality {
  import opened Wrappers
  import opened Bars
  import opened BarMetrics

  // ------------------------------------------------------------------ one series

  /** The two series begin with the same `n` candles. */
  ghost predicate Share(a: seq<Kline>, b: seq<Kline>, n: nat) {
    n <= |a| && n <= |b| && forall k | 0 <= k < n :: a[k] == b[k]
  }

  lemma {:induction false} RangesShare(a: seq<Kline>, b: seq<Kline>, n: nat, x: int, y: int)
    requires Share(a, b, n) && 1 <= x <= y <= n
    ensures SumRanges(a, x, y) == SumRanges(b, x, y)
    decreases y - x
  {
    if x < y {
      RangesShare(a, b, n, x, y - 1);
    }
  }

  lemma AtrShares(a: seq<Kline>, b: seq<Kline>, period: nat, i: nat)
    requires period > 0 && Share(a, b, i + 1)
    ensures Atr(a, period, i) == Atr(b, period, i)
  {
    if i >= period {
      RangesShare(a, b, i + 1, i - period + 1, i + 1);
    }
  }

  lemma {:induction false} BestShares(a: seq<Kline>, b: seq<Kline>, n: nat, pick: Pick, x: int, y: int)
    requires Share(a, b, n) && 0 <= x < y <= n
    ensures Best(a, pick, x, y) == Best(b, pick, x, y)
    decreases y - x
  {
    if x + 1 < y {
      BestShares(a, b, n, pick, x, y - 1);
    }
  }

  lemma ExtremeShares(a: seq<Kline>, b: seq<Kline>, n: nat, pick: Pick, inclusive: bool, i: nat)
    requires Share(a, b, i + 1)
    ensures Extreme(a, n, pick, inclusive, i) == Extreme(b, n, pick, inclusive, i)
  {
    var end := if inclusive then i else i - 1;
    var start := Max(0, end - n + 1);
    if start <= end {
      BestShares(a, b, i + 1, pick, start, end + 1);
    }
  }

  lemma {:induction false} VolumesShare(a: seq<Kline>, b: seq<Kline>, n: nat, x: int, y: int)
    requires Share(a, b, n) && 0 <= x <= y <= n
    ensures SumVolume(a, x, y) == SumVolume(b, x, y)
    decreases y - x
  {
    if x < y {
      VolumesShare(a, b, n, x, y - 1);
    }
  }

  lemma RatioShares(a: seq<Kline>, b: seq<Kline>, n: nat, i: nat)
    requires Share(a, b, i + 1)
    ensures VolumeRatio(a, n, i) == VolumeRatio(b, n, i)
  {
    VolumesShare(a, b, i + 1, Max(0, i - n), i);
  }

  lemma WindowShares(a: seq<Kline>, b: seq<Kline>, window: nat, i: nat)
    requires window > 0 && Share(a, b, i + 1)
    ensures Window(a, window, i) == Window(b, window, i)
    ensures Ema20(a, window, i) == Ema20(b, window, i) && Trend(a, window, i) == Trend(b, window, i)
  {
    assert Window(a, window, i) == Window(b, window, i);
  }

  lemma {:induction false} BreaksShare(a: seq<Kline>, b: seq<Kline>, pick: Pick, n: nat)
    requires Share(a, b, n)
    ensures LatestBreak(a, pick, n) == LatestBreak(b, pick, n)
  {
    if n > 0 {
      ExtremeShares(a, b, 20, pick, false, n - 1);
      BreaksShare(a, b, pick, n - 1);
    }
  }

  lemma SideShares(a: seq<Kline>, b: seq<Kline>, pick: Pick, i: nat)
    requires 1 <= i && Share(a, b, i + 1)
    ensures SideOf(a, pick, i) == SideOf(b, pick, i)
  {
    ExtremeShares(a, b, 20, pick, true, i);
    ExtremeShares(a, b, 20, pick, false, i);
    BreaksShare(a, b, pick, i + 1);
    var j := LatestBreak(a, pick, i + 1);
    if j >= 0 {
      RatioShares(a, b, 20, j);
    }
  }

  // ------------------------------------------------------------------ series by time

  /** In order of time, the two agree on every candle closed by `t`. */
  ghost predicate SameUntil(a: seq<Kline>, b: seq<Kline>, t: int) {
    && Ascending(Times(a)) && Ascending(Times(b))
    && exists n: nat :: Share(a, b, n) && OnlyAfter(a, n, t) && OnlyAfter(b, n, t)
  }

  ghost predicate OnlyAfter(a: seq<Kline>, n: nat, t: int) {
    forall k | n <= k < |a| :: a[k].closeTime > t
  }

  lemma LastOf(a: seq<Kline>, t: int)
    requires Ascending(Times(a))
    ensures (var r := LastClosed(a, t);
      && (forall k | 0 <= k <= r :: a[k].closeTime <= t)
      && (forall k | r < k < |a| :: a[k].closeTime > t))
  {
    LastAtIsLatest(Times(a), t);
    var r := LastClosed(a, t);
    forall k | 0 <= k <= r ensures a[k].closeTime <= t {
      assert Times(a)[k] <= t;
    }
    forall k | r < k < |a| ensures a[k].closeTime > t {
      assert Times(a)[k] > t;
    }
  }

  lemma LastIs(a: seq<Kline>, t: int, r: int)
    requires Ascending(Times(a)) && -1 <= r < |a|
    requires forall k | 0 <= k <= r :: a[k].closeTime <= t
    requires forall k | r < k < |a| :: a[k].closeTime > t
    ensures LastClosed(a, t) == r
  {
    LastOf(a, t);
    var l := LastClosed(a, t);
    assert r >= 0 ==> a[r].closeTime <= t;
    assert l >= 0 ==> a[l].closeTime <= t;
  }

  /** The last candle closed by an earlier time, and all before it, are the same. */
  lemma LastClosedIsShared(a: seq<Kline>, b: seq<Kline>, t: int, earlier: int)
    requires SameUntil(a, b, t) && earlier <= t
    ensures LastClosed(a, earlier) == LastClosed(b, earlier) && Share(a, b, LastClosed(a, earlier) + 1)
  {
    var n: nat :| Share(a, b, n) && OnlyAfter(a, n, t) && OnlyAfter(b, n, t);
    LastOf(a, earlier);
    var r := LastClosed(a, earlier);
    assert r >= 0 ==> a[r].closeTime <= earlier;
    assert r < n;
    LastIs(b, earlier, r);
  }

  lemma TrendIsShared(a: seq<Kline>, b: seq<Kline>, window: nat, t: int)
    requires window > 0 && SameUntil(a, b, t)
    ensures TrendAt(a, window, t) == TrendAt(b, window, t)
  {
    LastClosedIsShared(a, b, t, t);
    var i := LastClosed(a, t);
    if i >= 0 {
      WindowShares(a, b, window, i);
    }
  }

  lemma DistanceIsShared(s: Bundle, u: Bundle, t: int)
    requires SameUntil(s.h4, u.h4, t)
    ensures DistanceH4(s, t) == DistanceH4(u, t)
  {
    LastClosedIsShared(s.h4, u.h4, t, t);
    var i := LastClosed(s.h4, t);
    if i >= 0 {
      AtrShares(s.h4, u.h4, 14, i);
      WindowShares(s.h4, u.h4, 80, i);
    }
  }

  // ------------------------------------------------------------------ funding

  /** The two begin with the same `n` rates, and the others are later than `t`. */
  ghost predicate ShareRates(a: seq<Funding>, b: seq<Funding>, n: nat, t: int) {
    && n <= |a| && n <= |b| && (forall k | 0 <= k < n :: a[k] == b[k])
    && (forall k | n <= k < |a| :: a[k].at > t) && (forall k | n <= k < |b| :: b[k].at > t)
  }

  /** In order of time, the two agree on every rate up to `t`. */
  ghost predicate SameFunding(a: seq<Funding>, b: seq<Funding>, t: int) {
    && Ascending(FundingTimes(a)) && Ascending(FundingTimes(b))
    && exists n: nat :: ShareRates(a, b, n, t)
  }

  lemma LastRateOf(fs: seq<Funding>, t: int)
    requires Ascending(FundingTimes(fs))
    ensures (var r := LastFunding(fs, t);
      && (forall k | 0 <= k <= r :: fs[k].at <= t)
      && (forall k | r < k < |fs| :: fs[k].at > t))
  {
    LastAtIsLatest(FundingTimes(fs), t);
    var r := LastFunding(fs, t);
    forall k | 0 <= k <= r ensures fs[k].at <= t {
      assert FundingTimes(fs)[k] <= t;
    }
    forall k | r < k < |fs| ensures fs[k].at > t {
      assert FundingTimes(fs)[k] > t;
    }
  }

  lemma LastRateIs(fs: seq<Funding>, t: int, r: int)
    requires Ascending(FundingTimes(fs)) && -1 <= r < |fs|
    requires forall k | 0 <= k <= r :: fs[k].at <= t
    requires forall k | r < k < |fs| :: fs[k].at > t
    ensures LastFunding(fs, t) == r
  {
    LastRateOf(fs, t);
    var l := LastFunding(fs, t);
    assert r >= 0 ==> fs[r].at <= t;
    assert l >= 0 ==> fs[l].at <= t;
  }

  lemma FundingIsShared(a: seq<Funding>, b: seq<Funding>, t: int)
    requires SameFunding(a, b, t)
    ensures FundingAt(a, t) == FundingAt(b, t)
  {
    var n: nat :| ShareRates(a, b, n, t);
    LastRateOf(a, t);
    var r := LastFunding(a, t);
    assert r >= 0 ==> a[r].at <= t;
    assert r < n;
    LastRateIs(b, t, r);
  }

  // ------------------------------------------------------------------ rows

  /** Two histories with the same bars up to bar `i`, and the same of everything else closed by its time. */
  ghost predicate SamePast(s: Bundle, u: Bundle, i: nat) {
    && Share(s.base, u.base, i + 1) && Ascending(Times(s.base))
    && (var t := s.base[i].closeTime;
      SameUntil(s.h1, u.h1, t) && SameUntil(s.h4, u.h4, t) && SameUntil(s.d1, u.d1, t) && SameFunding(s.funding, u.funding, t))
  }

  lemma KeptIsShared(s: Bundle, u: Bundle, from: int, to: int, i: nat)
    requires Share(s.base, u.base, i + 1)
    ensures Kept(s, from, to, i) == Kept(u, from, to, i)
  {
    AtrShares(s.base, u.base, 14, i);
  }

  lemma {:induction false} FillingIsShared(s: Bundle, u: Bundle, from: int, to: int, d: int, i: nat, n: nat)
    requires SamePast(s, u, i) && n <= i + 1
    ensures FilledAt(s, from, to, d, n) == FilledAt(u, from, to, d, n)
    ensures FilledAt(s, from, to, d, n).Some? ==> FilledAt(s, from, to, d, n).value <= s.base[i].closeTime
  {
    if n > 0 {
      FillingIsShared(s, u, from, to, d, i, n - 1);
      KeptIsShared(s, u, from, to, n - 1);
      assert Times(s.base)[n - 1] <= Times(s.base)[i];
      LastClosedIsShared(s.d1, u.d1, s.base[i].closeTime, s.base[n - 1].closeTime);
    }
  }

  lemma RegimeIsShared(s: Bundle, u: Bundle, g: Given, from: int, to: int, i: nat)
    requires SamePast(s, u, i)
    ensures RegimeAt(s, g, from, to, i) == RegimeAt(u, g, from, to, i)
  {
    var t := s.base[i].closeTime;
    LastClosedIsShared(s.d1, u.d1, t, t);
    var d := LastClosed(s.d1, t);
    if d >= 0 {
      FillingIsShared(s, u, from, to, d, i, i);
      assert Days(s, d) == Days(u, d);
    }
  }

  lemma ContextIsShared(s: Bundle, u: Bundle, t: int, regime: Option<Regime>)
    requires SameUntil(s.h1, u.h1, t) && SameUntil(s.h4, u.h4, t) && SameFunding(s.funding, u.funding, t)
    ensures ContextOf(s, t, regime) == ContextOf(u, t, regime)
  {
    TrendIsShared(s.h1, u.h1, 120, t);
    TrendIsShared(s.h4, u.h4, 80, t);
    DistanceIsShared(s, u, t);
    FundingIsShared(s.funding, u.funding, t);
  }

  /**
   * Whatever comes later, in any series, a bar is kept or not and has its row by what had closed by then; so
   * its verdict, which is of the row alone, does not know the future either.
   */
  lemma RowSeesNoFuture(s: Bundle, u: Bundle, g: Given, from: int, to: int, i: nat)
    requires SamePast(s, u, i)
    ensures Kept(s, from, to, i) == Kept(u, from, to, i)
    ensures Kept(s, from, to, i) ==> Row(s, g, from, to, i) == Row(u, g, from, to, i)
  {
    KeptIsShared(s, u, from, to, i);
    if Kept(s, from, to, i) {
      AtrShares(s.base, u.base, 14, i);
      RatioShares(s.base, u.base, 20, i);
      WindowShares(s.base, u.base, 60, i);
      SideShares(s.base, u.base, High, i);
      SideShares(s.base, u.base, Low, i);
      RegimeIsShared(s, u, g, from, to, i);
      ContextIsShared(s, u, s.base[i].closeTime, RegimeAt(s, g, from, to, i));
    }
  }

  // ------------------------------------------------------------------ the history as it stood

  /** The candles that had closed by `t`. */
  function ClosedThen(bars: seq<Kline>, t: int): seq<Kline> {
    bars[..LastClosed(bars, t) + 1]
  }

  function FundedThen(fs: seq<Funding>, t: int): seq<Funding> {
    fs[..LastFunding(fs, t) + 1]
  }

  /** What was known when bar `i` closed. */
  function Then(s: Bundle, i: nat): Bundle
    requires i < |s.base|
  {
    var t := s.base[i].closeTime;
    Bundle(s.base[..i + 1], ClosedThen(s.h1, t), ClosedThen(s.h4, t), ClosedThen(s.d1, t), FundedThen(s.funding, t))
  }

  lemma ClosedThenIsSame(bars: seq<Kline>, t: int)
    requires Ascending(Times(bars))
    ensures SameUntil(bars, ClosedThen(bars, t), t)
  {
    var u, n := ClosedThen(bars, t), LastClosed(bars, t) + 1;
    LastOf(bars, t);
    forall i, j | 0 <= i < j < |u| ensures Times(u)[i] <= Times(u)[j] {
      assert Times(bars)[i] <= Times(bars)[j];
    }
    assert Share(bars, u, n) && OnlyAfter(bars, n, t) && OnlyAfter(u, n, t);
  }

  lemma FundedThenIsSame(fs: seq<Funding>, t: int)
    requires Ascending(FundingTimes(fs))
    ensures SameFunding(fs, FundedThen(fs, t), t)
  {
    var u, n := FundedThen(fs, t), LastFunding(fs, t) + 1;
    LastRateOf(fs, t);
    forall i, j | 0 <= i < j < |u| ensures FundingTimes(u)[i] <= FundingTimes(u)[j] {
      assert FundingTimes(fs)[i] <= FundingTimes(fs)[j];
    }
    assert ShareRates(fs, u, n, t);
  }

  /** On series in order, the row of a bar in the whole history is its row in the history as it stood when it closed. */
  lemma BacktestIsLive(s: Bundle, g: Given, from: int, to: int, i: nat)
    requires i < |s.base| && Ascending(Times(s.base)) && Ascending(Times(s.h1)) && Ascending(Times(s.h4))
    requires Ascending(Times(s.d1)) && Ascending(FundingTimes(s.funding))
    ensures Kept(s, from, to, i) == Kept(Then(s, i), from, to, i)
    ensures Kept(s, from, to, i) ==> Row(s, g, from, to, i) == Row(Then(s, i), g, from, to, i)
  {
    var t := s.base[i].closeTime;
    ClosedThenIsSame(s.h1, t);
    ClosedThenIsSame(s.h4, t);
    ClosedThenIsSame(s.d1, t);
    FundedThenIsSame(s.funding, t);
    RowSeesNoFuture(s, Then(s, i), g, from, to, i);
  }
}
