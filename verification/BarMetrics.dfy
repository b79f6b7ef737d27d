/** Per-bar metrics computed in one pass, their windowed definition, and the verdict on a bar. */
module BarMetrics {
  import opened Wrappers
  import opened Bars

  datatype Regime = Bull | Bear | Range | Volatile

  datatype Funding = Funding(at: int, rate: real)

  datatype Bundle = Bundle(base: seq<Kline>, h1: seq<Kline>, h4: seq<Kline>, d1: seq<Kline>, funding: seq<Funding>)

  /** The measurements that exist once per direction, upward on highs and downward on lows. */
  datatype Side = Side(level: real, priorLevel: real, broke: bool, barsSince: int, breakVolume: Option<real>)

  datatype Context = Context(
    dirH1: Option<Direction>, dirH4: Option<Direction>, h4DistAtr: Option<real>,
    regime: Option<Regime>, fundingAbsPct: Option<real>)

  datatype Metrics = Metrics(
    t: int, close: real, atr: real, atrPct: real, atrFloor: real, volRatio: real, ema20: real,
    up: Side, down: Side, context: Context)

  /** What is taken as given: how at least 30 daily bars are classified, and the volatility floor. */
  datatype Given = Given(classify: seq<Kline> -> Regime, floor: real)

  function Times(bars: seq<Kline>): (r: seq<int>)
    ensures |r| == |bars| && forall i | 0 <= i < |r| :: r[i] == bars[i].closeTime
  {
    seq(|bars|, i requires 0 <= i < |bars| => bars[i].closeTime)
  }

  function LastClosed(bars: seq<Kline>, t: int): (r: int)
    ensures -1 <= r < |bars|
  {
    BisectIsInRange(Times(bars), t, 0, |bars| - 1, -1);
    LastAt(Times(bars), t)
  }

  function FundingTimes(fs: seq<Funding>): (r: seq<int>)
    ensures |r| == |fs| && forall i | 0 <= i < |r| :: r[i] == fs[i].at
  {
    seq(|fs|, i requires 0 <= i < |fs| => fs[i].at)
  }

  function LastFunding(fs: seq<Funding>, t: int): (r: int)
    ensures -1 <= r < |fs|
  {
    BisectIsInRange(FundingTimes(fs), t, 0, |fs| - 1, -1);
    LastAt(FundingTimes(fs), t)
  }

  // ------------------------------------------------------------------ breakouts

  /** Bar `i` closes beyond the extreme of up to 20 bars before it. */
  predicate Broke(bars: seq<Kline>, pick: Pick, i: nat)
    requires i < |bars|
  {
    var level := Extreme(bars, 20, pick, false, i);
    level.Some? && !Beats(pick, level.value, bars[i].close)
  }

  /** The latest breakout before bar `n`, -1 without one. */
  function LatestBreak(bars: seq<Kline>, pick: Pick, n: nat): (r: int)
    requires n <= |bars|
    ensures -1 <= r < n
    ensures r >= 0 ==> Broke(bars, pick, r)
    ensures forall j | r < j < n :: !Broke(bars, pick, j)
  {
    if n == 0 then -1 else if Broke(bars, pick, n - 1) then n - 1 else LatestBreak(bars, pick, n - 1)
  }

  // ------------------------------------------------------------------ the daily regime

  function ClosedBy(bars: seq<Kline>, t: int): seq<Kline> {
    if bars == [] then []
    else
      var before := ClosedBy(bars[..|bars| - 1], t);
      if bars[|bars| - 1].closeTime <= t then before + [bars[|bars| - 1]] else before
  }

  function DailyRegime(g: Given, bars: seq<Kline>, t: int): Option<Regime> {
    var closed := ClosedBy(bars, t);
    var ks := if |closed| >= 30 then closed else bars;
    if |ks| < 30 then None else Some(g.classify(ks))
  }

  /** Up to 260 daily bars ending at `d`. */
  function Days(s: Bundle, d: int): seq<Kline>
    requires 0 <= d < |s.d1|
  {
    s.d1[Max(0, d - 259)..d + 1]
  }

  function RegimeOn(s: Bundle, g: Given, d: int, t: int): Option<Regime>
    requires 0 <= d < |s.d1|
  {
    if |Days(s, d)| >= 30 then DailyRegime(g, Days(s, d), t) else None
  }

  // ------------------------------------------------------------------ the windowed definition of a row

  predicate Kept(s: Bundle, from: int, to: int, i: nat)
    requires i < |s.base|
  {
    && from <= s.base[i].closeTime <= to
    && i >= 20
    && Atr(s.base, 14, i) > 0.0
    && s.base[i].close > 0.0
  }

  /** The close of the first kept bar before `n` whose last daily bar is `d`: the bar that fills the cache. */
  function FilledAt(s: Bundle, from: int, to: int, d: int, n: nat): Option<int>
    requires n <= |s.base|
  {
    if n == 0 then None
    else
      var earlier := FilledAt(s, from, to, d, n - 1);
      var t := s.base[n - 1].closeTime;
      if earlier.Some? then earlier
      else if Kept(s, from, to, n - 1) && LastClosed(s.d1, t) == d then Some(t)
      else None
  }

  function RegimeAt(s: Bundle, g: Given, from: int, to: int, i: nat): Option<Regime>
    requires i < |s.base|
  {
    var d := LastClosed(s.d1, s.base[i].closeTime);
    if d < 0 then None
    else
      match FilledAt(s, from, to, d, i)
      case Some(t) => RegimeOn(s, g, d, t)
      case None => RegimeOn(s, g, d, s.base[i].closeTime)
  }

  function DistanceH4(s: Bundle, t: int): Option<real> {
    var i := LastClosed(s.h4, t);
    if i >= 0 && Atr(s.h4, 14, i) > 0.0 then Some(Abs(s.h4[i].close - Ema20(s.h4, 80, i)) / Atr(s.h4, 14, i)) else None
  }

  function TrendAt(bars: seq<Kline>, window: nat, t: int): Option<Direction>
    requires window > 0
  {
    var i := LastClosed(bars, t);
    if i >= 0 then Trend(bars, window, i) else None
  }

  function FundingAt(fs: seq<Funding>, t: int): Option<real> {
    var i := LastFunding(fs, t);
    if i >= 0 then Some(Abs(fs[i].rate) * 100.0) else None
  }

  function BarsSince(bars: seq<Kline>, pick: Pick, i: nat): int
    requires i < |bars|
  {
    var j := LatestBreak(bars, pick, i + 1);
    if j >= 0 then i - j else -1
  }

  function BreakVolume(bars: seq<Kline>, pick: Pick, i: nat): Option<real>
    requires i < |bars|
  {
    var j := LatestBreak(bars, pick, i + 1);
    if j >= 0 then Some(VolumeRatio(bars, 20, j)) else None
  }

  function Level(bars: seq<Kline>, pick: Pick, inclusive: bool, i: nat): real
    requires 1 <= i < |bars|
  {
    Extreme(bars, 20, pick, inclusive, i).value
  }

  function SideOf(bars: seq<Kline>, pick: Pick, i: nat): Side
    requires 1 <= i < |bars|
  {
    Side(Level(bars, pick, true, i), Level(bars, pick, false, i), Broke(bars, pick, i),
      BarsSince(bars, pick, i), BreakVolume(bars, pick, i))
  }

  function ContextOf(s: Bundle, t: int, regime: Option<Regime>): Context {
    Context(TrendAt(s.h1, 120, t), TrendAt(s.h4, 80, t), DistanceH4(s, t), regime, FundingAt(s.funding, t))
  }

  function Percent(part: real, whole: real): real
    requires whole > 0.0
  {
    part / whole * 100.0
  }

  function Row(s: Bundle, g: Given, from: int, to: int, i: nat): Metrics
    requires i < |s.base| && Kept(s, from, to, i)
  {
    var bars, t := s.base, s.base[i].closeTime;
    var close, atr := bars[i].close, Atr(bars, 14, i);
    Metrics(
      t, close, atr, Percent(atr, close), g.floor, VolumeRatio(bars, 20, i), Ema20(bars, 60, i),
      SideOf(bars, High, i), SideOf(bars, Low, i), ContextOf(s, t, RegimeAt(s, g, from, to, i)))
  }

  function KeptIndices(s: Bundle, from: int, to: int, n: nat): (r: seq<nat>)
    requires n <= |s.base|
    ensures forall k | 0 <= k < |r| :: r[k] < n && Kept(s, from, to, r[k])
    ensures forall i | 0 <= i < n && Kept(s, from, to, i) :: i in r
    ensures forall j, k | 0 <= j < k < |r| :: r[j] < r[k]
  {
    if n == 0 then []
    else
      var before := KeptIndices(s, from, to, n - 1);
      if Kept(s, from, to, n - 1) then before + [n - 1] else before
  }

  // ------------------------------------------------------------------ the one pass

  ghost predicate IsCache(s: Bundle, g: Given, from: int, to: int, n: nat, cache: map<int, Option<Regime>>)
    requires n <= |s.base|
  {
    && (forall d | d in cache :: 0 <= d < |s.d1| && FilledAt(s, from, to, d, n).Some?)
    && (forall d | d in cache :: cache[d] == RegimeOn(s, g, d, FilledAt(s, from, to, d, n).value))
    && (forall d | 0 <= d < |s.d1| && FilledAt(s, from, to, d, n).Some? :: d in cache)
  }

  method RegimeFor(s: Bundle, g: Given, ghost from: int, ghost to: int, i: nat, cache: map<int, Option<Regime>>)
    returns (regime: Option<Regime>, after: map<int, Option<Regime>>)
    requires i < |s.base| && Kept(s, from, to, i) && IsCache(s, g, from, to, i, cache)
    ensures regime == RegimeAt(s, g, from, to, i) && IsCache(s, g, from, to, i + 1, after)
  {
    var t := s.base[i].closeTime;
    var at := LastIndexAt(Times(s.d1), t);
    assert at == LastClosed(s.d1, t);
    if at < 0 {
      return None, cache;
    }
    if at in cache {
      return cache[at], cache;
    }
    var daily := Days(s, at);
    regime := if |daily| >= 30 then DailyRegime(g, daily, t) else None;
    after := cache[at := regime];
  }

  /** The arrays computed ahead of the pass. */
  datatype Series = Series(
    atr: seq<real>, hiIncl: seq<Option<real>>, loIncl: seq<Option<real>>,
    hiPrev: seq<Option<real>>, loPrev: seq<Option<real>>, vol: seq<real>, ema20: seq<real>,
    h1Dir: seq<Option<Direction>>, h4Dir: seq<Option<Direction>>, h4Ema: seq<real>, h4Atr: seq<real>)

  ghost predicate Extremes(bars: seq<Kline>, pick: Pick, inclusive: bool, out: seq<Option<real>>) {
    |out| == |bars| && forall i | 0 <= i < |out| :: out[i] == Extreme(bars, 20, pick, inclusive, i)
  }

  ghost predicate Ranges(bars: seq<Kline>, out: seq<real>) {
    |out| == |bars| && forall i | 0 <= i < |out| :: out[i] == Atr(bars, 14, i)
  }

  ghost predicate Trends(bars: seq<Kline>, window: nat, out: seq<Option<Direction>>)
    requires window > 0
  {
    |out| == |bars| && forall i | 0 <= i < |out| :: out[i] == Trend(bars, window, i)
  }

  ghost predicate Averages(bars: seq<Kline>, window: nat, out: seq<real>)
    requires window > 0
  {
    |out| == |bars| && forall i | 0 <= i < |out| :: out[i] == Ema20(bars, window, i)
  }

  ghost predicate Volumes(bars: seq<Kline>, out: seq<real>) {
    |out| == |bars| && forall i | 0 <= i < |out| :: out[i] == VolumeRatio(bars, 20, i)
  }

  ghost predicate IsSeries(s: Bundle, x: Series) {
    && Ranges(s.base, x.atr) && Ranges(s.h4, x.h4Atr)
    && Extremes(s.base, High, true, x.hiIncl) && Extremes(s.base, Low, true, x.loIncl)
    && Extremes(s.base, High, false, x.hiPrev) && Extremes(s.base, Low, false, x.loPrev)
    && Volumes(s.base, x.vol) && Averages(s.base, 60, x.ema20)
    && Trends(s.h1, 120, x.h1Dir) && Trends(s.h4, 80, x.h4Dir) && Averages(s.h4, 80, x.h4Ema)
  }

  method ComputeSeries(s: Bundle) returns (x: Series)
    ensures IsSeries(s, x)
  {
    var atr := RollingAtr(s.base, 14);
    var hiIncl := RollingExtreme(s.base, 20, High, true);
    var loIncl := RollingExtreme(s.base, 20, Low, true);
    var hiPrev := RollingExtreme(s.base, 20, High, false);
    var loPrev := RollingExtreme(s.base, 20, Low, false);
    var vol := RollingVolumeRatio(s.base, 20);
    var _, ema20 := WindowedEmaDir(s.base, 60);
    var h1Dir, _ := WindowedEmaDir(s.h1, 120);
    var h4Dir, h4Ema := WindowedEmaDir(s.h4, 80);
    var h4Atr := RollingAtr(s.h4, 14);
    x := Series(atr, hiIncl, loIncl, hiPrev, loPrev, vol, ema20, h1Dir, h4Dir, h4Ema, h4Atr);
  }

  method BuildContext(s: Bundle, x: Series, t: int, regime: Option<Regime>) returns (c: Context)
    requires IsSeries(s, x)
    ensures c == ContextOf(s, t, regime)
  {
    var i1 := LastIndexAt(Times(s.h1), t);
    var i4 := LastIndexAt(Times(s.h4), t);
    assert i1 == LastClosed(s.h1, t) && i4 == LastClosed(s.h4, t);
    var distance :=
      if i4 >= 0 && x.h4Atr[i4] > 0.0 then Some(Abs(s.h4[i4].close - x.h4Ema[i4]) / x.h4Atr[i4]) else None;
    var f := LastIndexAt(FundingTimes(s.funding), t);
    assert f == LastFunding(s.funding, t);
    c := Context(
      if i1 >= 0 then x.h1Dir[i1] else None,
      if i4 >= 0 then x.h4Dir[i4] else None,
      distance, regime,
      if f >= 0 then Some(Abs(s.funding[f].rate) * 100.0) else None);
  }

  method BuildSide(bars: seq<Kline>, pick: Pick, level: seq<Option<real>>, prior: seq<Option<real>>, vol: seq<real>,
                   i: nat, last: int) returns (side: Side)
    requires Extremes(bars, pick, true, level) && Extremes(bars, pick, false, prior) && Volumes(bars, vol)
    requires 1 <= i < |bars| && last == LatestBreak(bars, pick, i + 1)
    ensures side == SideOf(bars, pick, i)
  {
    var broke := BreaksOut(bars, pick, prior, i);
    side := Side(level[i].value, prior[i].value, broke,
      if last >= 0 then i - last else -1,
      if last >= 0 then Some(vol[last]) else None);
  }

  method BreaksOut(bars: seq<Kline>, pick: Pick, prior: seq<Option<real>>, i: nat) returns (broke: bool)
    requires Extremes(bars, pick, false, prior) && i < |bars|
    ensures broke == Broke(bars, pick, i)
  {
    match pick
    case High => broke := prior[i].Some? && bars[i].close > prior[i].value;
    case Low => broke := prior[i].Some? && bars[i].close < prior[i].value;
  }

  method BuildRow(s: Bundle, g: Given, ghost from: int, ghost to: int, x: Series, i: nat,
                  lastUp: int, lastDown: int, regime: Option<Regime>) returns (row: Metrics)
    requires IsSeries(s, x) && i < |s.base| && Kept(s, from, to, i) && regime == RegimeAt(s, g, from, to, i)
    requires lastUp == LatestBreak(s.base, High, i + 1) && lastDown == LatestBreak(s.base, Low, i + 1)
    ensures row == Row(s, g, from, to, i)
  {
    var close, t := s.base[i].close, s.base[i].closeTime;
    var up := BuildSide(s.base, High, x.hiIncl, x.hiPrev, x.vol, i, lastUp);
    var down := BuildSide(s.base, Low, x.loIncl, x.loPrev, x.vol, i, lastDown);
    var context := BuildContext(s, x, t, regime);
    row := Metrics(t, close, x.atr[i], Percent(x.atr[i], close), g.floor, x.vol[i], x.ema20[i], up, down, context);
  }

  /** The rows of the kept bars before `n`. */
  ghost predicate RowsBefore(s: Bundle, g: Given, from: int, to: int, n: nat, metrics: seq<Metrics>, index: seq<nat>)
    requires n <= |s.base|
  {
    && index == KeptIndices(s, from, to, n)
    && |metrics| == |index|
    && forall k | 0 <= k < |index| :: metrics[k] == Row(s, g, from, to, index[k])
  }

  lemma AddRow(s: Bundle, g: Given, from: int, to: int, n: nat, metrics: seq<Metrics>, index: seq<nat>)
    requires n < |s.base| && RowsBefore(s, g, from, to, n, metrics, index)
    ensures Kept(s, from, to, n) ==>
      RowsBefore(s, g, from, to, n + 1, metrics + [Row(s, g, from, to, n)], index + [n])
    ensures !Kept(s, from, to, n) ==> RowsBefore(s, g, from, to, n + 1, metrics, index)
  {
  }

  /** One pass over the bars gives exactly the windowed row of every kept bar, in order. */
  method ComputeMetrics(s: Bundle, g: Given, from: int, to: int) returns (metrics: seq<Metrics>, index: seq<nat>)
    ensures RowsBefore(s, g, from, to, |s.base|, metrics, index)
  {
    var x := ComputeSeries(s);
    var cache: map<int, Option<Regime>> := map[];
    var lastUp, lastDown := -1, -1;
    metrics, index := [], [];
    for i := 0 to |s.base|
      invariant lastUp == LatestBreak(s.base, High, i) && lastDown == LatestBreak(s.base, Low, i)
      invariant IsCache(s, g, from, to, i, cache)
      invariant RowsBefore(s, g, from, to, i, metrics, index)
    {
      var brokeUp := BreaksOut(s.base, High, x.hiPrev, i);
      var brokeDown := BreaksOut(s.base, Low, x.loPrev, i);
      lastUp := if brokeUp then i else lastUp;
      lastDown := if brokeDown then i else lastDown;
      AddRow(s, g, from, to, i, metrics, index);
      var close, t := s.base[i].close, s.base[i].closeTime;
      if from <= t <= to && i >= 20 && x.hiPrev[i].Some? && x.atr[i] > 0.0 && close > 0.0 {
        var regime: Option<Regime>;
        regime, cache := RegimeFor(s, g, from, to, i, cache);
        var row := BuildRow(s, g, from, to, x, i, lastUp, lastDown, regime);
        metrics := metrics + [row];
        index := index + [i];
      }
    }
  }
}
