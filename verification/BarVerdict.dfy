/** The verdict on one bar under a threshold set, and what it can and cannot say of computed bars. */
module BarVerdict {
  import opened Wrappers
  import opened Bars
  import opened BarMetrics

  datatype VolMode = Current | Either

  datatype TrendMode = Both | H1Veto

  /** `Self` counts the current bar in its own breakout level, `Prior` does not. */
  datatype BreakoutLevel = Self | Prior

  datatype Thresholds = Thresholds(
    atrFloorMult: real, chaseAtrMax: real, retestVolMin: real, volMode: VolMode, trendMode: TrendMode,
    h4VetoAtr: real, breakoutLevel: BreakoutLevel, breakoutWindow: int, rangeVolMin: real, fundingAbsMax: real,
    requireTrendRegime: bool)

  const CURRENT_THRESHOLDS :=
    Thresholds(1.0, 1.5, 1.0, Current, Both, 1.0, Self, 1, 1.5, 0.05, false)

  datatype Conditions = Conditions(
    atrOk: bool, trendAgree: bool, withinChase: bool, breakout: bool, retestVol: bool, fundingOk: bool, regimeOk: bool)

  /** `distAtr` is absent when it is infinite. */
  datatype Verdict = Verdict(
    dir: Direction, dirTrend: Option<Direction>, pass: Conditions, joint: bool, distAtr: Option<real>, level: real,
    watchEligible: bool, retestConfirmed: bool)

  function TrendDirection(c: Context, th: Thresholds): Option<Direction> {
    match th.trendMode
    case Both => if c.dirH1.Some? && c.dirH1 == c.dirH4 then c.dirH1 else None
    case H1Veto =>
      var against := c.dirH4.Some? && c.dirH4 != c.dirH1;
      var strength := if c.h4DistAtr.Some? then c.h4DistAtr.value else 0.0;
      if c.dirH1.Some? && !(against && strength > th.h4VetoAtr) then c.dirH1 else None
  }

  predicate WithinWindow(side: Side, th: Thresholds) {
    0 <= side.barsSince < th.breakoutWindow
  }

  predicate BrokenOut(m: Metrics, side: Side, dir: Direction, th: Thresholds) {
    match th.breakoutLevel
    case Self => if dir == Long then m.close > m.up.level else m.close < m.down.level
    case Prior => WithinWindow(side, th)
  }

  predicate VolumeOk(m: Metrics, side: Side, th: Thresholds) {
    || m.volRatio >= th.retestVolMin
    || (th.volMode == Either && side.breakVolume.Some? && WithinWindow(side, th) && side.breakVolume.value >= th.retestVolMin)
  }

  predicate RegimeOk(m: Metrics, dir: Direction, th: Thresholds) {
    match m.context.regime
    case None => !th.requireTrendRegime
    case Some(regime) =>
      if th.requireTrendRegime && regime != Bull && regime != Bear then false
      else if regime == Bear && dir == Long then false
      else if regime == Bull && dir != Long then false
      else if regime == Range then m.volRatio >= th.rangeVolMin
      else true
  }

  function EvaluateBar(m: Metrics, th: Thresholds): Verdict {
    var trend := TrendDirection(m.context, th);
    var nearUp := Abs(m.close - m.up.level) <= Abs(m.close - m.down.level);
    var dir := if trend.Some? then trend.value else if nearUp then Long else Short;
    var side := if dir == Long then m.up else m.down;
    var level := if th.breakoutLevel == Self then side.level else side.priorLevel;
    var dist := if m.atr > 0.0 then Some(Abs(m.close - level) / m.atr) else None;
    var breakout, volume := BrokenOut(m, side, dir, th), VolumeOk(m, side, th);
    var pass := Conditions(
      m.atrPct >= m.atrFloor * th.atrFloorMult,
      trend.Some?,
      dist.Some? && dist.value <= th.chaseAtrMax,
      breakout,
      volume,
      m.context.fundingAbsPct.None? || m.context.fundingAbsPct.value <= th.fundingAbsMax,
      RegimeOk(m, dir, th));
    var joint := pass == Conditions(true, true, true, true, true, true, true);
    var confirmed := breakout && volume;
    Verdict(dir, trend, pass, joint, dist, level, trend.Some? && pass.withinChase && !confirmed, confirmed)
  }

  // ------------------------------------------------------------------ the level that counts the bar itself

  ghost predicate Sane(bars: seq<Kline>) {
    forall i | 0 <= i < |bars| :: bars[i].low <= bars[i].close <= bars[i].high
  }

  lemma LevelCoversTheBar(bars: seq<Kline>, i: nat)
    requires Sane(bars) && 1 <= i < |bars|
    ensures Level(bars, Low, true, i) <= bars[i].close <= Level(bars, High, true, i)
  {
    BestIsExtreme(bars, High, Max(0, i - 19), i + 1);
    BestIsExtreme(bars, Low, Max(0, i - 19), i + 1);
    assert Beats(High, Level(bars, High, true, i), Picked(bars[i], High));
    assert Beats(Low, Level(bars, Low, true, i), Picked(bars[i], Low));
  }

  /**
   * With the bar's own extreme in the level no computed bar ever breaks out, so none passes all
   * conditions and none confirms a retest, whatever the other thresholds.
   */
  lemma SelfLevelNeverBreaks(s: Bundle, g: Given, from: int, to: int, i: nat, th: Thresholds)
    requires Sane(s.base) && i < |s.base| && Kept(s, from, to, i) && th.breakoutLevel == Self
    ensures
      (var v := EvaluateBar(Row(s, g, from, to, i), th);
        !v.pass.breakout && !v.joint && !v.retestConfirmed)
  {
    LevelCoversTheBar(s.base, i);
  }

  /** Under the rules in force no row that the pass produces is ever a joint pass. */
  lemma CurrentRulesNeverPropose(
    s: Bundle, g: Given, from: int, to: int, metrics: seq<Metrics>, index: seq<nat>, k: nat)
    requires Sane(s.base) && RowsBefore(s, g, from, to, |s.base|, metrics, index) && k < |metrics|
    ensures !EvaluateBar(metrics[k], CURRENT_THRESHOLDS).joint
  {
    SelfLevelNeverBreaks(s, g, from, to, index[k], CURRENT_THRESHOLDS);
  }

  // ------------------------------------------------------------------ the level that does not

  /** Of a kept bar every window is full: 14 ranges, 20 volumes and 20 bars before it, or 20 with it. */
  lemma KeptWindowsAreFull(s: Bundle, from: int, to: int, i: nat, pick: Pick)
    requires i < |s.base| && Kept(s, from, to, i)
    ensures i >= 20 && from <= s.base[i].closeTime <= to && s.base[i].close > 0.0
    ensures Atr(s.base, 14, i) == SumRanges(s.base, i - 13, i + 1) / 14.0 > 0.0
    ensures Level(s.base, pick, false, i) == Best(s.base, pick, i - 20, i)
    ensures Level(s.base, pick, true, i) == Best(s.base, pick, i - 19, i + 1)
    ensures SumVolume(s.base, i - 20, i) > 0.0 ==>
      VolumeRatio(s.base, 20, i) == s.base[i].volume / (SumVolume(s.base, i - 20, i) / 20.0)
  {
  }

  /** Bar `j` closes beyond every high (or low) of up to 20 bars before it, of which there is one. */
  ghost predicate ClosesBeyond(bars: seq<Kline>, pick: Pick, j: nat)
    requires j < |bars|
  {
    j >= 1 && forall k | Max(0, j - 20) <= k < j :: !Beats(pick, Picked(bars[k], pick), bars[j].close)
  }

  lemma BrokeIsClosesBeyond(bars: seq<Kline>, pick: Pick, j: nat)
    requires j < |bars|
    ensures Broke(bars, pick, j) <==> ClosesBeyond(bars, pick, j)
  {
    if j >= 1 {
      BestIsExtreme(bars, pick, Max(0, j - 20), j);
    }
  }

  /** One of the last `window` bars up to `i` closed beyond the bars before it. */
  ghost predicate FreshBreakout(bars: seq<Kline>, pick: Pick, i: nat, window: int)
    requires i < |bars|
  {
    exists j | 0 <= j <= i :: i - j < window && ClosesBeyond(bars, pick, j)
  }

  function PickOf(dir: Direction): Pick {
    if dir == Long then High else Low
  }

  /** A bar passes `breakout` exactly when one of the last `breakoutWindow` bars closed beyond the bars before it. */
  lemma PriorLevelMeansBreakout(s: Bundle, g: Given, from: int, to: int, i: nat, th: Thresholds)
    requires i < |s.base| && Kept(s, from, to, i) && th.breakoutLevel == Prior
    ensures
      (var v := EvaluateBar(Row(s, g, from, to, i), th);
        v.pass.breakout <==> FreshBreakout(s.base, PickOf(v.dir), i, th.breakoutWindow))
  {
    var v := EvaluateBar(Row(s, g, from, to, i), th);
    var pick := PickOf(v.dir);
    var latest := LatestBreak(s.base, pick, i + 1);
    forall j: nat | j <= i ensures Broke(s.base, pick, j) <==> ClosesBeyond(s.base, pick, j) {
      BrokeIsClosesBeyond(s.base, pick, j);
    }
    if v.pass.breakout {
      assert ClosesBeyond(s.base, pick, latest);
    }
  }

  /**
   * A joint pass is with the trend: its direction is the one-hour trend, the daily regime does not oppose
   * it, the close is within the chase distance of the level, and the volume is enough for the regime.
   */
  lemma JointIsWithTheTrend(m: Metrics, th: Thresholds)
    requires EvaluateBar(m, th).joint
    ensures
      (var v := EvaluateBar(m, th);
        && m.context.dirH1 == Some(v.dir)
        && (th.trendMode == Both ==> m.context.dirH4 == Some(v.dir))
        && m.context.regime != Some(if v.dir == Long then Bear else Bull)
        && (th.requireTrendRegime ==> m.context.regime == Some(if v.dir == Long then Bull else Bear))
        && (m.context.regime == Some(Range) ==> m.volRatio >= th.rangeVolMin)
        && m.atr > 0.0 && Abs(m.close - v.level) <= th.chaseAtrMax * m.atr)
  {
    var v := EvaluateBar(m, th);
    var distance := Abs(m.close - v.level);
    assert v.distAtr == Some(distance / m.atr) && distance / m.atr <= th.chaseAtrMax;
    assert distance / m.atr * m.atr == distance;
    assert (th.chaseAtrMax - distance / m.atr) * m.atr >= 0.0;
  }

  /** Under the prior level a joint pass is near that level and in the direction of the trend. */
  lemma JointIsNearThePriorLevel(m: Metrics, th: Thresholds)
    requires EvaluateBar(m, th).joint && th.breakoutLevel == Prior
    ensures
      (var dir := EvaluateBar(m, th).dir;
        && EvaluateBar(m, th).pass.breakout
        && m.context.dirH1 == Some(dir) && m.context.regime != Some(if dir == Long then Bear else Bull)
        && Abs(m.close - (if dir == Long then m.up else m.down).priorLevel) <= th.chaseAtrMax * m.atr)
  {
    JointIsWithTheTrend(m, th);
  }

  /**
   * Under the prior level a bar passes all conditions only as a fresh breakout with the trend: one of the
   * last `breakoutWindow` bars closed beyond the bars before it in the direction of the one-hour trend,
   * the daily regime does not oppose it, and the close is within the chase distance of that level.
   */
  lemma PriorPassIsATrendBreakout(
    s: Bundle, g: Given, from: int, to: int, i: nat, th: Thresholds, m: Metrics, dir: Direction)
    requires i < |s.base| && Kept(s, from, to, i) && th.breakoutLevel == Prior
    requires m == Row(s, g, from, to, i) && EvaluateBar(m, th).joint && dir == EvaluateBar(m, th).dir
    ensures m.context.dirH1 == Some(dir) && m.context.regime != Some(if dir == Long then Bear else Bull)
    ensures FreshBreakout(s.base, PickOf(dir), i, th.breakoutWindow)
    ensures Abs(m.close - (if dir == Long then m.up else m.down).priorLevel) <= th.chaseAtrMax * m.atr
  {
    JointIsNearThePriorLevel(m, th);
    PriorLevelMeansBreakout(s, g, from, to, i, th);
  }

  // ------------------------------------------------------------------ when a bar passes

  /** The one-hour trend points this way, and the four-hour trend agrees or, in the other mode, does not veto it. */
  predicate Points(c: Context, th: Thresholds, dir: Direction) {
    && c.dirH1 == Some(dir)
    && match th.trendMode
       case Both => c.dirH4 == Some(dir)
       case H1Veto =>
         || c.dirH4 in {None, Some(dir)}
         || (if c.h4DistAtr.Some? then c.h4DistAtr.value <= th.h4VetoAtr else 0.0 <= th.h4VetoAtr)
  }

  /** The close is within the chase distance of the level. */
  predicate InChase(m: Metrics, th: Thresholds, level: real) {
    m.atr > 0.0 && Abs(m.close - level) <= th.chaseAtrMax * m.atr
  }

  /** The daily regime lets this direction through; a range asks for more volume. */
  predicate Admits(m: Metrics, th: Thresholds, dir: Direction) {
    match m.context.regime
    case Some(Bull) => dir == Long
    case Some(Bear) => dir == Short
    case Some(Range) => !th.requireTrendRegime && m.volRatio >= th.rangeVolMin
    case _ => !th.requireTrendRegime
  }

  lemma ChaseIsADistance(distance: real, atr: real, most: real)
    requires atr > 0.0
    ensures distance / atr <= most <==> distance <= most * atr
  {
    var q := distance / atr;
    assert q * atr == distance;
    if q <= most {
      assert (most - q) * atr >= 0.0;
    } else {
      assert (q - most) * atr > 0.0;
    }
  }

  /** The close is out of the level: beyond the one that counts the bar, or out of the other within the window. */
  predicate OutOf(m: Metrics, side: Side, th: Thresholds, dir: Direction) {
    match th.breakoutLevel
    case Self => if dir == Long then m.close > side.level else m.close < side.level
    case Prior => side.barsSince >= 0 && side.barsSince < th.breakoutWindow
  }

  /** The bar's volume is enough or, in that mode, that of a breakout within the window. */
  predicate Enough(m: Metrics, side: Side, th: Thresholds) {
    || m.volRatio >= th.retestVolMin
    || (&& th.volMode == Either && side.barsSince >= 0 && side.barsSince < th.breakoutWindow
        && side.breakVolume.Some? && side.breakVolume.value >= th.retestVolMin)
  }

  lemma PointsIsTrend(c: Context, th: Thresholds, dir: Direction)
    ensures TrendDirection(c, th) == Some(dir) <==> Points(c, th, dir)
  {
  }

  lemma AdmitsIsRegimeOk(m: Metrics, th: Thresholds, dir: Direction)
    ensures RegimeOk(m, dir, th) <==> Admits(m, th, dir)
  {
  }

  /** What the conditions of a verdict say of the side its direction picks. */
  lemma ConditionsExactly(m: Metrics, th: Thresholds, side: Side, level: real, v: Verdict)
    requires v == EvaluateBar(m, th) && side == if v.dir == Long then m.up else m.down
    requires level == if th.breakoutLevel == Self then side.level else side.priorLevel
    ensures v.pass.atrOk <==> m.atrPct >= m.atrFloor * th.atrFloorMult
    ensures v.pass.trendAgree <==> TrendDirection(m.context, th) == Some(v.dir)
    ensures v.pass.withinChase <==> InChase(m, th, level)
    ensures v.pass.breakout <==> OutOf(m, side, th, v.dir)
    ensures v.pass.retestVol <==> Enough(m, side, th)
    ensures v.pass.fundingOk <==> (m.context.fundingAbsPct.Some? ==> m.context.fundingAbsPct.value <= th.fundingAbsMax)
    ensures v.pass.regimeOk <==> RegimeOk(m, v.dir, th)
  {
    ChaseExactly(m, th, side, level, v);
  }

  lemma ChaseExactly(m: Metrics, th: Thresholds, side: Side, level: real, v: Verdict)
    requires v == EvaluateBar(m, th) && side == if v.dir == Long then m.up else m.down
    requires level == if th.breakoutLevel == Self then side.level else side.priorLevel
    ensures v.pass.withinChase <==> InChase(m, th, level)
  {
    if m.atr > 0.0 {
      ChaseIsADistance(Abs(m.close - level), m.atr, th.chaseAtrMax);
    }
  }

  lemma JointIsAll(m: Metrics, th: Thresholds)
    ensures
      (var v := EvaluateBar(m, th);
        var p := v.pass;
        && (v.joint <==>
          p.atrOk && p.trendAgree && p.withinChase && p.breakout && p.retestVol && p.fundingOk && p.regimeOk)
        && (TrendDirection(m.context, th).Some? ==> v.dir == TrendDirection(m.context, th).value))
  {
  }

  /**
   * The trend points this way, the range is at the volatility floor, the close is within the chase distance of
   * this side's level and out of it, the volume is enough, funding is within its bound, and the daily regime
   * admits the direction.
   */
  predicate Suits(m: Metrics, th: Thresholds, dir: Direction, side: Side, level: real) {
    && Points(m.context, th, dir)
    && m.atrPct >= m.atrFloor * th.atrFloorMult
    && InChase(m, th, level) && OutOf(m, side, th, dir) && Enough(m, side, th)
    && (m.context.fundingAbsPct.Some? ==> m.context.fundingAbsPct.value <= th.fundingAbsMax)
    && Admits(m, th, dir)
  }

  /** A bar passes in a direction if and only if it suits it. */
  lemma PassesExactly(m: Metrics, th: Thresholds, dir: Direction, side: Side, level: real)
    requires side == if dir == Long then m.up else m.down
    requires level == if th.breakoutLevel == Self then side.level else side.priorLevel
    ensures EvaluateBar(m, th).joint && EvaluateBar(m, th).dir == dir <==> Suits(m, th, dir, side, level)
  {
    var v := EvaluateBar(m, th);
    JointIsAll(m, th);
    PointsIsTrend(m.context, th, dir);
    AdmitsIsRegimeOk(m, th, dir);
    if v.dir == dir {
      ConditionsExactly(m, th, side, level, v);
    }
  }

  /**
   * A bar is worth watching if and only if it is with the trend and within the chase distance but has not
   * broken out on enough volume; so none that passes is. Without a trend its direction is that of the nearer level.
   */
  lemma WatchedExactly(m: Metrics, th: Thresholds, side: Side, level: real, v: Verdict)
    requires v == EvaluateBar(m, th) && side == if v.dir == Long then m.up else m.down
    requires level == if th.breakoutLevel == Self then side.level else side.priorLevel
    ensures v.retestConfirmed <==> OutOf(m, side, th, v.dir) && Enough(m, side, th)
    ensures v.watchEligible <==> Points(m.context, th, v.dir) && InChase(m, th, level) && !v.retestConfirmed
    ensures v.joint ==> v.retestConfirmed && !v.watchEligible
    ensures !Points(m.context, th, Long) && !Points(m.context, th, Short) ==>
      (v.dir == Long <==> Abs(m.close - m.up.level) <= Abs(m.close - m.down.level))
  {
    ConditionsExactly(m, th, side, level, v);
    JointIsAll(m, th);
    PointsIsTrend(m.context, th, Long);
    PointsIsTrend(m.context, th, Short);
  }

  /** One of the last `window` bars up to `i`, the latest to do so, closed beyond the bars before it on enough volume. */
  ghost predicate FreshOnVolume(bars: seq<Kline>, pick: Pick, i: nat, window: int, least: real)
    requires i < |bars|
  {
    exists j | 0 <= j <= i ::
      && i - j < window && ClosesBeyond(bars, pick, j) && VolumeRatio(bars, 20, j) >= least
      && forall k | j < k <= i :: !ClosesBeyond(bars, pick, k)
  }

  lemma BreakVolumeIsOfTheLatest(bars: seq<Kline>, pick: Pick, i: nat, window: int, least: real)
    requires 1 <= i < |bars|
    ensures (var side := SideOf(bars, pick, i);
      (&& side.barsSince >= 0 && side.barsSince < window && side.breakVolume.Some? && side.breakVolume.value >= least)
        <==> FreshOnVolume(bars, pick, i, window, least))
  {
    var latest := LatestBreak(bars, pick, i + 1);
    forall j: nat | j <= i ensures Broke(bars, pick, j) <==> ClosesBeyond(bars, pick, j) {
      BrokeIsClosesBeyond(bars, pick, j);
    }
    if latest >= 0 {
      assert ClosesBeyond(bars, pick, latest);
      assert BreakVolume(bars, pick, i) == Some(VolumeRatio(bars, 20, latest));
    }
    if FreshOnVolume(bars, pick, i, window, least) {
      var j :| 0 <= j <= i && i - j < window && ClosesBeyond(bars, pick, j) && VolumeRatio(bars, 20, j) >= least
        && forall k | j < k <= i :: !ClosesBeyond(bars, pick, k);
      assert j == latest;
    }
  }

  lemma SideIsFreshBreakout(bars: seq<Kline>, pick: Pick, i: nat, window: int)
    requires 1 <= i < |bars|
    ensures 0 <= SideOf(bars, pick, i).barsSince < window <==> FreshBreakout(bars, pick, i, window)
  {
    var latest := LatestBreak(bars, pick, i + 1);
    forall j: nat | j <= i ensures Broke(bars, pick, j) <==> ClosesBeyond(bars, pick, j) {
      BrokeIsClosesBeyond(bars, pick, j);
    }
    if 0 <= SideOf(bars, pick, i).barsSince < window {
      assert ClosesBeyond(bars, pick, latest);
    }
  }

  lemma RowFields(s: Bundle, g: Given, from: int, to: int, i: nat, m: Metrics, dir: Direction)
    requires i < |s.base| && Kept(s, from, to, i) && m == Row(s, g, from, to, i)
    ensures (if dir == Long then m.up else m.down) == SideOf(s.base, PickOf(dir), i)
    ensures SideOf(s.base, PickOf(dir), i).priorLevel == Level(s.base, PickOf(dir), false, i)
    ensures m.atrPct == Atr(s.base, 14, i) / s.base[i].close * 100.0 && m.atrFloor == g.floor
    ensures m.volRatio == VolumeRatio(s.base, 20, i)
  {
  }

  lemma PriorSideExactly(bars: seq<Kline>, pick: Pick, i: nat, th: Thresholds, m: Metrics, side: Side, dir: Direction)
    requires 1 <= i < |bars| && th.breakoutLevel == Prior && side == SideOf(bars, pick, i)
    ensures OutOf(m, side, th, dir) <==> FreshBreakout(bars, pick, i, th.breakoutWindow)
    ensures Enough(m, side, th) <==>
      || m.volRatio >= th.retestVolMin
      || (th.volMode == Either && FreshOnVolume(bars, pick, i, th.breakoutWindow, th.retestVolMin))
  {
    SideIsFreshBreakout(bars, pick, i, th.breakoutWindow);
    BreakVolumeIsOfTheLatest(bars, pick, i, th.breakoutWindow, th.retestVolMin);
  }

  /** The same of bar `i` in terms of the candles, where its level is that of the bars before it. */
  ghost predicate CandlesSuit(
    bars: seq<Kline>, i: nat, th: Thresholds, floor: real, dir: Direction, m: Metrics)
    requires 1 <= i < |bars| && bars[i].close > 0.0
  {
    && Points(m.context, th, dir)
    && Atr(bars, 14, i) / bars[i].close * 100.0 >= floor * th.atrFloorMult
    && InChase(m, th, Level(bars, PickOf(dir), false, i))
    && FreshBreakout(bars, PickOf(dir), i, th.breakoutWindow)
    && (|| VolumeRatio(bars, 20, i) >= th.retestVolMin
        || (th.volMode == Either && FreshOnVolume(bars, PickOf(dir), i, th.breakoutWindow, th.retestVolMin)))
    && (m.context.fundingAbsPct.Some? ==> m.context.fundingAbsPct.value <= th.fundingAbsMax)
    && Admits(m, th, dir)
  }

  lemma SuitsByCandles(s: Bundle, g: Given, from: int, to: int, i: nat, th: Thresholds, m: Metrics, dir: Direction, side: Side)
    requires i < |s.base| && Kept(s, from, to, i) && th.breakoutLevel == Prior && m == Row(s, g, from, to, i)
    requires side == if dir == Long then m.up else m.down
    ensures Suits(m, th, dir, side, side.priorLevel) <==> CandlesSuit(s.base, i, th, g.floor, dir, m)
  {
    RowFields(s, g, from, to, i, m, dir);
    PriorSideExactly(s.base, PickOf(dir), i, th, m, side, dir);
  }

  /**
   * Under the prior level a computed bar passes in a direction if and only if its candles suit it: the breakout
   * is one of the last bars closing beyond the bars before it, and the volume that may stand in is that of the
   * latest such bar.
   */
  lemma ComputedBarPassesExactly(
    s: Bundle, g: Given, from: int, to: int, i: nat, th: Thresholds, m: Metrics, dir: Direction)
    requires i < |s.base| && Kept(s, from, to, i) && th.breakoutLevel == Prior && m == Row(s, g, from, to, i)
    ensures EvaluateBar(m, th).joint && EvaluateBar(m, th).dir == dir <==> CandlesSuit(s.base, i, th, g.floor, dir, m)
  {
    var side := if dir == Long then m.up else m.down;
    PassesExactly(m, th, dir, side, side.priorLevel);
    SuitsByCandles(s, g, from, to, i, th, m, dir, side);
  }

  // ------------------------------------------------------------------ looser thresholds

  /** No threshold of `b` is stricter than that of `a`; the breakout level is the same. */
  predicate Looser(a: Thresholds, b: Thresholds) {
    && b.atrFloorMult <= a.atrFloorMult && b.chaseAtrMax >= a.chaseAtrMax && b.retestVolMin <= a.retestVolMin
    && (a.volMode == Either ==> b.volMode == Either)
    && (a.trendMode == H1Veto ==> b.trendMode == H1Veto && b.h4VetoAtr >= a.h4VetoAtr)
    && b.breakoutLevel == a.breakoutLevel && b.breakoutWindow >= a.breakoutWindow
    && b.rangeVolMin <= a.rangeVolMin && b.fundingAbsMax >= a.fundingAbsMax
    && (b.requireTrendRegime ==> a.requireTrendRegime)
  }

  lemma TrendStays(c: Context, a: Thresholds, b: Thresholds)
    requires Looser(a, b) && TrendDirection(c, a).Some?
    ensures TrendDirection(c, b) == TrendDirection(c, a)
  {
  }

  lemma FloorScales(floor: real, a: real, b: real)
    requires floor >= 0.0 && b <= a
    ensures floor * b <= floor * a
  {
    assert floor * (a - b) >= 0.0;
  }

  /** Loosening thresholds never loses a bar that passed, and never changes its direction. */
  lemma LoosenKeepsJoint(m: Metrics, a: Thresholds, b: Thresholds)
    requires m.atrFloor >= 0.0 && Looser(a, b) && EvaluateBar(m, a).joint
    ensures EvaluateBar(m, b).joint && EvaluateBar(m, b).dir == EvaluateBar(m, a).dir
  {
    TrendStays(m.context, a, b);
    FloorScales(m.atrFloor, a.atrFloorMult, b.atrFloorMult);
  }

  // ------------------------------------------------------------------ the regime cache

  lemma {:induction false} AllClosed(bars: seq<Kline>, t: int)
    requires forall i | 0 <= i < |bars| :: bars[i].closeTime <= t
    ensures ClosedBy(bars, t) == bars
  {
    if bars != [] {
      AllClosed(bars[..|bars| - 1], t);
    }
  }

  lemma {:induction false} FilledByItsDay(s: Bundle, from: int, to: int, d: int, n: nat)
    requires n <= |s.base| && FilledAt(s, from, to, d, n).Some?
    ensures LastClosed(s.d1, FilledAt(s, from, to, d, n).value) == d
  {
    if FilledAt(s, from, to, d, n - 1).Some? {
      FilledByItsDay(s, from, to, d, n - 1);
    }
  }

  lemma RegimeIgnoresTime(s: Bundle, g: Given, d: int, t: int)
    requires Ascending(Times(s.d1)) && d == LastClosed(s.d1, t) && d >= 0
    ensures RegimeOn(s, g, d, t) == if |Days(s, d)| >= 30 then Some(g.classify(Days(s, d))) else None
  {
    LastAtIsLatest(Times(s.d1), t);
    var days := Days(s, d);
    forall i | 0 <= i < |days| ensures days[i].closeTime <= t {
      assert days[i] == s.d1[Max(0, d - 259) + i];
      assert Times(s.d1)[Max(0, d - 259) + i] <= t;
    }
    AllClosed(days, t);
  }

  /**
   * The cache is keyed by the daily bar only although the classifier is also given the time; on daily
   * bars in order that makes no difference: every row carries the regime computed at its own time.
   */
  lemma CacheIsInvisible(s: Bundle, g: Given, from: int, to: int, i: nat)
    requires Ascending(Times(s.d1)) && i < |s.base| && Kept(s, from, to, i)
    ensures
      (var t := s.base[i].closeTime;
        var d := LastClosed(s.d1, t);
        Row(s, g, from, to, i).context.regime == if d < 0 then None else RegimeOn(s, g, d, t))
  {
    var t := s.base[i].closeTime;
    var d := LastClosed(s.d1, t);
    if d >= 0 {
      RegimeIgnoresTime(s, g, d, t);
      var filled := FilledAt(s, from, to, d, i);
      if filled.Some? {
        FilledByItsDay(s, from, to, d, i);
        RegimeIgnoresTime(s, g, d, filled.value);
      }
    }
  }

  /** On funding rows in order, a row carries the latest rate not after its time. */
  lemma FundingIsLatest(fs: seq<Funding>, t: int, j: nat)
    requires Ascending(FundingTimes(fs)) && j < |fs| && fs[j].at <= t
    requires forall k | j < k < |fs| :: fs[k].at > t
    ensures FundingAt(fs, t) == Some(Abs(fs[j].rate) * 100.0)
  {
    LastAtIsLatest(FundingTimes(fs), t);
    var r := LastFunding(fs, t);
    assert FundingTimes(fs)[j] <= t;
    assert forall k | j < k < |fs| :: FundingTimes(fs)[k] > t;
  }
}
