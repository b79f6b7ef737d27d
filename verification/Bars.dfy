/** Running measurements over a series of bars, each equal to its windowed definition. */
module Bars {
  import opened Wrappers

  datatype Kline = Kline(high: real, low: real, close: real, volume: real, closeTime: int)

  function Max(a: int, b: int): int {
    if a >= b then a else b
  }

  function MaxReal(a: real, b: real): real {
    if a >= b then a else b
  }

  function Abs(x: real): real {
    if x >= 0.0 then x else -x
  }

  // ------------------------------------------------------------------ true range

  function TrueRange(bars: seq<Kline>, i: int): real
    requires 1 <= i < |bars|
  {
    var h, l, pc := bars[i].high, bars[i].low, bars[i - 1].close;
    MaxReal(MaxReal(h - l, Abs(h - pc)), Abs(l - pc))
  }

  function SumRanges(bars: seq<Kline>, a: int, b: int): real
    requires 1 <= a <= b <= |bars|
    decreases b - a
  {
    if a == b then 0.0 else SumRanges(bars, a, b - 1) + TrueRange(bars, b - 1)
  }

  lemma {:induction false} SumWithoutFirst(bars: seq<Kline>, a: int, b: int)
    requires 1 <= a < b <= |bars|
    ensures SumRanges(bars, a, b) == TrueRange(bars, a) + SumRanges(bars, a + 1, b)
    decreases b - a
  {
    if a + 1 < b {
      SumWithoutFirst(bars, a, b - 1);
    }
  }

  /** The mean of the last `period` true ranges; 0 while there are fewer. */
  function Atr(bars: seq<Kline>, period: nat, i: nat): real
    requires period > 0 && i < |bars|
  {
    if i < period then 0.0 else SumRanges(bars, i - period + 1, i + 1) / period as real
  }

  /** Taking in bar `i` and dropping the bar that leaves the window. */
  lemma WindowMoves(bars: seq<Kline>, period: nat, i: int)
    requires period > 0 && 1 <= i < |bars|
    ensures
      (var before, after := SumRanges(bars, Max(1, i - period), i), SumRanges(bars, Max(1, i + 1 - period), i + 1);
        after == before + TrueRange(bars, i) - if i > period then TrueRange(bars, i - period) else 0.0)
  {
    if i > period {
      SumWithoutFirst(bars, i - period, i + 1);
    }
  }

  method RollingAtr(bars: seq<Kline>, period: nat) returns (out: seq<real>)
    requires period > 0
    ensures |out| == |bars| && forall i | 0 <= i < |out| :: out[i] == Atr(bars, period, i)
  {
    if bars == [] {
      return [];
    }
    var ranges := [0.0];
    for i := 1 to |bars|
      invariant |ranges| == i && forall j | 1 <= j < i :: ranges[j] == TrueRange(bars, j)
    {
      ranges := ranges + [TrueRange(bars, i)];
    }
    out := [0.0];
    var sum := 0.0;
    for i := 1 to |bars|
      invariant |out| == i && sum == SumRanges(bars, Max(1, i - period), i)
      invariant forall j | 0 <= j < i :: out[j] == Atr(bars, period, j)
    {
      sum := sum + ranges[i];
      if i > period {
        sum := sum - ranges[i - period];
      }
      WindowMoves(bars, period, i);
      var mean := if i >= period then sum / period as real else 0.0;
      assert mean == Atr(bars, period, i);
      out := out + [mean];
    }
  }

  // ------------------------------------------------------------------ extremes

  datatype Pick = High | Low

  function Picked(bar: Kline, pick: Pick): real {
    match pick case High => bar.high case Low => bar.low
  }

  /** `a` is at least as extreme as `b`. */
  predicate Beats(pick: Pick, a: real, b: real) {
    match pick case High => a >= b case Low => a <= b
  }

  function More(pick: Pick, a: real, b: real): real {
    if Beats(pick, a, b) then a else b
  }

  function Best(bars: seq<Kline>, pick: Pick, a: int, b: int): real
    requires 0 <= a < b <= |bars|
    decreases b - a
  {
    var last := Picked(bars[b - 1], pick);
    if a + 1 == b then last else More(pick, Best(bars, pick, a, b - 1), last)
  }

  /** The best is reached in the window and beaten nowhere in it. */
  lemma {:induction false} BestIsExtreme(bars: seq<Kline>, pick: Pick, a: int, b: int)
    requires 0 <= a < b <= |bars|
    ensures forall j | a <= j < b :: Beats(pick, Best(bars, pick, a, b), Picked(bars[j], pick))
    ensures exists j | a <= j < b :: Best(bars, pick, a, b) == Picked(bars[j], pick)
    decreases b - a
  {
    if a + 1 < b {
      BestIsExtreme(bars, pick, a, b - 1);
    } else {
      assert Best(bars, pick, a, b) == Picked(bars[a], pick);
    }
  }

  /** The best of the last `n` bars up to `i`, with or without bar `i`; absent without a bar. */
  function Extreme(bars: seq<Kline>, n: nat, pick: Pick, inclusive: bool, i: nat): Option<real>
    requires i < |bars|
  {
    var end := if inclusive then i else i - 1;
    var start := Max(0, end - n + 1);
    if end < start then None else Some(Best(bars, pick, start, end + 1))
  }

  method RollingExtreme(bars: seq<Kline>, n: nat, pick: Pick, inclusive: bool) returns (out: seq<Option<real>>)
    ensures |out| == |bars| && forall i | 0 <= i < |out| :: out[i] == Extreme(bars, n, pick, inclusive, i)
  {
    out := [];
    for i := 0 to |bars|
      invariant |out| == i && forall j | 0 <= j < i :: out[j] == Extreme(bars, n, pick, inclusive, j)
    {
      var end := if inclusive then i else i - 1;
      var start := Max(0, end - n + 1);
      var best: Option<real> := None;
      var j := start;
      while j <= end
        invariant start <= j && (j <= end + 1 || j == start)
        invariant best == if j == start then None else Some(Best(bars, pick, start, j))
      {
        var v := Picked(bars[j], pick);
        best := if best.None? then Some(v) else Some(More(pick, best.value, v));
        j := j + 1;
      }
      out := out + [best];
    }
  }

  // ------------------------------------------------------------------ volume

  function SumVolume(bars: seq<Kline>, a: int, b: int): real
    requires 0 <= a <= b <= |bars|
    decreases b - a
  {
    if a == b then 0.0 else SumVolume(bars, a, b - 1) + bars[b - 1].volume
  }

  /** This bar's volume over the mean of up to `n` bars before it; 1 without a positive mean. */
  function VolumeRatio(bars: seq<Kline>, n: nat, i: nat): real
    requires i < |bars|
  {
    var start := Max(0, i - n);
    var mean := SumVolume(bars, start, i) / Max(1, i - start) as real;
    if i == 0 || mean <= 0.0 then 1.0 else bars[i].volume / mean
  }

  method RollingVolumeRatio(bars: seq<Kline>, n: nat) returns (out: seq<real>)
    ensures |out| == |bars| && forall i | 0 <= i < |out| :: out[i] == VolumeRatio(bars, n, i)
  {
    if bars == [] {
      return [];
    }
    out := [1.0];
    for i := 1 to |bars|
      invariant |out| == i && forall j | 0 <= j < i :: out[j] == VolumeRatio(bars, n, j)
    {
      var start := Max(0, i - n);
      var sum := 0.0;
      for j := start to i
        invariant sum == SumVolume(bars, start, j)
      {
        sum := sum + bars[j].volume;
      }
      var mean := sum / Max(1, i - start) as real;
      out := out + [if mean > 0.0 then bars[i].volume / mean else 1.0];
    }
  }

  // ------------------------------------------------------------------ the last entry not after a time

  /** The binary search on ascending times. */
  function Bisect(times: seq<int>, t: int, lo: int, hi: int, found: int): int
    requires 0 <= lo && hi < |times|
    decreases hi - lo + 1
  {
    if lo > hi then found
    else
      var mid := (lo + hi) / 2;
      if times[mid] <= t then Bisect(times, t, mid + 1, hi, mid) else Bisect(times, t, lo, mid - 1, found)
  }

  function LastAt(times: seq<int>, t: int): int {
    Bisect(times, t, 0, |times| - 1, -1)
  }

  method LastIndexAt(times: seq<int>, t: int) returns (found: int)
    ensures found == LastAt(times, t)
  {
    var lo, hi := 0, |times| - 1;
    found := -1;
    while lo <= hi
      invariant 0 <= lo && hi < |times|
      invariant Bisect(times, t, lo, hi, found) == LastAt(times, t)
      decreases hi - lo + 1
    {
      var mid := (lo + hi) / 2;
      if times[mid] <= t {
        found := mid;
        lo := mid + 1;
      } else {
        hi := mid - 1;
      }
    }
  }

  ghost predicate Ascending(times: seq<int>) {
    forall i, j | 0 <= i < j < |times| :: times[i] <= times[j]
  }

  lemma {:induction false} BisectIsInRange(times: seq<int>, t: int, lo: int, hi: int, found: int)
    requires 0 <= lo && hi < |times| && -1 <= found < |times|
    ensures -1 <= Bisect(times, t, lo, hi, found) < |times|
    decreases hi - lo + 1
  {
    if lo <= hi {
      var mid := (lo + hi) / 2;
      if times[mid] <= t {
        BisectIsInRange(times, t, mid + 1, hi, mid);
      } else {
        BisectIsInRange(times, t, lo, mid - 1, found);
      }
    }
  }

  lemma {:induction false} BisectFinds(times: seq<int>, t: int, lo: int, hi: int, found: int)
    requires Ascending(times) && 0 <= lo <= hi + 1 && hi < |times| && found == lo - 1
    requires forall i | 0 <= i < lo :: times[i] <= t
    requires forall i | hi < i < |times| :: times[i] > t
    ensures
      (var r := Bisect(times, t, lo, hi, found);
        && -1 <= r < |times|
        && (forall i | 0 <= i <= r :: times[i] <= t)
        && (forall i | r < i < |times| :: times[i] > t))
    decreases hi - lo + 1
  {
    if lo <= hi {
      var mid := (lo + hi) / 2;
      if times[mid] <= t {
        BisectFinds(times, t, mid + 1, hi, mid);
      } else {
        BisectFinds(times, t, lo, mid - 1, found);
      }
    }
  }

  /** On ascending times: the last entry not after `t`, -1 when all are after it. */
  lemma LastAtIsLatest(times: seq<int>, t: int)
    requires Ascending(times)
    ensures
      (var r := LastAt(times, t);
        && -1 <= r < |times|
        && (forall i | 0 <= i <= r :: times[i] <= t)
        && (forall i | r < i < |times| :: times[i] > t))
  {
    BisectFinds(times, t, 0, |times| - 1, -1);
  }

  // ------------------------------------------------------------------ moving averages

  /** The last value of the exponential moving average. */
  function Ema(values: seq<real>, period: nat): real
    requires values != []
  {
    var last, k := values[|values| - 1], 2.0 / (period + 1) as real;
    if |values| == 1 then last else last * k + Ema(values[..|values| - 1], period) * (1.0 - k)
  }

  datatype Direction = Long | Short

  function Closes(bars: seq<Kline>): (r: seq<real>)
    ensures |r| == |bars|
  {
    seq(|bars|, i requires 0 <= i < |bars| => bars[i].close)
  }

  /** The last `window` bars up to `i`. */
  function Window(bars: seq<Kline>, window: nat, i: nat): (r: seq<Kline>)
    requires window > 0 && i < |bars|
    ensures r != []
  {
    bars[Max(0, i - window + 1)..i + 1]
  }

  function Ema20(bars: seq<Kline>, window: nat, i: nat): real
    requires window > 0 && i < |bars|
  {
    Ema(Closes(Window(bars, window, i)), 20)
  }

  function Trend(bars: seq<Kline>, window: nat, i: nat): Option<Direction>
    requires window > 0 && i < |bars|
  {
    var a, b := Ema20(bars, window, i), Ema(Closes(Window(bars, window, i)), 50);
    if a > b then Some(Long) else if a < b then Some(Short) else None
  }

  method WindowedEmaDir(bars: seq<Kline>, window: nat) returns (dir: seq<Option<Direction>>, ema20: seq<real>)
    requires window > 0
    ensures |dir| == |ema20| == |bars|
    ensures forall i | 0 <= i < |bars| :: dir[i] == Trend(bars, window, i) && ema20[i] == Ema20(bars, window, i)
  {
    dir, ema20 := [], [];
    for i := 0 to |bars|
      invariant |dir| == |ema20| == i
      invariant forall j | 0 <= j < i :: dir[j] == Trend(bars, window, j) && ema20[j] == Ema20(bars, window, j)
    {
      var closes := Closes(Window(bars, window, i));
      var a, b := Ema(closes, 20), Ema(closes, 50);
      ema20 := ema20 + [a];
      dir := dir + [if a > b then Some(Long) else if a < b then Some(Short) else None];
    }
  }
}
