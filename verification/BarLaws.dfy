/** What the running measurements mean: the range as a span, the mean, the ratio and the averages by their laws. */
module BarLaws {
  import opened Wrappers
  import opened Bars

  // ------------------------------------------------------------------ true range

  /** The bar and the close before it lie between the two. */
  predicate Holds(bars: seq<Kline>, i: int, lo: real, hi: real)
    requires 1 <= i < |bars|
  {
    lo <= bars[i].low <= hi && lo <= bars[i].high <= hi && lo <= bars[i - 1].close <= hi
  }

  /** The true range of a bar is the least span that holds it and the close before it. */
  lemma TrueRangeIsLeastSpan(bars: seq<Kline>, i: int, lo: real, hi: real)
    requires 1 <= i < |bars| && bars[i].low <= bars[i].high
    ensures Holds(bars, i, lo, hi) ==> hi - lo >= TrueRange(bars, i)
    ensures exists a: real, b: real :: Holds(bars, i, a, b) && b - a == TrueRange(bars, i)
  {
    var bar, before := bars[i], bars[i - 1].close;
    var a, b := if bar.low <= before then bar.low else before, if bar.high >= before then bar.high else before;
    assert Holds(bars, i, a, b) && b - a == TrueRange(bars, i);
  }

  lemma Positive(a: real, b: real, p: real)
    requires a >= 0.0 && b >= 0.0 && p == a * b
    ensures p >= 0.0 && (a > 0.0 && b > 0.0 ==> p > 0.0)
  {
  }

  lemma TimesKeepsOrder(a: real, b: real, m: real)
    requires a < b && m > 0.0
    ensures a * m < b * m
  {
    assert (b - a) * m > 0.0;
  }

  lemma DividesOut(q: real, m: real, lo: real, hi: real)
    requires m > 0.0 && lo * m <= q * m <= hi * m
    ensures lo <= q <= hi
  {
    if q < lo {
      TimesKeepsOrder(q, lo, m);
    } else if hi < q {
      TimesKeepsOrder(hi, q, m);
    }
  }

  lemma QuotientBetween(sum: real, n: nat, lo: real, hi: real)
    requires n > 0 && lo * n as real <= sum <= hi * n as real
    ensures lo <= sum / n as real <= hi
  {
    var q := sum / n as real;
    assert q * n as real == sum;
    DividesOut(q, n as real, lo, hi);
  }

  /** `n` times a value, added up. */
  function Repeated(x: real, n: nat): real {
    if n == 0 then 0.0 else Repeated(x, n - 1) + x
  }

  lemma {:induction false} RepeatedIsProduct(x: real, n: nat)
    ensures Repeated(x, n) == x * n as real
  {
    if n > 0 {
      RepeatedIsProduct(x, n - 1);
      var m := (n - 1) as real;
      assert n as real == m + 1.0;
      assert x * (m + 1.0) == x * m + x;
    }
  }

  lemma {:induction false} SumRangesBetween(bars: seq<Kline>, a: int, b: int, lo: real, hi: real)
    requires 1 <= a <= b <= |bars| && forall j | a <= j < b :: lo <= TrueRange(bars, j) <= hi
    ensures Repeated(lo, b - a) <= SumRanges(bars, a, b) <= Repeated(hi, b - a)
    decreases b - a
  {
    if a < b {
      SumRangesBetween(bars, a, b - 1, lo, hi);
    }
  }

  /** The average range lies between the least and the greatest of the last `period` true ranges. */
  lemma AtrIsBetween(bars: seq<Kline>, period: nat, i: nat, lo: real, hi: real)
    requires 0 < period <= i < |bars| && forall j | i - period < j <= i :: lo <= TrueRange(bars, j) <= hi
    ensures lo <= Atr(bars, period, i) <= hi
  {
    SumRangesBetween(bars, i - period + 1, i + 1, lo, hi);
    RepeatedIsProduct(lo, period);
    RepeatedIsProduct(hi, period);
    QuotientBetween(SumRanges(bars, i - period + 1, i + 1), period, lo, hi);
  }

  /** From bar to bar it moves by a period's share of the range that comes less the one that goes. */
  lemma AtrMoves(bars: seq<Kline>, period: nat, i: nat)
    requires 0 < period < i < |bars|
    ensures (Atr(bars, period, i) - Atr(bars, period, i - 1)) * period as real
      == TrueRange(bars, i) - TrueRange(bars, i - period)
  {
    WindowMoves(bars, period, i);
    var came, went := TrueRange(bars, i), TrueRange(bars, i - period);
    MeansMove(bars, period, i, came - went);
  }

  lemma MeansMove(bars: seq<Kline>, period: nat, i: nat, d: real)
    requires 0 < period < i < |bars| && SumRanges(bars, i - period + 1, i + 1) == SumRanges(bars, i - period, i) + d
    ensures (Atr(bars, period, i) - Atr(bars, period, i - 1)) * period as real == d
  {
    SharesMove(SumRanges(bars, i - period, i), SumRanges(bars, i - period + 1, i + 1), period as real, d);
  }

  lemma SharesMove(before: real, after: real, m: real, d: real)
    requires m > 0.0 && after == before + d
    ensures (after / m - before / m) * m == d
  {
    var p, q := before / m, after / m;
    assert p * m == before && q * m == after;
  }

  // ------------------------------------------------------------------ volume

  lemma {:induction false} SumVolumeBetween(bars: seq<Kline>, a: int, b: int, lo: real, hi: real)
    requires 0 <= a <= b <= |bars| && forall j | a <= j < b :: lo <= bars[j].volume <= hi
    ensures Repeated(lo, b - a) <= SumVolume(bars, a, b) <= Repeated(hi, b - a)
    decreases b - a
  {
    if a < b {
      SumVolumeBetween(bars, a, b - 1, lo, hi);
    }
  }

  /**
   * The volume ratio lies between the bar's volume over the greatest and over the least of the up to `n`
   * volumes before it, all positive; it is exactly the quotient when those are all the same.
   */
  lemma RatioIsBetween(bars: seq<Kline>, n: nat, i: nat, lo: real, hi: real)
    requires 0 < n && 0 < i < |bars| && 0.0 < lo && bars[i].volume >= 0.0
    requires forall j | Max(0, i - n) <= j < i :: lo <= bars[j].volume <= hi
    ensures VolumeRatio(bars, n, i) * lo <= bars[i].volume <= VolumeRatio(bars, n, i) * hi
  {
    var start := Max(0, i - n);
    SumVolumeBetween(bars, start, i, lo, hi);
    RepeatedIsProduct(lo, i - start);
    RepeatedIsProduct(hi, i - start);
    QuotientBetween(SumVolume(bars, start, i), i - start, lo, hi);
    var mean := SumVolume(bars, start, i) / (i - start) as real;
    RatioBetween(bars[i].volume, mean, lo, hi);
  }

  lemma RatioBetween(volume: real, mean: real, lo: real, hi: real)
    requires volume >= 0.0 && 0.0 < lo <= mean <= hi
    ensures volume / mean * lo <= volume <= volume / mean * hi
  {
    var r := volume / mean;
    assert r * mean == volume;
    DividesOut(r, mean, 0.0, r);
    var a, b := r * (mean - lo), r * (hi - mean);
    Positive(r, mean - lo, a);
    Positive(r, hi - mean, b);
    assert r * lo == volume - a && r * hi == volume + b;
  }

  // ------------------------------------------------------------------ averages and trends

  lemma Between(k: real, x: real, y: real, lo: real, hi: real)
    requires 0.0 <= k <= 1.0 && lo <= x <= hi && lo <= y <= hi
    ensures lo <= x * k + y * (1.0 - k) <= hi
  {
    var l, a, b := 1.0 - k, (x - lo) * k, (hi - x) * k;
    var c, d := (y - lo) * l, (hi - y) * l;
    Positive(x - lo, k, a);
    Positive(hi - x, k, b);
    Positive(y - lo, l, c);
    Positive(hi - y, l, d);
    assert x * k + y * (1.0 - k) == lo + a + c && x * k + y * (1.0 - k) == hi - b - d;
  }

  /** The weight of a new value. */
  lemma ShareIsProper(period: nat)
    requires period > 0
    ensures 0.0 < 2.0 / (period + 1) as real <= 1.0
  {
  }

  /** An average stays between the least and the greatest of its values. */
  lemma {:induction false} EmaIsBetween(values: seq<real>, period: nat, lo: real, hi: real)
    requires values != [] && period > 0 && forall j | 0 <= j < |values| :: lo <= values[j] <= hi
    ensures lo <= Ema(values, period) <= hi
  {
    if |values| > 1 {
      EmaIsBetween(values[..|values| - 1], period, lo, hi);
      ShareIsProper(period);
      Between(2.0 / (period + 1) as real, values[|values| - 1], Ema(values[..|values| - 1], period), lo, hi);
    }
  }

  function Negated(values: seq<real>): (r: seq<real>)
    ensures |r| == |values| && forall j | 0 <= j < |r| :: r[j] == -values[j]
  {
    seq(|values|, j requires 0 <= j < |values| => -values[j])
  }

  ghost predicate Rising(values: seq<real>) {
    forall i, j | 0 <= i < j < |values| :: values[i] < values[j]
  }

  lemma MixIsBehind(k: real, x: real, e: real, mix: real)
    requires k < 1.0 && e < x && mix == x * k + e * (1.0 - k)
    ensures mix < x
  {
    var a, b := 1.0 - k, x - e;
    var p := a * b;
    Positive(a, b, p);
    assert mix == x - p;
  }

  lemma QuickerIsNearer(k: real, l: real, x: real, e: real, f: real, quick: real, slow: real)
    requires l < k && l < 1.0 && f <= e < x
    requires quick == x * k + e * (1.0 - k) && slow == x * l + f * (1.0 - l)
    ensures slow < quick
  {
    var a, b, c, d := k - l, x - e, 1.0 - l, e - f;
    var p, q := a * b, c * d;
    Positive(a, b, p);
    Positive(c, d, q);
    assert quick - slow == p + q;
  }

  /** The average in which a new value has the share `k`. */
  function Smoothed(values: seq<real>, k: real): real
    requires values != []
  {
    if |values| == 1 then values[0]
    else Mix(k, values[|values| - 1], Smoothed(values[..|values| - 1], k))
  }

  function Mix(k: real, x: real, e: real): real {
    x * k + e * (1.0 - k)
  }

  lemma {:induction false} EmaIsSmoothed(values: seq<real>, period: nat)
    requires values != []
    ensures Ema(values, period) == Smoothed(values, 2.0 / (period + 1) as real)
  {
    if |values| > 1 {
      EmaIsSmoothed(values[..|values| - 1], period);
    }
  }

  lemma MixOfNegated(k: real, x: real, e: real)
    ensures Mix(k, -x, -e) == -Mix(k, x, e)
  {
  }

  lemma {:induction false} SmoothedOfNegated(values: seq<real>, k: real)
    requires values != []
    ensures Smoothed(Negated(values), k) == -Smoothed(values, k)
  {
    if |values| > 1 {
      var before, x := values[..|values| - 1], values[|values| - 1];
      SmoothedOfNegated(before, k);
      assert Negated(values)[..|values| - 1] == Negated(before);
      MixOfNegated(k, x, Smoothed(before, k));
    }
  }

  lemma EmaOfNegated(values: seq<real>, period: nat)
    requires values != []
    ensures Ema(Negated(values), period) == -Ema(values, period)
  {
    EmaIsSmoothed(values, period);
    EmaIsSmoothed(Negated(values), period);
    SmoothedOfNegated(values, 2.0 / (period + 1) as real);
  }

  lemma MixesLead(k: real, l: real, x: real, e: real, f: real)
    requires 0.0 < l < k < 1.0 && f <= e < x
    ensures Mix(l, x, f) < Mix(k, x, e) < x
  {
    MixIsBehind(k, x, e, Mix(k, x, e));
    QuickerIsNearer(k, l, x, e, f, Mix(k, x, e), Mix(l, x, f));
  }

  lemma {:induction false} LargerShareLeads(values: seq<real>, k: real, l: real)
    requires Rising(values) && |values| > 1 && 0.0 < l < k < 1.0
    ensures Smoothed(values, l) < Smoothed(values, k) < values[|values| - 1]
  {
    var before := values[..|values| - 1];
    if |before| > 1 {
      LargerShareLeads(before, k, l);
      assert before[|before| - 1] == values[|values| - 2];
    }
    MixesLead(k, l, values[|values| - 1], Smoothed(before, k), Smoothed(before, l));
  }

  lemma SharesDiffer(short: nat, long: nat)
    requires 1 < short < long
    ensures 0.0 < 2.0 / (long + 1) as real < 2.0 / (short + 1) as real < 1.0
  {
    var k, l := 2.0 / (short + 1) as real, 2.0 / (long + 1) as real;
    assert k * (short + 1) as real == 2.0 && l * (long + 1) as real == 2.0;
    assert l > 0.0;
    assert l * ((long + 1) as real - (short + 1) as real) > 0.0;
    assert (k - l) * (short + 1) as real > 0.0;
  }

  /** On rising values the average of the shorter period is ahead of that of the longer, and both are behind. */
  lemma ShorterLeads(values: seq<real>, short: nat, long: nat)
    requires Rising(values) && |values| > 1 && 1 < short < long
    ensures Ema(values, long) < Ema(values, short) < values[|values| - 1]
  {
    SharesDiffer(short, long);
    LargerShareLeads(values, 2.0 / (short + 1) as real, 2.0 / (long + 1) as real);
    EmaIsSmoothed(values, short);
    EmaIsSmoothed(values, long);
  }

  lemma FallingLags(values: seq<real>, short: nat, long: nat)
    requires Rising(Negated(values)) && |values| > 1 && 1 < short < long
    ensures Ema(values, short) < Ema(values, long)
  {
    ShorterLeads(Negated(values), short, long);
    EmaOfNegated(values, short);
    EmaOfNegated(values, long);
  }

  ghost predicate Level(values: seq<real>) {
    forall j | 0 <= j < |values| :: values[j] == values[0]
  }

  lemma LevelStays(values: seq<real>, period: nat)
    requires values != [] && Level(values) && period > 0
    ensures Ema(values, period) == values[0]
  {
    EmaIsBetween(values, period, values[0], values[0]);
  }

  /**
   * The trend over a window of at least two closes is long when they rise, short when they fall (their
   * negatives rise), and none when they stay.
   */
  lemma TrendFollows(bars: seq<Kline>, window: nat, i: nat, closes: seq<real>)
    requires window > 1 && 1 <= i < |bars| && closes == Closes(Window(bars, window, i))
    ensures Rising(closes) ==> Trend(bars, window, i) == Some(Long)
    ensures Rising(Negated(closes)) ==> Trend(bars, window, i) == Some(Short)
    ensures Level(closes) ==> Trend(bars, window, i) == None
  {
    if Rising(closes) {
      ShorterLeads(closes, 20, 50);
    } else if Rising(Negated(closes)) {
      FallingLags(closes, 20, 50);
    }
    if Level(closes) {
      LevelStays(closes, 20);
      LevelStays(closes, 50);
    }
  }
}
