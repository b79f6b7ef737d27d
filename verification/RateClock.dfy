/** The limiter on a clock that may go back: exactly when a ban is answered as one, and exactly what it lets through. */
module RateClock {
  import opened Wrappers
  import opened RateLimit

  // ------------------------------------------------------------------ bans

  /** Step `k` is a limit answer, and no request after it came at a reading at or past the block's end. */
  ghost predicate Remembers(ts: seq<Timed>, end: real, k: nat) {
    && k < |ts| && ts[k].op.Told?
    && forall m | k < m < |ts| && ts[m].op.Ask? :: ts[m].now < end
  }

  ghost predicate Remembered(ts: seq<Timed>, end: real) {
    exists k: nat :: Remembers(ts, end, k)
  }

  /** Only the last step matters when it is an answer or a late request; otherwise what came before does. */
  lemma RememberedStep(ts: seq<Timed>, end: real)
    requires ts != []
    ensures var init, t := ts[..|ts| - 1], ts[|ts| - 1];
      Remembered(ts, end) <==> t.op.Told? || (Remembered(init, end) && (t.op.Ask? ==> t.now < end))
  {
    var n := |ts| - 1;
    var init, t := ts[..n], ts[n];
    if t.op.Told? {
      assert Remembers(ts, end, n);
    } else {
      if Remembered(ts, end) {
        var k: nat :| Remembers(ts, end, k);
        assert Remembers(init, end, k);
      }
      if Remembered(init, end) && (t.op.Ask? ==> t.now < end) {
        var k: nat :| Remembers(init, end, k);
        assert Remembers(ts, end, k);
      }
    }
  }

  /** A later end forgets no more. */
  lemma RememberedGrows(ts: seq<Timed>, end: real, later: real)
    requires Remembered(ts, end) && end <= later
    ensures Remembered(ts, later)
  {
    var k: nat :| Remembers(ts, end, k);
    assert Remembers(ts, later, k);
  }

  /** On any clock the limiter holds a block for the exchange's exactly while it is remembered. */
  lemma {:induction false} ByExchangeExactly(l: Limits, start: real, ts: seq<Timed>)
    requires Usable(l)
    ensures var s := After(l, New(l, start), ts); s.byExchange <==> Remembered(ts, s.blockedUntil)
  {
    if ts != [] {
      var init, t := ts[..|ts| - 1], ts[|ts| - 1];
      var before, s := After(l, New(l, start), init), After(l, New(l, start), ts);
      ByExchangeExactly(l, start, init);
      RememberedStep(ts, s.blockedUntil);
      assert s == Step(l, before, t);
      assert !t.op.Told? ==> s.blockedUntil == before.blockedUntil;
    }
  }

  /**
   * On any clock: a request asked before the block's end is answered with the time left, as a ban if and
   * only if a limit answer was given and no request since came at a reading at or past that end, and as a
   * wait otherwise. Asked at or past the end, it is never answered as a ban, and a wait is for budget, at
   * most the time of a full refill.
   */
  lemma AnswersExactly(l: Limits, start: real, ts: seq<Timed>, weight: real, now: real)
    requires Usable(l)
    ensures
      (var s := After(l, New(l, start), ts);
        var answer := Gate(l, s, weight, now).0;
        if now < s.blockedUntil then
          answer == if Remembered(ts, s.blockedUntil) then Banned(s.blockedUntil - now) else Wait(s.blockedUntil - now)
        else !answer.Banned? && (answer.Wait? ==> 0.0 < answer.time <= l.capacity / l.rate))
  {
    var s := After(l, New(l, start), ts);
    ByExchangeExactly(l, start, ts);
    if now >= s.blockedUntil && Gate(l, s, weight, now).0.Wait? {
      TokensInRange(l, start, ts);
      BudgetWait(l, s, weight, now);
    }
  }

  /** The block's end never moves back. */
  lemma {:induction false} BlockStays(l: Limits, s: State, ts: seq<Timed>, i: nat, j: nat)
    requires Usable(l) && i <= j <= |ts|
    ensures After(l, s, ts[..i]).blockedUntil <= After(l, s, ts[..j]).blockedUntil
  {
    if i < j {
      assert ts[..j][..j - 1] == ts[..j - 1];
      BlockStays(l, s, ts, i, j - 1);
    }
  }

  /**
   * On any clock, after a limit answer with delay `d`: a request asked before `d` is over is refused as
   * banned, for at least the time left, if and only if no request after some limit answer came at a
   * reading at or past the block's end.
   */
  lemma BansAreHonouredExactly(l: Limits, start: real, ts: seq<Timed>, i: nat, weight: real, now: real)
    requires Usable(l) && i < |ts| && ts[i].op.Told?
    requires now < ts[i].now + Limited(After(l, New(l, start), ts[..i]), ts[i].now, ts[i].op.ban).0
    ensures
      (var d := Limited(After(l, New(l, start), ts[..i]), ts[i].now, ts[i].op.ban).0;
        var s := After(l, New(l, start), ts);
        var answer := Gate(l, s, weight, now).0;
        (answer.Banned? && answer.time >= ts[i].now + d - now) <==> Remembered(ts, s.blockedUntil))
  {
    var s0 := New(l, start);
    assert ts[..i + 1][..i] == ts[..i] && ts[..|ts|] == ts;
    assert After(l, s0, ts[..i + 1]) == Step(l, After(l, s0, ts[..i]), ts[i]);
    BlockStays(l, s0, ts, i + 1, |ts|);
    AnswersExactly(l, start, ts, weight, now);
  }

  // ------------------------------------------------------------------ the greedy run

  /** The same clock readings. */
  ghost predicate Shows(ts: seq<Timed>, readings: seq<real>) {
    |ts| == |readings| && forall k | 0 <= k < |ts| :: ts[k].now == readings[k]
  }

  /** How far the readings climb, in all, from `i` to the one before `j`. */
  function Ascent(readings: seq<real>, i: nat, j: nat): real
    requires i < j <= |readings|
  {
    if j == i + 1 then 0.0 else Ascent(readings, i, j - 1) + Max(readings[j - 1] - readings[j - 2], 0.0)
  }

  lemma {:induction false} AscentIsForward(ts: seq<Timed>, readings: seq<real>, i: nat, j: nat)
    requires Shows(ts, readings) && i < j <= |ts|
    ensures Ascent(readings, i, j) == Forward(ts, i, j)
  {
    if j > i + 1 {
      AscentIsForward(ts, readings, i, j - 1);
    }
  }

  /** Nothing before step `i`, the whole capacity at `i`, then at each step what the clock's move has refilled. */
  function GreedyAt(l: Limits, readings: seq<real>, i: nat, k: nat): Timed
    requires k < |readings|
  {
    Timed(if k < i then Used(-1.0) else Ask(Portion(l, readings, i, k)), readings[k])
  }

  function Portion(l: Limits, readings: seq<real>, i: nat, k: nat): real
    requires k < |readings|
  {
    if k < i then 0.0 else if k == i then l.capacity else Gain(l, Max(readings[k] - readings[k - 1], 0.0))
  }

  function Greedy(l: Limits, readings: seq<real>, i: nat, n: nat): (ts: seq<Timed>)
    requires n <= |readings|
    ensures |ts| == n && forall k | 0 <= k < n :: ts[k] == GreedyAt(l, readings, i, k)
  {
    if n == 0 then [] else Greedy(l, readings, i, n - 1) + [GreedyAt(l, readings, i, n - 1)]
  }

  lemma GreedyPrefix(l: Limits, readings: seq<real>, i: nat, k: nat, n: nat)
    requires k <= n <= |readings|
    ensures Greedy(l, readings, i, n)[..k] == Greedy(l, readings, i, k)
  {
  }

  /** Each climb between these readings refills at least the least weight and at most the capacity. */
  ghost predicate Fitting(l: Limits, readings: seq<real>, i: nat) {
    forall k | i < k < |readings| && readings[k] > readings[k - 1] :: 1.0 <= Gain(l, readings[k] - readings[k - 1]) <= l.capacity
  }

  /** The bucket is empty, was last refilled at `at`, and nothing has blocked it since `start`. */
  predicate Drained(s: State, start: real, at: real) {
    s.tokens == 0.0 && s.updatedAt == at && s.blockedUntil == start
  }

  lemma NoGain(l: Limits)
    ensures Gain(l, 0.0) == 0.0
  {
  }

  /** Asking an empty bucket for what the clock's move has refilled spends exactly that and empties it again. */
  lemma DrainAgain(l: Limits, s: State, start: real, at: real, now: real)
    requires Usable(l) && Drained(s, start, at) && start <= now
    requires now > at ==> 1.0 <= Gain(l, now - at) <= l.capacity
    ensures var t := Timed(Ask(Gain(l, Max(now - at, 0.0))), now);
      Drained(Step(l, s, t), start, now) && Spent(l, s, t) == Gain(l, Max(now - at, 0.0))
  {
    NoGain(l);
    var elapsed := Max(now - at, 0.0);
    assert elapsed * l.rate == Gain(l, elapsed);
  }

  /** A full bucket asked for its capacity. */
  lemma DrainFirst(l: Limits, start: real, now: real)
    requires Usable(l) && start <= now
    ensures var t := Timed(Ask(l.capacity), now);
      Drained(Step(l, New(l, start), t), start, now) && Spent(l, New(l, start), t) == l.capacity
  {
    SignOfProduct(now - start, l.rate);
  }

  /** The state before step `k` of the greedy run. */
  ghost predicate Before(l: Limits, readings: seq<real>, start: real, i: nat, k: nat, s: State)
    requires k <= |readings|
  {
    if k <= i then s == New(l, start) else Drained(s, start, readings[k - 1])
  }

  lemma GreedyStep(l: Limits, readings: seq<real>, start: real, i: nat, k: nat, s: State)
    requires Usable(l) && k < |readings| && Fitting(l, readings, i) && start <= readings[k]
    requires Before(l, readings, start, i, k, s)
    ensures Before(l, readings, start, i, k + 1, Step(l, s, GreedyAt(l, readings, i, k)))
    ensures Spent(l, s, GreedyAt(l, readings, i, k)) == Portion(l, readings, i, k)
  {
    if k == i {
      DrainFirst(l, start, readings[k]);
    } else if k > i {
      DrainAgain(l, s, start, readings[k - 1], readings[k]);
    }
  }

  lemma AfterOne(l: Limits, s0: State, ts: seq<Timed>, init: seq<Timed>, t: Timed)
    requires Usable(l) && ts == init + [t]
    ensures After(l, s0, ts) == Step(l, After(l, s0, init), t)
  {
    assert ts[..|ts| - 1] == init;
  }

  lemma {:induction false} GreedyBefore(l: Limits, readings: seq<real>, start: real, i: nat, n: nat)
    requires Usable(l) && n <= |readings| && Fitting(l, readings, i)
    requires forall k | 0 <= k < |readings| :: start <= readings[k]
    ensures Before(l, readings, start, i, n, After(l, New(l, start), Greedy(l, readings, i, n)))
  {
    if n > 0 {
      var init, t := Greedy(l, readings, i, n - 1), GreedyAt(l, readings, i, n - 1);
      GreedyBefore(l, readings, start, i, n - 1);
      AfterOne(l, New(l, start), Greedy(l, readings, i, n), init, t);
      GreedyStep(l, readings, start, i, n - 1, After(l, New(l, start), init));
    }
  }

  function Portions(l: Limits, readings: seq<real>, i: nat, j: nat): real
    requires i <= j <= |readings|
  {
    if i == j then 0.0 else Portions(l, readings, i, j - 1) + Portion(l, readings, i, j - 1)
  }

  lemma {:induction false} PortionsAddUp(l: Limits, readings: seq<real>, i: nat, j: nat)
    requires i < j <= |readings|
    ensures Portions(l, readings, i, j) == l.capacity + Gain(l, Ascent(readings, i, j))
  {
    if j == i + 1 {
      NoGain(l);
      assert Portions(l, readings, i, i) == 0.0;
    } else {
      PortionsAddUp(l, readings, i, j - 1);
      GainAdds(l, Ascent(readings, i, j - 1), Max(readings[j - 1] - readings[j - 2], 0.0));
    }
  }

  lemma GainAdds(l: Limits, a: real, b: real)
    ensures Gain(l, a + b) == Gain(l, a) + Gain(l, b)
  {
    Distributes(l.rate, a, b);
  }

  lemma SpentOneMore(l: Limits, s0: State, ts: seq<Timed>, i: nat, j: nat, before: State, t: Timed, spent: real)
    requires Usable(l) && i < j <= |ts| && before == After(l, s0, ts[..j - 1]) && t == ts[j - 1]
    requires spent == Spent(l, before, t)
    ensures SpentIn(l, s0, ts, i, j) == SpentIn(l, s0, ts, i, j - 1) + spent
  {
  }

  /** The greedy run spends the capacity and all that the clock's forward movement refills. */
  lemma {:induction false} GreedySpends(l: Limits, readings: seq<real>, start: real, i: nat, j: nat)
    requires Usable(l) && i <= j <= |readings| && Fitting(l, readings, i)
    requires forall k | 0 <= k < |readings| :: start <= readings[k]
    ensures SpentIn(l, New(l, start), Greedy(l, readings, i, |readings|), i, j) == Portions(l, readings, i, j)
  {
    if i < j {
      var s0, ts, k := New(l, start), Greedy(l, readings, i, |readings|), j - 1;
      var before, t := After(l, s0, Greedy(l, readings, i, k)), GreedyAt(l, readings, i, k);
      GreedySpends(l, readings, start, i, k);
      GreedyPrefix(l, readings, i, k, |readings|);
      GreedyBefore(l, readings, start, i, k);
      GreedyStep(l, readings, start, i, k, before);
      SpentOneMore(l, s0, ts, i, j, before, t, Portion(l, readings, i, k));
    }
  }

  // ------------------------------------------------------------------ a limiter that fits

  /** A positive bound below every climb, and one above. */
  function Finest(readings: seq<real>): (r: real)
    ensures 0.0 < r <= 1.0
    ensures forall k | 0 < k < |readings| && readings[k] > readings[k - 1] :: r <= readings[k] - readings[k - 1]
  {
    if |readings| < 2 then 1.0
    else
      var n := |readings| - 1;
      var r, d := Finest(readings[..n]), readings[n] - readings[n - 1];
      assert forall k | 0 <= k < n :: readings[..n][k] == readings[k];
      if d > 0.0 && d < r then d else r
  }

  function Coarsest(readings: seq<real>): (r: real)
    ensures r >= 0.0
    ensures forall k | 0 < k < |readings| :: readings[k] - readings[k - 1] <= r
  {
    if |readings| < 2 then 0.0
    else
      var n := |readings| - 1;
      var r, d := Coarsest(readings[..n]), readings[n] - readings[n - 1];
      assert forall k | 0 <= k < n :: readings[..n][k] == readings[k];
      Max(r, d)
  }

  function Earliest(readings: seq<real>): (r: real)
    ensures forall k | 0 <= k < |readings| :: r <= readings[k]
  {
    if readings == [] then 0.0
    else
      var n := |readings| - 1;
      assert forall k | 0 <= k < n :: readings[..n][k] == readings[k];
      Min(Earliest(readings[..n]), readings[n])
  }

  lemma Scaled(rate: real, low: real, d: real, high: real)
    requires rate > 0.0 && rate * low == 1.0 && low <= d <= high
    ensures 1.0 <= rate * d <= rate * high
  {
    SignOfProduct(d - low, rate);
    SignOfProduct(high - d, rate);
    assert (d - low) * rate == rate * d - rate * low && (high - d) * rate == rate * high - rate * d;
  }

  lemma Inverse(x: real) returns (y: real)
    requires x > 0.0
    ensures y > 0.0 && y * x == 1.0
  {
    y := 1.0 / x;
  }

  lemma GainFits(l: Limits, low: real, d: real, high: real)
    requires l.rate > 0.0 && l.rate * low == 1.0 && l.capacity >= l.rate * high && low <= d <= high
    ensures 1.0 <= Gain(l, d) <= l.capacity
  {
    Scaled(l.rate, low, d, high);
  }

  lemma LimitsFor(low: real, high: real) returns (l: Limits)
    requires low > 0.0
    ensures Usable(l) && forall d: real | low <= d <= high :: 1.0 <= Gain(l, d) <= l.capacity
  {
    var rate := Inverse(low);
    l := Limits(Max(1.0, rate * high), rate);
    forall d: real | low <= d <= high ensures 1.0 <= Gain(l, d) <= l.capacity {
      GainFits(l, low, d, high);
    }
  }

  /** For any readings there is a limiter whose greedy run they fit. */
  lemma FittingLimits(readings: seq<real>, i: nat) returns (l: Limits)
    ensures Usable(l) && Fitting(l, readings, i)
  {
    l := LimitsFor(Finest(readings), Coarsest(readings));
  }

  // ------------------------------------------------------------------ the bound is exact

  /** Every limiter, whatever is asked of it at these readings, keeps the bound for `length` over steps `i` to `j`. */
  ghost predicate AlwaysWithin(readings: seq<real>, i: nat, j: nat, length: real)
    requires i < j <= |readings|
  {
    forall l: Limits, start: real, ts: seq<Timed> | Usable(l) && Shows(ts, readings) ::
      SpentIn(l, New(l, start), ts, i, j) <= l.capacity + Gain(l, length)
  }

  lemma GainReflects(l: Limits, a: real, b: real)
    requires Usable(l) && a < b
    ensures Gain(l, a) < Gain(l, b)
  {
    SignOfProduct(a - b, l.rate);
    assert (a - b) * l.rate == Gain(l, a) - Gain(l, b);
  }

  /**
   * The bound on a window holds for every limiter and all requests at the given clock readings if and only
   * if the clock moves forward by no more than the window's length over it.
   */
  lemma WithinIffForward(readings: seq<real>, i: nat, j: nat, length: real)
    requires i < j <= |readings|
    ensures AlwaysWithin(readings, i, j, length) <==> Ascent(readings, i, j) <= length
  {
    if Ascent(readings, i, j) <= length {
      forall l: Limits, start: real, ts: seq<Timed> | Usable(l) && Shows(ts, readings)
        ensures SpentIn(l, New(l, start), ts, i, j) <= l.capacity + Gain(l, length)
      {
        AscentIsForward(ts, readings, i, j);
        AnyClockBound(l, start, ts, i, j);
        GainGrows(l, Forward(ts, i, j), length);
      }
    } else {
      var l := FittingLimits(readings, i);
      var start, ts := Earliest(readings), Greedy(l, readings, i, |readings|);
      GreedySpends(l, readings, start, i, j);
      PortionsAddUp(l, readings, i, j);
      GainReflects(l, length, Ascent(readings, i, j));
      assert Shows(ts, readings);
      assert SpentIn(l, New(l, start), ts, i, j) > l.capacity + Gain(l, length);
    }
  }
}
