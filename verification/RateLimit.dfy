/** The REST token bucket with exchange bans, over exact reals. */
module RateLimit {
  import opened Wrappers

  const MAX_ACQUIRE_WAIT: real := 10.0
  const MAX_HONORED_BAN: real := 900.0
  const BACKOFF_RESET: real := 300.0

  /** `rate` is tokens a second. A capacity below the least weight is a panic in `clamp`. */
  datatype Limits = Limits(capacity: real, rate: real)

  ghost predicate Usable(l: Limits) {
    l.capacity >= 1.0 && l.rate > 0.0
  }

  datatype State = State(
    tokens: real, updatedAt: real, blockedUntil: real, byExchange: bool, exponent: nat, lastLimited: Option<real>)

  datatype RestGate = Ready | Wait(time: real) | Banned(time: real)

  function Min(a: real, b: real): real {
    if a <= b then a else b
  }

  function Max(a: real, b: real): real {
    if a >= b then a else b
  }

  function Clamped(l: Limits, weight: real): (r: real)
    requires Usable(l)
    ensures 1.0 <= r <= l.capacity
  {
    Min(Max(weight, 1.0), l.capacity)
  }

  function New(l: Limits, now: real): State {
    State(l.capacity, now, now, false, 0, None)
  }

  function Refill(l: Limits, s: State, now: real): State {
    s.(tokens := Min(s.tokens + Max(now - s.updatedAt, 0.0) * l.rate, l.capacity), updatedAt := now)
  }

  function Gate(l: Limits, s: State, weight: real, now: real): (RestGate, State)
    requires Usable(l)
  {
    var r := Refill(l, s, now);
    if r.blockedUntil > now then
      ((if r.byExchange then Banned(r.blockedUntil - now) else Wait(r.blockedUntil - now)), r)
    else
      var free, w := r.(byExchange := false), Clamped(l, weight);
      if r.tokens >= w then (Ready, free.(tokens := r.tokens - w))
      else (Wait((w - r.tokens) / l.rate), free)
  }

  /** Seconds of backoff for an exponent: 1, 2, 4, up to 32. */
  function Backoff(exponent: nat): (r: real)
    requires 1 <= exponent <= 6
    ensures 1.0 <= r <= 32.0
  {
    match exponent case 1 => 1.0 case 2 => 2.0 case 3 => 4.0 case 4 => 8.0 case 5 => 16.0 case _ => 32.0
  }

  function Limited(s: State, now: real, ban: Option<real>): (r: (real, State))
    ensures 1 <= r.1.exponent <= 6
  {
    var stale := s.lastLimited.Some? && Max(now - s.lastLimited.value, 0.0) > BACKOFF_RESET;
    var exponent := if stale then 1 else if s.exponent + 1 <= 6 then s.exponent + 1 else 6;
    var honored := match ban case Some(span) => Min(span + 1.0, MAX_HONORED_BAN) case None => 0.0;
    var delay := Max(Backoff(exponent), honored);
    (delay, s.(exponent := exponent, lastLimited := Some(now),
      blockedUntil := Max(s.blockedUntil, now + delay), byExchange := true))
  }

  /** The exchange's own count only ever tightens the bucket. */
  function Observe(l: Limits, s: State, used: real, now: real): State {
    if used < 0.0 then s
    else
      var r := Refill(l, s, now);
      r.(tokens := Min(r.tokens, Max(l.capacity - used, 0.0)))
  }

  // ------------------------------------------------------------------ the limiter as the code keeps it

  class RestRateLimiter {
    const limits: Limits
    var tokens: real
    var updatedAt: real
    var blockedUntil: real
    var byExchange: bool
    var exponent: nat
    var lastLimited: Option<real>

    ghost function View(): State
      reads this
    {
      State(tokens, updatedAt, blockedUntil, byExchange, exponent, lastLimited)
    }

    constructor (capacity: real, perMinute: real, now: real)
      ensures limits == Limits(capacity, perMinute / 60.0) && View() == New(limits, now)
    {
      limits := Limits(capacity, perMinute / 60.0);
      tokens, updatedAt, blockedUntil, byExchange, exponent, lastLimited := capacity, now, now, false, 0, None;
    }

    method Replenish(now: real)
      modifies this`tokens, this`updatedAt
      ensures View() == Refill(limits, old(View()), now)
    {
      var elapsed := Max(now - updatedAt, 0.0);
      tokens := Min(tokens + elapsed * limits.rate, limits.capacity);
      updatedAt := now;
    }

    method GateAt(weight: real, now: real) returns (r: RestGate)
      requires Usable(limits)
      modifies this
      ensures (r, View()) == Gate(limits, old(View()), weight, now)
    {
      Replenish(now);
      if blockedUntil > now {
        var remaining := blockedUntil - now;
        return if byExchange then Banned(remaining) else Wait(remaining);
      }
      byExchange := false;
      var w := Clamped(limits, weight);
      if tokens >= w {
        tokens := tokens - w;
        return Ready;
      }
      return Wait((w - tokens) / limits.rate);
    }

    method RateLimitedFor(now: real, ban: Option<real>) returns (delay: real)
      modifies this
      ensures (delay, View()) == Limited(old(View()), now, ban)
    {
      if lastLimited.Some? && Max(now - lastLimited.value, 0.0) > BACKOFF_RESET {
        exponent := 0;
      }
      exponent := if exponent + 1 <= 6 then exponent + 1 else 6;
      lastLimited := Some(now);
      var honored := 0.0;
      if ban.Some? {
        honored := Min(ban.value + 1.0, MAX_HONORED_BAN);
      }
      delay := Max(Backoff(exponent), honored);
      blockedUntil := Max(blockedUntil, now + delay);
      byExchange := true;
    }

    method ObserveUsedWeight(used: real, now: real)
      modifies this
      ensures View() == Observe(limits, old(View()), used, now)
    {
      if used < 0.0 {
        return;
      }
      Replenish(now);
      var remaining := Max(limits.capacity - used, 0.0);
      tokens := Min(tokens, remaining);
    }

    /**
     * Undisturbed, with each sleep ending `late` after its time: refused at once under a ban or before a
     * long wait, otherwise admitted after at most one sleep.
     */
    method Acquire(weight: real, start: real, late: real) returns (r: Acquired, sleeps: nat, end: real)
      requires Usable(limits) && late >= 0.0 && Honest(View(), start)
      modifies this
      ensures
        (match Gate(limits, old(View()), weight, start).0
          case Ready => r == Admitted && sleeps == 0 && end == start
          case Banned(time) => r == Refused(time) && sleeps == 0 && end == start
          case Wait(time) =>
            if time > MAX_ACQUIRE_WAIT then r == Refused(time) && sleeps == 0 && end == start
            else r == Admitted && sleeps == 1 && end == start + time + late)
      ensures
        (var first := Gate(limits, old(View()), weight, start).1;
          View() == if sleeps == 0 then first else Gate(limits, first, weight, end).1)
    {
      sleeps, end := 0, start;
      ghost var first := Gate(limits, View(), weight, start);
      while true
        invariant sleeps == 0 ==> end == start && View() == old(View())
        invariant sleeps > 0 ==>
          && sleeps == 1 && first.0.Wait? && first.0.time <= MAX_ACQUIRE_WAIT && View() == first.1
          && end == start + first.0.time + late
        decreases 2 - sleeps
      {
        if sleeps == 1 {
          WaitIsLeast(limits, old(View()), weight, start, first.0.time + late);
        }
        var gate := GateAt(weight, end);
        match gate {
          case Ready => return Admitted, sleeps, end;
          case Banned(time) => return Refused(time), sleeps, end;
          case Wait(time) =>
            if time > MAX_ACQUIRE_WAIT {
              return Refused(time), sleeps, end;
            }
            end := end + time + late;
            sleeps := sleeps + 1;
        }
      }
    }
  }

  datatype Acquired = Admitted | Refused(time: real)

  /** A block that is still on at `now` is one the exchange imposed. */
  ghost predicate Honest(s: State, now: real) {
    s.blockedUntil > now ==> s.byExchange
  }

  /** A wait for budget is exactly the least delay after which an undisturbed retry is admitted. */
  lemma WaitIsLeast(l: Limits, s: State, weight: real, now: real, x: real)
    requires Usable(l) && Honest(s, now) && x >= 0.0
    requires Gate(l, s, weight, now).0.Wait?
    ensures Gate(l, s, weight, now).0.time > 0.0
    ensures Gate(l, Gate(l, s, weight, now).1, weight, now + x).0 == Ready <==> x >= Gate(l, s, weight, now).0.time
    ensures !Gate(l, Gate(l, s, weight, now).1, weight, now + x).0.Banned?
  {
    var s1 := Gate(l, s, weight, now).1;
    var w, lacking := Clamped(l, weight), Clamped(l, weight) - s1.tokens;
    WaitScales(lacking, l.rate, x);
    assert s1.tokens + x * l.rate >= w <==> x >= lacking / l.rate;
    assert Refill(l, s1, now + x).tokens == Min(s1.tokens + x * l.rate, l.capacity);
  }

  /** A report of a used weight leaves what the bucket held, but no more than the rest of the capacity. */
  lemma ReportLeavesExactly(l: Limits, s: State, used: real, now: real)
    requires Usable(l) && used >= 0.0
    ensures
      (var after := Observe(l, s, used, now);
        && after.updatedAt == now
        && (Refill(l, s, now).tokens <= Max(l.capacity - used, 0.0) ==> after.tokens == Refill(l, s, now).tokens)
        && (Refill(l, s, now).tokens > Max(l.capacity - used, 0.0) ==> after.tokens == Max(l.capacity - used, 0.0))
        && (after.blockedUntil, after.byExchange, after.exponent, after.lastLimited)
          == (s.blockedUntil, s.byExchange, s.exponent, s.lastLimited))
  {
  }

  /**
   * Right after a report of `used`, a request of any weight while nothing blocks is admitted if and only
   * if it would have been without the report and its weight is within the rest of the capacity. A report
   * of a negative weight changes nothing, and a blocked request is answered as without the report.
   */
  lemma ReportBindsExactly(l: Limits, s: State, used: real, weight: real, now: real)
    requires Usable(l)
    ensures s.blockedUntil <= now && used >= 0.0 ==>
      (Gate(l, Observe(l, s, used, now), weight, now).0 == Ready <==>
        Gate(l, s, weight, now).0 == Ready && Clamped(l, weight) <= l.capacity - used)
    ensures s.blockedUntil > now || used < 0.0 ==>
      Gate(l, Observe(l, s, used, now), weight, now).0 == Gate(l, s, weight, now).0
  {
    if used >= 0.0 {
      var o := Observe(l, s, used, now);
      assert Refill(l, o, now).tokens == Min(o.tokens + 0.0 * l.rate, l.capacity);
    }
  }

  /** While nothing blocks, a request is admitted exactly when the bucket then holds its weight, which it spends. */
  lemma AdmittedExactly(l: Limits, s: State, weight: real, now: real)
    requires Usable(l) && s.blockedUntil <= now
    ensures
      (var held := Min(s.tokens + Max(now - s.updatedAt, 0.0) * l.rate, l.capacity);
        var w := if weight < 1.0 then 1.0 else if weight > l.capacity then l.capacity else weight;
        var (answer, after) := Gate(l, s, weight, now);
        && (answer == Ready <==> held >= w)
        && after.tokens == held - (if answer == Ready then w else 0.0)
        && after.updatedAt == now && !after.byExchange && after.blockedUntil == s.blockedUntil)
  {
  }

  /** Within 300 s of the limit before, or not: the exponent one up or back to one. */
  predicate Lately(s: State, now: real) {
    s.lastLimited.None? || now - s.lastLimited.value <= BACKOFF_RESET
  }

  /**
   * The delay of a limit answer is exactly the longer of the backoff and, when a ban is named, that ban and
   * a second, up to 900 s; the backoff is 1 s after 300 s without a limit and never above 32 s; the block
   * then ends at that delay from now or where it ended before, whichever is later.
   */
  lemma DelayExactly(s: State, now: real, ban: Option<real>)
    requires ban.Some? ==> ban.value >= 0.0
    ensures
      (var (delay, after) := Limited(s, now, ban);
        && (ban.None? ==> delay == Backoff(after.exponent))
        && (ban.Some? ==> delay >= Backoff(after.exponent)
                          && delay >= Min(ban.value + 1.0, MAX_HONORED_BAN)
                          && (delay == Backoff(after.exponent) || delay == Min(ban.value + 1.0, MAX_HONORED_BAN)))
        && (!Lately(s, now) ==> after.exponent == 1 && Backoff(after.exponent) == 1.0)
        && (Lately(s, now) ==> after.exponent == if s.exponent < 6 then s.exponent + 1 else 6)
        && after.lastLimited == Some(now) && after.byExchange
        && after.blockedUntil >= now + delay && after.blockedUntil >= s.blockedUntil
        && (after.blockedUntil == now + delay || after.blockedUntil == s.blockedUntil)
        && after.tokens == s.tokens && after.updatedAt == s.updatedAt)
  {
  }

  /** What the exponents stand for. */
  lemma BackoffIsPower(exponent: nat)
    requires 1 <= exponent < 6
    ensures Backoff(1) == 1.0 && Backoff(exponent + 1) == 2.0 * Backoff(exponent)
  {
  }

  lemma SignOfProduct(d: real, rate: real)
    requires rate > 0.0
    ensures d * rate >= 0.0 <==> d >= 0.0
  {
    if d < 0.0 {
      assert -d * rate > 0.0;
    }
  }

  lemma WaitScales(lacking: real, rate: real, x: real)
    requires rate > 0.0 && lacking > 0.0
    ensures lacking / rate > 0.0
    ensures x * rate >= lacking <==> x >= lacking / rate
  {
    var w := lacking / rate;
    assert w * rate == lacking;
    if x >= w {
      assert (x - w) * rate >= 0.0;
    } else {
      assert (w - x) * rate > 0.0;
    }
  }

  // ------------------------------------------------------------------ runs

  datatype Op = Ask(weight: real) | Told(ban: Option<real>) | Used(weight: real)

  datatype Timed = Timed(op: Op, now: real)

  function Step(l: Limits, s: State, t: Timed): State
    requires Usable(l)
  {
    match t.op
    case Ask(weight) => Gate(l, s, weight, t.now).1
    case Told(ban) => Limited(s, t.now, ban).1
    case Used(weight) => Observe(l, s, weight, t.now)
  }

  function After(l: Limits, s: State, ts: seq<Timed>): State
    requires Usable(l)
  {
    if ts == [] then s else Step(l, After(l, s, ts[..|ts| - 1]), ts[|ts| - 1])
  }

  /** The clamped weight this step lets through. */
  function Spent(l: Limits, s: State, t: Timed): real
    requires Usable(l)
  {
    if t.op.Ask? && Gate(l, s, t.op.weight, t.now).0 == Ready then Clamped(l, t.op.weight) else 0.0
  }

  /** The clamped weight let through by the steps `i .. j`. */
  function SpentIn(l: Limits, s: State, ts: seq<Timed>, i: nat, j: nat): real
    requires Usable(l) && i <= j <= |ts|
  {
    if i == j then 0.0 else SpentIn(l, s, ts, i, j - 1) + Spent(l, After(l, s, ts[..j - 1]), ts[j - 1])
  }

  ghost predicate Clocked(ts: seq<Timed>) {
    forall i, j | 0 <= i <= j < |ts| :: ts[i].now <= ts[j].now
  }

  ghost predicate InRange(l: Limits, s: State) {
    0.0 <= s.tokens <= l.capacity
  }

  lemma StepInRange(l: Limits, s: State, t: Timed)
    requires Usable(l) && InRange(l, s)
    ensures InRange(l, Step(l, s, t))
  {
    assert Max(t.now - s.updatedAt, 0.0) * l.rate >= 0.0;
  }

  /** The bucket never overdraws and never overfills, even on a clock that goes back. */
  lemma {:induction false} TokensInRange(l: Limits, start: real, ts: seq<Timed>)
    requires Usable(l)
    ensures InRange(l, After(l, New(l, start), ts))
  {
    if ts != [] {
      TokensInRange(l, start, ts[..|ts| - 1]);
      StepInRange(l, After(l, New(l, start), ts[..|ts| - 1]), ts[|ts| - 1]);
    }
  }

  // ------------------------------------------------------------------ the bound on any window

  /** What the bucket would hold after a refill at `now`. */
  function Holds(l: Limits, s: State, now: real): real {
    Refill(l, s, now).tokens
  }

  /** What the bucket gains in a time, below its capacity. */
  function Gain(l: Limits, time: real): real {
    l.rate * time
  }

  /** On a clock that moves either way, only the forward part refills. */
  lemma HoldsGrows(l: Limits, s: State, now: real, later: real)
    requires Usable(l)
    ensures Holds(l, s, later) <= Holds(l, s, now) + Gain(l, Max(later - now, 0.0))
  {
    var a, b, forward := Max(now - s.updatedAt, 0.0), Max(later - s.updatedAt, 0.0), Max(later - now, 0.0);
    assert b - a <= forward;
    SignOfProduct(forward - (b - a), l.rate);
    SignOfProduct(forward, l.rate);
    assert (forward - (b - a)) * l.rate == l.rate * forward - (b * l.rate - a * l.rate);
  }

  lemma StepSpends(l: Limits, s: State, t: Timed)
    requires Usable(l)
    ensures Spent(l, s, t) + Holds(l, Step(l, s, t), t.now) <= Holds(l, s, t.now)
  {
    var r := Refill(l, s, t.now);
    assert Refill(l, r, t.now).tokens == r.tokens;
  }

  /** How far the clock moves forward, in all, from step `i` to the one before `j`. */
  function Forward(ts: seq<Timed>, i: nat, j: nat): (r: real)
    requires i < j <= |ts|
    ensures r >= 0.0
  {
    if j == i + 1 then 0.0 else Forward(ts, i, j - 1) + Max(ts[j - 1].now - ts[j - 2].now, 0.0)
  }

  /** A clock that never goes back moves forward by what it shows. */
  lemma {:induction false} ForwardIsElapsed(ts: seq<Timed>, i: nat, j: nat)
    requires Clocked(ts) && i < j <= |ts|
    ensures Forward(ts, i, j) == ts[j - 1].now - ts[i].now
  {
    if j > i + 1 {
      ForwardIsElapsed(ts, i, j - 1);
    }
  }

  /** What that movement refills, step by step. */
  function Regained(l: Limits, ts: seq<Timed>, i: nat, j: nat): real
    requires i < j <= |ts|
  {
    if j == i + 1 then 0.0 else Regained(l, ts, i, j - 1) + Gain(l, Max(ts[j - 1].now - ts[j - 2].now, 0.0))
  }

  lemma Distributes(rate: real, a: real, b: real)
    ensures rate * (a + b) == rate * a + rate * b
  {
  }

  lemma {:induction false} RegainedIsForward(l: Limits, ts: seq<Timed>, i: nat, j: nat)
    requires i < j <= |ts|
    ensures Regained(l, ts, i, j) == Gain(l, Forward(ts, i, j))
  {
    if j > i + 1 {
      RegainedIsForward(l, ts, i, j - 1);
      Distributes(l.rate, Forward(ts, i, j - 1), Max(ts[j - 1].now - ts[j - 2].now, 0.0));
    }
  }

  /** What was spent and what is held stay within a limit. */
  ghost predicate Within(spent: real, held: real, limit: real) {
    spent + held <= limit
  }

  lemma StepBound(l: Limits, s: State, t: Timed, prev: real)
    requires Usable(l)
    ensures Spent(l, s, t) + Holds(l, Step(l, s, t), t.now) <= Holds(l, s, prev) + Gain(l, Max(t.now - prev, 0.0))
  {
    HoldsGrows(l, s, prev, t.now);
    StepSpends(l, s, t);
  }

  lemma Chained(spent: real, held: real, limit: real, spends: real, left: real, more: real)
    requires Within(spent, held, limit) && spends + left <= held + more
    ensures Within(spent + spends, left, limit + more)
  {
  }

  /** One step raises the limit by what the clock's move since `prev` refills. */
  lemma WithinStep(l: Limits, s: State, t: Timed, prev: real, spent: real, limit: real)
    requires Usable(l) && Within(spent, Holds(l, s, prev), limit)
    ensures Within(spent + Spent(l, s, t), Holds(l, Step(l, s, t), t.now), limit + Gain(l, Max(t.now - prev, 0.0)))
  {
    StepBound(l, s, t, prev);
    Chained(spent, Holds(l, s, prev), limit, Spent(l, s, t), Holds(l, Step(l, s, t), t.now),
            Gain(l, Max(t.now - prev, 0.0)));
  }

  lemma WithinFirst(l: Limits, s: State, t: Timed)
    requires Usable(l)
    ensures Within(Spent(l, s, t), Holds(l, Step(l, s, t), t.now), l.capacity)
  {
    StepSpends(l, s, t);
  }

  ghost predicate WithinAt(l: Limits, s: State, ts: seq<Timed>, base: real, i: nat, from: nat, j: nat)
    requires Usable(l) && i < j <= |ts| && from <= j
  {
    Within(SpentIn(l, s, ts, from, j), Holds(l, After(l, s, ts[..j]), ts[j - 1].now), base + Regained(l, ts, i, j))
  }

  lemma WithinOneMore(l: Limits, s: State, ts: seq<Timed>, base: real, i: nat, from: nat, j: nat)
    requires Usable(l) && i + 1 < j <= |ts| && from < j && WithinAt(l, s, ts, base, i, from, j - 1)
    ensures WithinAt(l, s, ts, base, i, from, j)
  {
    AfterOneMore(l, s, ts, j);
    WithinStepAt(l, After(l, s, ts[..j - 1]), ts, base, i, j, SpentIn(l, s, ts, from, j - 1));
  }

  lemma AfterOneMore(l: Limits, s: State, ts: seq<Timed>, j: nat)
    requires Usable(l) && 0 < j <= |ts|
    ensures After(l, s, ts[..j]) == Step(l, After(l, s, ts[..j - 1]), ts[j - 1])
  {
    assert ts[..j][..j - 1] == ts[..j - 1];
  }

  lemma WithinStepAt(l: Limits, before: State, ts: seq<Timed>, base: real, i: nat, j: nat, spent: real)
    requires Usable(l) && i + 1 < j <= |ts|
    requires Within(spent, Holds(l, before, ts[j - 2].now), base + Regained(l, ts, i, j - 1))
    ensures Within(spent + Spent(l, before, ts[j - 1]), Holds(l, Step(l, before, ts[j - 1]), ts[j - 1].now),
                   base + Regained(l, ts, i, j))
  {
    var more := Gain(l, Max(ts[j - 1].now - ts[j - 2].now, 0.0));
    WithinStep(l, before, ts[j - 1], ts[j - 2].now, spent, base + Regained(l, ts, i, j - 1));
    Regroup(spent + Spent(l, before, ts[j - 1]), Holds(l, Step(l, before, ts[j - 1]), ts[j - 1].now), base,
            Regained(l, ts, i, j - 1), more);
  }

  lemma Regroup(spent: real, held: real, base: real, gained: real, more: real)
    requires Within(spent, held, base + gained + more)
    ensures Within(spent, held, base + (gained + more))
  {
  }

  lemma {:induction false} SpentAndHeld(l: Limits, s: State, ts: seq<Timed>, i: nat, j: nat)
    requires Usable(l) && i < j <= |ts|
    ensures WithinAt(l, s, ts, l.capacity, i, i, j)
  {
    if j > i + 1 {
      SpentAndHeld(l, s, ts, i, j - 1);
      WithinOneMore(l, s, ts, l.capacity, i, i, j);
    } else {
      var before, t := After(l, s, ts[..j - 1]), ts[j - 1];
      AfterOneMore(l, s, ts, j);
      WithinFirst(l, before, t);
      assert SpentIn(l, s, ts, i, i) == 0.0;
      assert SpentIn(l, s, ts, i, j) == 0.0 + Spent(l, before, t);
    }
  }

  /** From what is held after step `i` on. */
  lemma {:induction false} SpentFromHeld(l: Limits, s: State, ts: seq<Timed>, i: nat, j: nat)
    requires Usable(l) && i < j <= |ts|
    ensures WithinAt(l, s, ts, Holds(l, After(l, s, ts[..i + 1]), ts[i].now), i, i + 1, j)
  {
    if j > i + 1 {
      SpentFromHeld(l, s, ts, i, j - 1);
      WithinOneMore(l, s, ts, Holds(l, After(l, s, ts[..i + 1]), ts[i].now), i, i + 1, j);
    }
  }

  /**
   * On any clock, the weight let through by any consecutive steps is at most the capacity plus what the
   * clock's forward movement over them refills, however often it goes back.
   */
  lemma AnyClockBound(l: Limits, start: real, ts: seq<Timed>, i: nat, j: nat)
    requires Usable(l) && i < j <= |ts|
    ensures SpentIn(l, New(l, start), ts, i, j) <= l.capacity + Gain(l, Forward(ts, i, j))
  {
    var s0 := New(l, start);
    SpentAndHeld(l, s0, ts, i, j);
    RegainedIsForward(l, ts, i, j);
    HeldIsNotNegative(l, start, ts, j);
    SpentAlone(SpentIn(l, s0, ts, i, j), Holds(l, After(l, s0, ts[..j]), ts[j - 1].now), l.capacity, l.capacity,
               Regained(l, ts, i, j));
  }

  lemma SpentAlone(spent: real, held: real, base: real, top: real, gained: real)
    requires Within(spent, held, base + gained) && held >= 0.0 && base <= top
    ensures spent <= top + gained
  {
  }

  lemma HeldIsNotNegative(l: Limits, start: real, ts: seq<Timed>, j: nat)
    requires Usable(l) && 0 < j <= |ts|
    ensures Holds(l, After(l, New(l, start), ts[..j]), ts[j - 1].now) >= 0.0
  {
    TokensInRange(l, start, ts[..j]);
    HoldsSomething(l, After(l, New(l, start), ts[..j]), ts[j - 1].now);
  }

  /**
   * On any clock, after the exchange reports a used weight, what is let through from then on is at most
   * what it left of the capacity plus what the clock's forward movement since refills.
   */
  lemma ObservedWeightBinds(l: Limits, start: real, ts: seq<Timed>, i: nat, j: nat)
    requires Usable(l) && i < j <= |ts|
    requires ts[i].op.Used? && ts[i].op.weight >= 0.0
    ensures SpentIn(l, New(l, start), ts, i + 1, j) <= Max(l.capacity - ts[i].op.weight, 0.0) + Gain(l, Forward(ts, i, j))
  {
    var s0 := New(l, start);
    ObservedIsHeld(l, s0, ts, i);
    SpentFromHeld(l, s0, ts, i, j);
    RegainedIsForward(l, ts, i, j);
    HeldIsNotNegative(l, start, ts, j);
    SpentAlone(SpentIn(l, s0, ts, i + 1, j), Holds(l, After(l, s0, ts[..j]), ts[j - 1].now),
               Holds(l, After(l, s0, ts[..i + 1]), ts[i].now), Max(l.capacity - ts[i].op.weight, 0.0),
               Regained(l, ts, i, j));
  }

  /** Right after the report the bucket holds no more than what is left of the capacity. */
  lemma ObservedIsHeld(l: Limits, s: State, ts: seq<Timed>, i: nat)
    requires Usable(l) && i < |ts| && ts[i].op.Used? && ts[i].op.weight >= 0.0
    ensures Holds(l, After(l, s, ts[..i + 1]), ts[i].now) <= Max(l.capacity - ts[i].op.weight, 0.0)
  {
    assert ts[..i + 1][..i] == ts[..i];
    assert After(l, s, ts[..i + 1]) == Observe(l, After(l, s, ts[..i]), ts[i].op.weight, ts[i].now);
  }

  lemma GainGrows(l: Limits, a: real, b: real)
    requires Usable(l) && a <= b
    ensures Gain(l, a) <= Gain(l, b)
  {
    SignOfProduct(b - a, l.rate);
    assert (b - a) * l.rate == Gain(l, b) - Gain(l, a);
  }

  /**
   * So on a clock that never goes back, the weight let through by any consecutive steps that span a time
   * `length` is at most the capacity plus what that time refills.
   */
  lemma WindowBound(l: Limits, start: real, ts: seq<Timed>, i: nat, j: nat, length: real)
    requires Usable(l) && Clocked(ts) && i < j <= |ts| && ts[j - 1].now - ts[i].now <= length
    ensures SpentIn(l, New(l, start), ts, i, j) <= l.capacity + Gain(l, length)
  {
    AnyClockBound(l, start, ts, i, j);
    ForwardAtMost(ts, i, j, length);
    GainGrows(l, Forward(ts, i, j), length);
  }

  lemma ForwardAtMost(ts: seq<Timed>, i: nat, j: nat, length: real)
    requires Clocked(ts) && i < j <= |ts| && ts[j - 1].now - ts[i].now <= length
    ensures Forward(ts, i, j) <= length
  {
    ForwardIsElapsed(ts, i, j);
  }

  lemma HoldsSomething(l: Limits, s: State, now: real)
    requires Usable(l) && InRange(l, s)
    ensures Holds(l, s, now) >= 0.0
  {
    assert Max(now - s.updatedAt, 0.0) * l.rate >= 0.0;
  }

  /**
   * The clock matters, and the bound on any clock is met: one step back refills the same time twice, and
   * twice the capacity passes at one instant.
   */
  lemma BackwardClockOverspends(l: Limits)
    requires Usable(l)
    ensures
      (var at := l.capacity / l.rate;
        var ts := [Timed(Ask(l.capacity), at), Timed(Ask(l.capacity), 0.0), Timed(Ask(l.capacity), at)];
        && SpentIn(l, New(l, 0.0), ts, 0, 3) == 2.0 * l.capacity == l.capacity + Gain(l, Forward(ts, 0, 3))
        && !(2.0 * l.capacity <= l.capacity + Gain(l, 0.0)))
  {
    var at := l.capacity / l.rate;
    WaitScales(l.capacity, l.rate, at);
    var ts := [Timed(Ask(l.capacity), at), Timed(Ask(l.capacity), 0.0), Timed(Ask(l.capacity), at)];
    var s0 := New(l, 0.0);
    assert at * l.rate == l.capacity;
    assert ts[..3][..2] == ts[..2] && ts[..2][..1] == ts[..1] && ts[..1][..0] == ts[..0] == [];
    var s1 := After(l, s0, ts[..1]);
    assert After(l, s0, ts[..0]) == s0;
    assert s1 == Step(l, s0, ts[0]) && s1.tokens == 0.0 && s1.updatedAt == at && s1.blockedUntil == 0.0;
    var s2 := After(l, s0, ts[..2]);
    assert s2 == Step(l, s1, ts[1]) && s2.tokens == 0.0 && s2.updatedAt == 0.0 && s2.blockedUntil == 0.0;
    assert Spent(l, s0, ts[0]) == l.capacity && Spent(l, s1, ts[1]) == 0.0 && Spent(l, s2, ts[2]) == l.capacity;
    assert SpentIn(l, s0, ts, 0, 1) == l.capacity;
    assert SpentIn(l, s0, ts, 0, 2) == l.capacity;
    assert Forward(ts, 0, 1) == 0.0 && Forward(ts, 0, 2) == 0.0 && Forward(ts, 0, 3) == at;
  }

  // ------------------------------------------------------------------ bans

  /** Blocked until at least `until`, by the exchange. */
  ghost predicate BannedUntil(s: State, until: real) {
    s.blockedUntil >= until && s.byExchange
  }

  lemma {:induction false} BanHolds(l: Limits, s: State, ts: seq<Timed>, i: nat, j: nat)
    requires Usable(l) && Clocked(ts) && i < j <= |ts| && ts[i].op.Told?
    requires ts[j - 1].now < ts[i].now + Limited(After(l, s, ts[..i]), ts[i].now, ts[i].op.ban).0
    ensures BannedUntil(After(l, s, ts[..j]), ts[i].now + Limited(After(l, s, ts[..i]), ts[i].now, ts[i].op.ban).0)
  {
    assert ts[..j][..j - 1] == ts[..j - 1];
    if j > i + 1 {
      BanHolds(l, s, ts, i, j - 1);
    }
  }

  /**
   * After a rate-limit answer with delay `d`, between 1 and 900 seconds and past any ban it names that is
   * not longer, every request asked before `d` is over is refused as banned, for at least the time left.
   */
  lemma BansAreHonoured(l: Limits, s: State, ts: seq<Timed>, i: nat, j: nat)
    requires Usable(l) && Clocked(ts) && i < j < |ts| && ts[i].op.Told? && ts[j].op.Ask?
    ensures
      (var d := Limited(After(l, s, ts[..i]), ts[i].now, ts[i].op.ban).0;
        var answer := Gate(l, After(l, s, ts[..j]), ts[j].op.weight, ts[j].now).0;
        && 1.0 <= d <= MAX_HONORED_BAN
        && (ts[i].op.ban.Some? ==> d >= Min(ts[i].op.ban.value + 1.0, MAX_HONORED_BAN))
        && (ts[j].now < ts[i].now + d ==> answer.Banned? && answer.time >= ts[i].now + d - ts[j].now > 0.0))
  {
    if ts[j].now < ts[i].now + Limited(After(l, s, ts[..i]), ts[i].now, ts[i].op.ban).0 {
      BanHolds(l, s, ts, i, j);
    }
  }

  lemma {:induction false} AlwaysHonest(l: Limits, start: real, ts: seq<Timed>, now: real)
    requires Usable(l) && Clocked(ts) && now >= start
    requires forall i | 0 <= i < |ts| :: start <= ts[i].now <= now
    ensures Honest(After(l, New(l, start), ts), now)
  {
    if ts != [] {
      AlwaysHonest(l, start, ts[..|ts| - 1], ts[|ts| - 1].now);
    }
  }

  /** A limiter answers wait for want of budget only, never while blocked, and so at most as long as a full refill takes. */
  lemma WaitIsForBudget(l: Limits, start: real, ts: seq<Timed>, weight: real, now: real)
    requires Usable(l) && Clocked(ts) && now >= start
    requires forall i | 0 <= i < |ts| :: start <= ts[i].now <= now
    ensures
      (var s := After(l, New(l, start), ts);
        var answer := Gate(l, s, weight, now).0;
        answer.Wait? ==> s.blockedUntil <= now && 0.0 < answer.time <= l.capacity / l.rate)
  {
    AlwaysHonest(l, start, ts, now);
    TokensInRange(l, start, ts);
    var s := After(l, New(l, start), ts);
    if Gate(l, s, weight, now).0.Wait? {
      BudgetWait(l, s, weight, now);
    }
  }

  /** Past the block a wait is for the missing tokens. */
  lemma BudgetWait(l: Limits, s: State, weight: real, now: real)
    requires Usable(l) && InRange(l, s) && s.blockedUntil <= now && Gate(l, s, weight, now).0.Wait?
    ensures 0.0 < Gate(l, s, weight, now).0.time <= l.capacity / l.rate
  {
    var r := Refill(l, s, now);
    assert r.tokens >= 0.0 by { assert Max(now - s.updatedAt, 0.0) * l.rate >= 0.0; }
    WaitScales(Clamped(l, weight) - r.tokens, l.rate, 0.0);
    DivideGrows(Clamped(l, weight) - r.tokens, l.capacity, l.rate);
  }

  lemma DivideGrows(a: real, b: real, rate: real)
    requires rate > 0.0 && a <= b
    ensures a / rate <= b / rate
  {
    var x, y := a / rate, b / rate;
    assert x * rate == a && y * rate == b;
    assert (y - x) * rate == b - a;
    SignOfProduct(y - x, rate);
  }

  /** On a clock that goes back a block can turn into a wait: the step at its end forgot who imposed it. */
  lemma BackwardClockForgetsTheBan(l: Limits)
    requires Usable(l)
    ensures
      (var ts := [Timed(Told(None), 0.0), Timed(Ask(1.0), 1.0)];
        Gate(l, After(l, New(l, 0.0), ts), 1.0, 0.5).0 == Wait(0.5))
  {
    var ts := [Timed(Told(None), 0.0), Timed(Ask(1.0), 1.0)];
    var s0 := New(l, 0.0);
    assert ts[..1][..0] == [] && ts[..1] == [ts[0]];
    assert After(l, s0, ts[..1]) == Step(l, s0, ts[0]);
    assert Step(l, s0, ts[0]).blockedUntil == 1.0;
    assert After(l, s0, ts) == Step(l, Step(l, s0, ts[0]), ts[1]);
  }

  /** Limits that keep coming within 300 s and name no ban double the delay up to 32 s. */
  lemma {:induction false} BackoffDoubles(s: State, start: real, gaps: seq<real>)
    requires s.lastLimited == None && s.exponent == 0
    requires forall i | 0 <= i < |gaps| :: 0.0 <= gaps[i] <= BACKOFF_RESET
    ensures
      (var r := LimitedAgain(s, start, gaps);
        && r.0 == Backoff(if |gaps| + 1 <= 6 then |gaps| + 1 else 6)
        && r.1.exponent == (if |gaps| + 1 <= 6 then |gaps| + 1 else 6)
        && r.1.lastLimited == Some(r.2))
  {
    if gaps != [] {
      BackoffDoubles(s, start, gaps[..|gaps| - 1]);
    }
  }

  /** Limited at `start` and again after each gap: the last delay, the state and the time of the last. */
  function LimitedAgain(s: State, start: real, gaps: seq<real>): (real, State, real) {
    if gaps == [] then
      var (d, s') := Limited(s, start, None);
      (d, s', start)
    else
      var (_, before, at) := LimitedAgain(s, start, gaps[..|gaps| - 1]);
      var now := at + gaps[|gaps| - 1];
      var (d, s') := Limited(before, now, None);
      (d, s', now)
  }
}
