/** Splitting a parent order into tiers of whole lots, and rounding quantities to lots, in exact arithmetic. */
module Lots {
  import opened Powers

  const SLACK: real := 0.0000000001
  const TIERS: nat := 10_000_000_000

  function Positive(x: real): real {
    if x > 0.0 then x else 0.0
  }

  function Total(percents: seq<real>): (r: real)
    ensures r >= 0.0
  {
    if percents == [] then 0.0 else Total(percents[..|percents| - 1]) + Positive(percents[|percents| - 1])
  }

  /** The exact share of the parent, in lots. */
  function Share(parent: nat, percent: real, total: real): real
    requires total > 0.0
  {
    parent as real * Positive(percent) / total
  }

  function Sum(lots: seq<nat>): nat {
    if lots == [] then 0 else Sum(lots[..|lots| - 1]) + lots[|lots| - 1]
  }

  lemma ShareNotNegative(parent: nat, percent: real, total: real)
    requires total > 0.0
    ensures Share(parent, percent, total) >= 0.0
    ensures percent <= 0.0 ==> Share(parent, percent, total) == 0.0
  {
    var x := parent as real * Positive(percent);
    assert x >= 0.0;
    assert x / total * total == x;
    if x / total < 0.0 {
      assert -(x / total) * total > 0.0;
    }
  }

  function TierLots(parent: nat, percent: real, total: real): (r: nat)
    requires total > 0.0
  {
    ShareNotNegative(parent, percent, total);
    (Share(parent, percent, total) + SLACK).Floor
  }

  /** The first `n` tiers, rounded down on their own. */
  function Tiers(parent: nat, percents: seq<real>, total: real): (r: seq<nat>)
    requires total > 0.0
    ensures |r| == |percents|
    ensures forall i | 0 <= i < |r| :: r[i] == TierLots(parent, percents[i], total)
  {
    if percents == [] then []
    else Tiers(parent, percents[..|percents| - 1], total) + [TierLots(parent, percents[|percents| - 1], total)]
  }

  function SaturatingSub(a: nat, b: nat): nat {
    if a >= b then a - b else 0
  }

  function Zeros(n: nat): (r: seq<nat>)
    ensures |r| == n && forall i | 0 <= i < n :: r[i] == 0
  {
    seq(n, _ => 0)
  }

  function Allocation(parent: nat, percents: seq<real>): seq<nat> {
    var total := Total(percents);
    if total <= 0.0 then Zeros(|percents|)
    else
      var tiers := Tiers(parent, percents[..|percents| - 1], total);
      tiers + [SaturatingSub(parent, Sum(tiers))]
  }

  method AllocateLots(parent: nat, percents: seq<real>) returns (result: seq<nat>)
    ensures result == Allocation(parent, percents)
  {
    if percents == [] {
      return [];
    }
    var total := Total(percents);
    if total <= 0.0 {
      return Zeros(|percents|);
    }
    var handedOut: nat := 0;
    result := [];
    for index := 0 to |percents|
      invariant index < |percents| ==> result == Tiers(parent, percents[..index], total) && handedOut == Sum(result)
      invariant index == |percents| ==> result == Allocation(parent, percents)
    {
      var lots: nat;
      if index + 1 == |percents| {
        lots := SaturatingSub(parent, handedOut);
      } else {
        lots := TierLots(parent, percents[index], total);
        assert percents[..index + 1][..index] == percents[..index];
      }
      handedOut := handedOut + lots;
      SumAppend(result, lots);
      result := result + [lots];
    }
  }

  // ------------------------------------------------------------------ the tiers sum to the parent

  lemma PositiveProduct(x: real, y: real)
    requires y > 0.0
    ensures x * y > 0.0 <==> x > 0.0
    ensures x * y >= 0.0 <==> x >= 0.0
  {
    if x < 0.0 {
      assert -x * y > 0.0;
    }
  }

  function SumReal(xs: seq<real>): real {
    if xs == [] then 0.0 else SumReal(xs[..|xs| - 1]) + xs[|xs| - 1]
  }

  /** The value of `f` at each positive percent. */
  function Mapped(percents: seq<real>, f: real -> real): (r: seq<real>)
    ensures |r| == |percents|
  {
    if percents == [] then []
    else Mapped(percents[..|percents| - 1], f) + [f(Positive(percents[|percents| - 1]))]
  }

  lemma {:induction false} MappedAt(percents: seq<real>, f: real -> real, i: nat)
    requires i < |percents|
    ensures Mapped(percents, f)[i] == f(Positive(percents[i]))
  {
    if i < |percents| - 1 {
      MappedAt(percents[..|percents| - 1], f, i);
    }
  }

  /** Numbers that exceed others by at most the slack each exceed them by at most all slacks together. */
  lemma {:induction false} SlackAddsUp(lots: seq<nat>, shares: seq<real>)
    requires |lots| == |shares| && forall i | 0 <= i < |lots| :: lots[i] as real <= shares[i] + SLACK
    ensures Sum(lots) as real <= SumReal(shares) + |lots| as real * SLACK
  {
    if lots != [] {
      SlackAddsUp(lots[..|lots| - 1], shares[..|shares| - 1]);
    }
  }

  lemma SumRealAppend(xs: seq<real>, x: real)
    ensures SumReal(xs + [x]) == SumReal(xs) + x
  {
    assert (xs + [x])[..|xs|] == xs;
  }

  /** `f` adds up along the percents. */
  ghost predicate Adds(percents: seq<real>, f: real -> real) {
    if percents == [] then f(0.0) == 0.0
    else
      var init, last := percents[..|percents| - 1], Positive(percents[|percents| - 1]);
      Adds(init, f) && f(Total(init) + last) == f(Total(init)) + f(last)
  }

  lemma AddOne(percents: seq<real>, f: real -> real, init: seq<real>, last: real)
    requires percents != [] && init == percents[..|percents| - 1] && last == Positive(percents[|percents| - 1])
    requires f(Total(init) + last) == f(Total(init)) + f(last)
    requires SumReal(Mapped(init, f)) == f(Total(init))
    ensures SumReal(Mapped(percents, f)) == f(Total(percents))
  {
    SumRealAppend(Mapped(init, f), f(last));
  }

  /** Exact shares add up exactly. */
  lemma {:induction false} SharesAddUp(percents: seq<real>, f: real -> real)
    requires Adds(percents, f)
    ensures SumReal(Mapped(percents, f)) == f(Total(percents))
  {
    if percents != [] {
      SharesAddUp(percents[..|percents| - 1], f);
      AddOne(percents, f, percents[..|percents| - 1], Positive(percents[|percents| - 1]));
    }
  }

  /** The exact share of the parent as a function of the percent. */
  function ShareOf(parent: nat, total: real): real -> real
    requires total > 0.0
  {
    x => parent as real * x / total
  }

  lemma SharesDistribute(parent: nat, total: real, a: real, b: real)
    requires total > 0.0
    ensures ShareOf(parent, total)(a + b) == ShareOf(parent, total)(a) + ShareOf(parent, total)(b)
  {
    var p := parent as real;
    assert p * (a + b) == p * a + p * b;
  }

  lemma {:induction false} SharesAdd(parent: nat, percents: seq<real>, total: real)
    requires total > 0.0
    ensures Adds(percents, ShareOf(parent, total))
  {
    if percents != [] {
      SharesAdd(parent, percents[..|percents| - 1], total);
      SharesDistribute(parent, total, Total(percents[..|percents| - 1]), Positive(percents[|percents| - 1]));
    }
  }

  lemma TierBelowShare(parent: nat, percent: real, total: real)
    requires total > 0.0
    ensures TierLots(parent, percent, total) as real <= ShareOf(parent, total)(Positive(percent)) + SLACK
  {
  }

  /** Rounded tiers exceed their part of the parent by at most the slack each. */
  lemma TiersBound(parent: nat, percents: seq<real>, total: real)
    requires total > 0.0
    ensures Sum(Tiers(parent, percents, total)) as real
      <= ShareOf(parent, total)(Total(percents)) + |percents| as real * SLACK
  {
    var f := ShareOf(parent, total);
    var tiers, shares := Tiers(parent, percents, total), Mapped(percents, f);
    forall i | 0 <= i < |tiers| ensures tiers[i] as real <= shares[i] + SLACK {
      MappedAt(percents, f, i);
      TierBelowShare(parent, percents[i], total);
    }
    SlackAddsUp(tiers, shares);
    SharesAdd(parent, percents, total);
    SharesAddUp(percents, f);
  }

  lemma PartOfParent(parent: nat, part: real, total: real)
    requires 0.0 <= part <= total && total > 0.0
    ensures ShareOf(parent, total)(part) <= parent as real
  {
    var x := parent as real * part / total;
    assert x * total == parent as real * part;
    assert parent as real * (total - part) >= 0.0;
    assert (parent as real - x) * total >= 0.0;
    PositiveProduct(parent as real - x, total);
  }

  /** Up to 10^10 tiers the slack never over-allocates. */
  lemma TiersFit(parent: nat, percents: seq<real>, total: real)
    requires total > 0.0 && Total(percents) <= total && |percents| < TIERS
    ensures Sum(Tiers(parent, percents, total)) <= parent
  {
    TiersBound(parent, percents, total);
    PartOfParent(parent, Total(percents), total);
    SlackBelowOne(|percents|);
    WholeBelow(
      Sum(Tiers(parent, percents, total)), parent, ShareOf(parent, total)(Total(percents)), |percents| as real * SLACK);
  }

  lemma WholeBelow(sum: nat, parent: nat, part: real, extra: real)
    requires sum as real <= part + extra && part <= parent as real && extra < 1.0
    ensures sum <= parent
  {
    assert sum as real < (parent + 1) as real;
  }

  lemma SlackBelowOne(n: nat)
    ensures n as real * SLACK < 1.0 <==> n < TIERS
  {
  }

  lemma SumAppend(tiers: seq<nat>, last: nat)
    ensures Sum(tiers + [last]) == Sum(tiers) + last
  {
    assert (tiers + [last])[..|tiers|] == tiers;
  }

  /** Lots are conserved: with a positive total and at most 10^10 tiers they sum to the parent's. */
  lemma LotsAreConserved(parent: nat, percents: seq<real>)
    requires Total(percents) > 0.0 && |percents| <= TIERS
    ensures Sum(Allocation(parent, percents)) == parent
  {
    TiersFit(parent, percents[..|percents| - 1], Total(percents));
    var tiers := Tiers(parent, percents[..|percents| - 1], Total(percents));
    SumAppend(tiers, SaturatingSub(parent, Sum(tiers)));
  }

  /** A tier other than the last gets its exact share rounded down, the slack aside; none for no percent. */
  lemma TierIsItsShare(parent: nat, percents: seq<real>, i: nat)
    requires Total(percents) > 0.0 && i < |percents| - 1
    ensures
      (var lots, share := Allocation(parent, percents)[i] as real, Share(parent, percents[i], Total(percents));
        share - 1.0 < lots <= share + SLACK)
    ensures percents[i] <= 0.0 ==> Allocation(parent, percents)[i] == 0
  {
    ShareNotNegative(parent, percents[i], Total(percents));
  }

  /** Without a positive percent nothing is allocated. */
  lemma NoPercentNoLots(parent: nat, percents: seq<real>)
    requires forall i | 0 <= i < |percents| :: percents[i] <= 0.0
    ensures Allocation(parent, percents) == Zeros(|percents|)
  {
    NothingTotal(percents);
  }

  lemma {:induction false} NothingTotal(percents: seq<real>)
    requires forall i | 0 <= i < |percents| :: percents[i] <= 0.0
    ensures Total(percents) == 0.0
  {
    if percents != [] {
      NothingTotal(percents[..|percents| - 1]);
    }
  }

  // ------------------------------------------------------------------ the bound on tiers is exact

  /** `ones` equal tiers followed by empty ones. */
  function EqualTiers(ones: nat, n: nat): (r: seq<real>)
    ensures |r| == n && forall i | 0 <= i < n :: r[i] == if i < ones then 1.0 else 0.0
  {
    seq(n, i => if i < ones then 1.0 else 0.0)
  }

  lemma {:induction false} EqualTotal(ones: nat, n: nat, percents: seq<real>)
    requires |percents| == n && forall i | 0 <= i < n :: percents[i] == if i < ones then 1.0 else 0.0
    ensures Total(percents) == (if n <= ones then n else ones) as real
    decreases n
  {
    if n > 0 {
      EqualTotal(ones, n - 1, percents[..n - 1]);
    }
  }

  lemma {:induction false} EqualSum(ones: nat, lots: seq<nat>)
    requires forall i | 0 <= i < |lots| :: lots[i] == if i < ones then 1 else 0
    ensures Sum(lots) == if |lots| <= ones then |lots| else ones
  {
    if lots != [] {
      EqualSum(ones, lots[..|lots| - 1]);
    }
  }

  lemma EqualTierLots(percent: real)
    requires percent == 1.0 || percent == 0.0
    ensures TierLots(TIERS - 1, percent, TIERS as real) == if percent == 1.0 then 1 else 0
  {
    assert Share(TIERS - 1, percent, TIERS as real) == if percent == 1.0 then 1.0 - SLACK else 0.0;
  }

  lemma TierOfEqual(percents: seq<real>, n: nat)
    requires n > TIERS && |percents| == n
    requires forall i | 0 <= i < n :: percents[i] == if i < TIERS then 1.0 else 0.0
    ensures
      (var tiers := Tiers(TIERS - 1, percents[..n - 1], TIERS as real);
        |tiers| == n - 1 && forall i | 0 <= i < |tiers| :: tiers[i] == if i < TIERS then 1 else 0)
  {
    var tiers := Tiers(TIERS - 1, percents[..n - 1], TIERS as real);
    forall i | 0 <= i < |tiers| ensures tiers[i] == if i < TIERS then 1 else 0 {
      EqualTierLots(percents[i]);
    }
  }

  /** With one tier more, a parent of 10^10 - 1 lots becomes 10^10. */
  lemma OneTierTooMany(n: nat)
    requires n > TIERS
    ensures Total(EqualTiers(TIERS, n)) > 0.0
    ensures Sum(Allocation(TIERS - 1, EqualTiers(TIERS, n))) == TIERS
  {
    var percents := EqualTiers(TIERS, n);
    EqualTotal(TIERS, n, percents);
    var tiers := Tiers(TIERS - 1, percents[..n - 1], TIERS as real);
    TierOfEqual(percents, n);
    EqualSum(TIERS, tiers);
    NothingRemains(TIERS - 1, percents, TIERS as real, tiers);
  }

  /** When the tiers already hand out the parent's lots or more, the last gets none. */
  lemma NothingRemains(parent: nat, percents: seq<real>, total: real, tiers: seq<nat>)
    requires percents != [] && total == Total(percents) > 0.0
    requires tiers == Tiers(parent, percents[..|percents| - 1], total) && Sum(tiers) >= parent
    ensures Sum(Allocation(parent, percents)) == Sum(tiers)
  {
    SumAppend(tiers, 0);
    assert Allocation(parent, percents) == tiers + [0];
  }

  ghost predicate AlwaysConserves(n: nat) {
    forall parent: nat, percents: seq<real> | |percents| == n && Total(percents) > 0.0 ::
      Sum(Allocation(parent, percents)) == parent
  }

  /** Conservation holds for every parent and all percents exactly up to 10^10 tiers. */
  lemma ConservesIffFewTiers(n: nat)
    ensures AlwaysConserves(n) <==> n <= TIERS
  {
    if n <= TIERS {
      forall parent: nat, percents: seq<real> | |percents| == n && Total(percents) > 0.0
        ensures Sum(Allocation(parent, percents)) == parent
      {
        LotsAreConserved(parent, percents);
      }
    } else {
      OneTierTooMany(n);
    }
  }

  // ------------------------------------------------------------------ quantities

  /** Nearest integer, ties to even, as decimal formatting rounds. */
  function Nearest(x: real): int {
    var f := x.Floor;
    var part := x - f as real;
    if part < 0.5 || (part == 0.5 && f % 2 == 0) then f else f + 1
  }

  /** Decimals left when `d` decimals of the digits `m` lose their trailing zeros. */
  function Trimmed(m: nat, d: nat): (r: nat)
    ensures r <= d
  {
    if d > 0 && m % 10 == 0 then Trimmed(m / 10, d - 1) else d
  }

  const UNITS: nat := 1_000_000_000_000

  /** Decimals of a quantum printed with twelve. */
  function Decimals(quantum: real): nat {
    var m := Nearest(quantum * UNITS as real);
    Trimmed(if m < 0 then -m else m, 12)
  }

  /** Half away from zero. */
  function Round(x: real): int {
    if x >= 0.0 then (x + 0.5).Floor else -((-x + 0.5).Floor)
  }

  function RoundedDecimal(value: real, quantum: real): real {
    RoundTo(value, Pow10(Decimals(quantum)))
  }

  function RoundTo(value: real, factor: nat): real
    requires factor > 0
  {
    Round(value * factor as real) as real / factor as real
  }

  function QuantityLots(step: real, quantity: real): (r: nat) {
    if quantity <= 0.0 || step <= 0.0 then 0
    else
      var lots := (quantity / step + SLACK).Floor;
      if lots > 0 then lots else 0
  }

  function QuantityFromLots(step: real, lots: nat): real {
    RoundedDecimal(lots as real * step, step)
  }

  /** Rounding down to the step; prices round to the tick in the same way. */
  function Normalize(step: real, quantity: real): real {
    QuantityFromLots(step, QuantityLots(step, quantity))
  }

  predicate Whole(x: real) {
    x.Floor as real == x
  }

  /** The step is a whole number of 10^-12. */
  predicate TwelveDecimals(step: real) {
    step > 0.0 && Whole(step * UNITS as real)
  }

  /** What trimming takes off is a power of ten. */
  lemma {:induction false} TrimmedScales(m: nat, d: nat) returns (k: nat)
    ensures m == k * Pow10(d - Trimmed(m, d))
  {
    if d > 0 && m % 10 == 0 {
      k := TrimmedScales(m / 10, d - 1);
      var p := Pow10(d - 1 - Trimmed(m / 10, d - 1));
      assert m == 10 * (m / 10) == 10 * (k * p) == k * (10 * p);
    } else {
      k := m;
    }
  }

  lemma {:induction false} PowersMultiply(a: nat, b: nat)
    ensures Pow10(a) * Pow10(b) == Pow10(a + b)
  {
    if a > 0 {
      PowersMultiply(a - 1, b);
      assert 10 * Pow10(a - 1) * Pow10(b) == 10 * (Pow10(a - 1) * Pow10(b));
    }
  }

  lemma TwelvePower(d: nat)
    requires d <= 12
    ensures Pow10(d) * Pow10(12 - d) == UNITS
  {
    PowersMultiply(d, 12 - d);
    assert Pow10(6) == 1_000_000;
    PowersMultiply(6, 6);
  }

  lemma WholeQuotient(step: real, m: nat, a: nat, b: nat, k: nat)
    requires step * UNITS as real == m as real && m == k * b && a * b == UNITS
    ensures step * a as real == k as real
  {
    var x := step * a as real - k as real;
    assert UNITS as real == a as real * b as real && m as real == k as real * b as real;
    assert x * b as real == step * (a as real * b as real) - k as real * b as real == 0.0;
    assert b != 0;
  }

  lemma DecimalsOfDigits(step: real, m: nat)
    requires step * UNITS as real == m as real
    ensures Decimals(step) == Trimmed(m, 12)
  {
    assert Nearest(m as real) == m;
  }

  lemma DigitsOf(step: real) returns (m: nat)
    requires TwelveDecimals(step)
    ensures step * UNITS as real == m as real
  {
    m := (step * UNITS as real).Floor;
  }

  /** With the decimals that printing finds, the step is a whole number. */
  lemma StepIsWhole(step: real) returns (factor: nat, k: nat)
    requires TwelveDecimals(step)
    ensures factor == Pow10(Decimals(step)) && step * factor as real == k as real
  {
    var m := DigitsOf(step);
    DecimalsOfDigits(step, m);
    k := TrimmedScales(m, 12);
    var d := Trimmed(m, 12);
    TwelvePower(d);
    factor := Pow10(d);
    WholeQuotient(step, m, factor, Pow10(12 - d), k);
  }

  lemma RoundKeepsWhole(n: nat)
    ensures Round(n as real) == n
  {
  }

  lemma RoundToKeepsWhole(value: real, factor: nat, n: nat)
    requires factor > 0 && value * factor as real == n as real
    ensures RoundTo(value, factor) == value
  {
    RoundKeepsWhole(n);
    assert value * factor as real / factor as real == value;
  }

  lemma Associates(a: real, b: real, c: real)
    ensures a * b * c == a * (b * c)
  {
  }

  lemma Regroup(lots: nat, step: real, factor: nat, k: nat)
    requires step * factor as real == k as real
    ensures lots as real * step * factor as real == (lots * k) as real
  {
    Associates(lots as real, step, factor as real);
    assert lots as real * k as real == (lots * k) as real;
  }

  /** Rounding a whole number of steps changes nothing. */
  lemma WholeStepsAreKept(step: real, lots: nat)
    requires TwelveDecimals(step)
    ensures QuantityFromLots(step, lots) == lots as real * step
  {
    var factor, k := StepIsWhole(step);
    Regroup(lots, step, factor, k);
    RoundToKeepsWhole(lots as real * step, factor, lots * k);
  }

  lemma LotsOfWholeSteps(step: real, lots: nat)
    requires step > 0.0
    ensures QuantityLots(step, lots as real * step) == lots
  {
    if lots > 0 {
      assert lots as real * step > 0.0;
      assert lots as real * step / step == lots as real;
    }
  }

  /** Lots survive the way through a quantity, for every count. */
  lemma LotsRoundTrip(step: real, lots: nat)
    requires TwelveDecimals(step)
    ensures QuantityLots(step, QuantityFromLots(step, lots)) == lots
  {
    WholeStepsAreKept(step, lots);
    LotsOfWholeSteps(step, lots);
  }

  lemma RoundedDown(step: real, quantity: real)
    requires step > 0.0 && quantity > 0.0
    ensures quantity - step < QuantityLots(step, quantity) as real * step <= quantity + SLACK * step
  {
    var x, n := quantity / step, QuantityLots(step, quantity) as real;
    assert x * step == quantity;
    PositiveProduct(x, step);
    PositiveProduct(n - x + 1.0, step);
    PositiveProduct(x + SLACK - n, step);
    assert (n - x + 1.0) * step == n * step - quantity + step;
    assert (x + SLACK - n) * step == quantity + SLACK * step - n * step;
  }

  /** Normalising is rounding down to a whole number of steps, the slack aside. */
  lemma NormalizeRoundsDown(step: real, quantity: real)
    requires TwelveDecimals(step) && quantity > 0.0
    ensures Normalize(step, quantity) == QuantityLots(step, quantity) as real * step
    ensures quantity - step < Normalize(step, quantity) <= quantity + SLACK * step
  {
    WholeStepsAreKept(step, QuantityLots(step, quantity));
    RoundedDown(step, quantity);
  }

  /** Normalising twice changes nothing. */
  lemma NormalizeIsIdempotent(step: real, quantity: real)
    requires TwelveDecimals(step)
    ensures Normalize(step, Normalize(step, quantity)) == Normalize(step, quantity)
  {
    LotsRoundTrip(step, QuantityLots(step, quantity));
  }

  /** Thirteen decimals are too many: one lot of 10^-13 prints as no decimals and rounds to nothing. */
  lemma FinerStepsVanish(step: real)
    requires step * 10.0 * UNITS as real == 1.0
    ensures QuantityFromLots(step, 1) == 0.0 && QuantityLots(step, QuantityFromLots(step, 1)) == 0
  {
    assert 0.0 < step < 0.1;
    assert Nearest(step * UNITS as real) == 0;
    AllZeros(12);
    assert Decimals(step) == 0;
    assert Round(step) == 0;
  }

  lemma {:induction false} AllZeros(d: nat)
    ensures Trimmed(0, d) == 0
  {
    if d > 0 {
      AllZeros(d - 1);
    }
  }
}
