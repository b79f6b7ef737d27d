/** When a REST read of the account may start: the answer of the throttle, from what happened before alone. */
module AccountReads {
  import opened AccountStream

  /** Step `i` permitted a read of this kind, and none of the kind has finished since. */
  ghost predicate UnderWay(c: Cache, ts: seq<Timed>, i: nat, j: nat, k: Kind)
    requires j <= |ts|
  {
    i < j && Permitted(c, ts, i, k) && forall m | i < m < j :: ts[m].op != FinishRead(k)
  }

  /** Step `m` finished a read of this kind, and no invalidation has made the cache forget it. */
  ghost predicate Remembered(ts: seq<Timed>, m: nat, j: nat, k: Kind)
    requires j <= |ts|
  {
    m < j && ts[m].op == FinishRead(k) && (k == Orders ==> forall n | m < n < j :: ts[n].op != InvalidateOrders)
  }

  /** Some read of the kind began in the last 60 s and is under way. */
  ghost predicate Busy(c: Cache, ts: seq<Timed>, j: nat, k: Kind)
    requires j < |ts|
  {
    exists i: nat :: UnderWay(c, ts, i, j, k) && ts[j].now - ts[i].now <= 60.0
  }

  /** Some read of the kind finished in the last 10 s and is remembered. */
  ghost predicate Recent(ts: seq<Timed>, j: nat, k: Kind)
    requires j < |ts|
  {
    exists m: nat :: Remembered(ts, m, j, k) && ts[j].now - ts[m].now < 10.0
  }

  // ------------------------------------------------------------------ what the gate holds

  /** The gate's first time is the latest finish that is remembered. */
  ghost predicate HoldsFinish(g: Gate, ts: seq<Timed>, j: nat, k: Kind)
    requires j <= |ts|
  {
    && (forall m: nat :: Remembered(ts, m, j, k) ==> g.lastAt >= ts[m].now)
    && (g.lastAt > 0.0 ==> exists m: nat :: Remembered(ts, m, j, k) && g.lastAt == ts[m].now)
  }

  /** Its second is the latest permit under way, unless that is more than 60 s old. */
  ghost predicate HoldsPermit(g: Gate, c: Cache, ts: seq<Timed>, j: nat, k: Kind)
    requires j <= |ts|
  {
    && (forall i: nat :: UnderWay(c, ts, i, j, k) ==> g.inFlightAt >= ts[i].now || ts[j - 1].now - ts[i].now > 60.0)
    && (g.inFlightAt > 0.0 ==> exists i: nat :: UnderWay(c, ts, i, j, k) && g.inFlightAt == ts[i].now)
  }

  lemma FinishIsHeld(g: Gate, ts: seq<Timed>, j: nat, k: Kind)
    requires Clocked(ts) && j < |ts| && HoldsFinish(g, ts, j, k)
    ensures HoldsFinish(MoveGate(g, ts[j], k), ts, j + 1, k)
  {
    var h := MoveGate(g, ts[j], k);
    forall m: nat | Remembered(ts, m, j + 1, k) ensures h.lastAt >= ts[m].now {
      if m < j {
        assert Remembered(ts, m, j, k);
        assert ts[m].now <= ts[j].now;
      }
    }
    if h.lastAt > 0.0 {
      if ts[j].op == FinishRead(k) {
        assert Remembered(ts, j, j + 1, k);
      } else {
        var m: nat :| Remembered(ts, m, j, k) && g.lastAt == ts[m].now;
        assert Remembered(ts, m, j + 1, k);
      }
    }
  }

  lemma PermitsStayHeld(g: Gate, c: Cache, ts: seq<Timed>, i: nat, j: nat, k: Kind)
    requires Clocked(ts) && j < |ts| && HoldsPermit(g, c, ts, j, k) && UnderWay(c, ts, i, j + 1, k)
    requires g == Part(After(c, ts[..j]), k).gate
    ensures MoveGate(g, ts[j], k).inFlightAt >= ts[i].now || ts[j].now - ts[i].now > 60.0
  {
    if i < j {
      assert UnderWay(c, ts, i, j, k);
      assert ts[i].now <= ts[j - 1].now <= ts[j].now;
    }
  }

  lemma HeldIsUnderWay(g: Gate, c: Cache, ts: seq<Timed>, j: nat, k: Kind) returns (i: nat)
    requires j < |ts| && HoldsPermit(g, c, ts, j, k) && g == Part(After(c, ts[..j]), k).gate
    requires MoveGate(g, ts[j], k).inFlightAt > 0.0
    ensures UnderWay(c, ts, i, j + 1, k) && MoveGate(g, ts[j], k).inFlightAt == ts[i].now
  {
    if ts[j].op == BeginRead(k) && Begin(g, ts[j].now).0 == Permit {
      i := j;
    } else {
      i :| UnderWay(c, ts, i, j, k) && g.inFlightAt == ts[i].now;
    }
  }

  lemma PermitIsHeld(g: Gate, c: Cache, ts: seq<Timed>, j: nat, k: Kind)
    requires Clocked(ts) && j < |ts| && HoldsPermit(g, c, ts, j, k) && g == Part(After(c, ts[..j]), k).gate
    ensures HoldsPermit(MoveGate(g, ts[j], k), c, ts, j + 1, k)
  {
    var h := MoveGate(g, ts[j], k);
    forall i: nat | UnderWay(c, ts, i, j + 1, k)
      ensures h.inFlightAt >= ts[i].now || ts[j].now - ts[i].now > 60.0
    {
      PermitsStayHeld(g, c, ts, i, j, k);
    }
    if h.inFlightAt > 0.0 {
      var i := HeldIsUnderWay(g, c, ts, j, k);
    }
  }

  lemma {:induction false} GateHolds(c: Cache, ts: seq<Timed>, j: nat, k: Kind)
    requires Clocked(ts) && Part(c, k).gate == Gate(0.0, 0.0) && j <= |ts|
    ensures HoldsFinish(Part(After(c, ts[..j]), k).gate, ts, j, k)
    ensures HoldsPermit(Part(After(c, ts[..j]), k).gate, c, ts, j, k)
  {
    if j > 0 {
      GateHolds(c, ts, j - 1, k);
      var before := After(c, ts[..j - 1]);
      assert ts[..j][..j - 1] == ts[..j - 1];
      StepMovesGate(before, ts[j - 1], k);
      FinishIsHeld(Part(before, k).gate, ts, j - 1, k);
      PermitIsHeld(Part(before, k).gate, c, ts, j - 1, k);
    }
  }

  /**
   * Whatever happened since the cache was made, a read is answered as in flight exactly when one of its
   * kind that began within 60 s is under way, as throttled exactly when none is but one finished within
   * 10 s and is remembered, and is permitted in every other case.
   */
  lemma ReadAnsweredExactly(c: Cache, ts: seq<Timed>, j: nat, k: Kind)
    requires Clocked(ts) && Part(c, k).gate == Gate(0.0, 0.0) && j < |ts|
    ensures
      (var answer := Begin(Part(After(c, ts[..j]), k).gate, ts[j].now).0;
        && (answer == InFlight <==> Busy(c, ts, j, k))
        && (answer == Throttled <==> !Busy(c, ts, j, k) && Recent(ts, j, k))
        && (answer == Permit <==> !Busy(c, ts, j, k) && !Recent(ts, j, k)))
  {
    GateHolds(c, ts, j, k);
    var g := Part(After(c, ts[..j]), k).gate;
    if g.inFlightAt > 0.0 && ts[j].now - g.inFlightAt <= 60.0 {
      var i: nat :| UnderWay(c, ts, i, j, k) && g.inFlightAt == ts[i].now;
      assert Busy(c, ts, j, k);
    }
    if g.lastAt > 0.0 && ts[j].now - g.lastAt < 10.0 {
      var m: nat :| Remembered(ts, m, j, k) && g.lastAt == ts[m].now;
      assert Recent(ts, j, k);
    }
    if Busy(c, ts, j, k) {
      var i: nat :| UnderWay(c, ts, i, j, k) && ts[j].now - ts[i].now <= 60.0;
      assert ts[j - 1].now <= ts[j].now;
    }
    if Recent(ts, j, k) {
      var m: nat :| Remembered(ts, m, j, k) && ts[j].now - ts[m].now < 10.0;
    }
  }
}
