/** The account read cache: stream events, snapshots, freshness and the throttle on REST reads. */
module AccountStream {
  import opened Wrappers
  import opened AccountRows
  import opened AccountOrders

  const STALE_AFTER: real := 600.0
  const REST_FALLBACK: real := 10.0
  const IN_FLIGHT_LIMIT: real := 60.0

  // ------------------------------------------------------------------ position updates

  type PositionColumns = m: map<string, Field> | "symbol" !in m && "positionSide" !in m witness map[]

  /** `flat`: the amount reads as zero, or does not read as a number. */
  datatype PositionUpdate = PositionUpdate(symbol: string, side: string, flat: bool, others: PositionColumns)

  function PositionRow(p: PositionUpdate): Row {
    p.others["symbol" := Text(p.symbol)]["positionSide" := Text(p.side)]
  }

  function SamePosition(symbol: string, side: string): Row -> bool {
    row => TextOf(row, "symbol") == Some(symbol) && TextOf(row, "positionSide") == Some(side)
  }

  function ApplyPosition(rows: seq<Row>, p: PositionUpdate): seq<Row> {
    ApplyRow(rows, SamePosition(p.symbol, p.side), p.flat, PositionRow(p))
  }

  function ApplyPositions(rows: seq<Row>, ps: seq<PositionUpdate>): seq<Row> {
    if ps == [] then rows else ApplyPosition(ApplyPositions(rows, ps[..|ps| - 1]), ps[|ps| - 1])
  }

  type PositionId = (Option<string>, Option<string>)

  function PositionKey(): Row -> PositionId {
    row => (TextOf(row, "symbol"), TextOf(row, "positionSide"))
  }

  function PositionTable(t: Table<PositionId>, ps: seq<PositionUpdate>): Table<PositionId> {
    if ps == [] then t
    else
      var last := ps[|ps| - 1];
      ApplyKeyed(PositionTable(t, ps[..|ps| - 1]), (Some(last.symbol), Some(last.side)), last.flat, PositionRow(last))
  }

  lemma PositionFits(row: Row, p: PositionUpdate)
    ensures
      (var same, key, k := SamePosition(p.symbol, p.side), PositionKey(), (Some(p.symbol), Some(p.side));
        && (same(row) <==> key(row) == k)
        && key(PositionRow(p)) == k
        && (same(row) ==> key(Merge(row, PositionRow(p))) == k))
  {
    assert |"symbol"| != |"positionSide"|;
  }

  /** The cached positions are the table keyed by symbol and side, for every run of updates. */
  lemma {:induction false} PositionsRefineTable(snapshot: seq<Row>, t: Table<PositionId>, ps: seq<PositionUpdate>)
    requires Refines(snapshot, t, PositionKey())
    ensures Refines(ApplyPositions(snapshot, ps), PositionTable(t, ps), PositionKey())
  {
    if ps != [] {
      var before, p := ps[..|ps| - 1], ps[|ps| - 1];
      PositionsRefineTable(snapshot, t, before);
      var rows, same, key := ApplyPositions(snapshot, before), SamePosition(p.symbol, p.side), PositionKey();
      var k := (Some(p.symbol), Some(p.side));
      forall i | 0 <= i < |rows|
        ensures same(rows[i]) <==> key(rows[i]) == k
        ensures same(rows[i]) ==> key(Merge(rows[i], PositionRow(p))) == k
      {
        PositionFits(rows[i], p);
      }
      PositionFits(map[], p);
      ApplyRefines(rows, PositionTable(t, before), key, same, k, p.flat, PositionRow(p));
    }
  }

  // ------------------------------------------------------------------ the cache as a value

  datatype Kind = Orders | Positions

  datatype Answer = Permit | InFlight | Throttled

  /** When the last read of a kind ended, and when the one under way began; 0 for neither. */
  datatype Gate = Gate(lastAt: real, inFlightAt: real)

  datatype Half = Half(rows: seq<Row>, initialized: bool, reconciledAt: real, gate: Gate)

  datatype Cache = Cache(connected: bool, orders: Half, positions: Half, lastEventAt: real)

  function Part(c: Cache, kind: Kind): Half {
    match kind case Orders => c.orders case Positions => c.positions
  }

  function SetPart(c: Cache, kind: Kind, h: Half): Cache {
    match kind case Orders => c.(orders := h) case Positions => c.(positions := h)
  }

  const EMPTY := Half([], false, 0.0, Gate(0.0, 0.0))

  predicate IsFresh(c: Cache, kind: Kind, now: real) {
    var h := Part(c, kind);
    h.initialized && now - h.reconciledAt <= if c.connected then STALE_AFTER else REST_FALLBACK
  }

  function Begin(g: Gate, now: real): (Answer, Gate) {
    if g.inFlightAt > 0.0 && now - g.inFlightAt <= IN_FLIGHT_LIMIT then (InFlight, g)
    else if g.lastAt > 0.0 && now - g.lastAt < REST_FALLBACK then (Throttled, g.(inFlightAt := 0.0))
    else (Permit, g.(inFlightAt := now))
  }

  datatype StreamEvent =
    | OrderTradeUpdate(order: Option<OrderUpdate>)
    | AccountUpdate(positions: seq<PositionUpdate>)
    | ListenKeyExpired
    | Unknown

  /** An unknown event, or an order event without an order, changes nothing. */
  function ApplyEvent(c: Cache, e: StreamEvent, now: real): Cache {
    match e
    case OrderTradeUpdate(None) => c
    case OrderTradeUpdate(Some(o)) => c.(orders := c.orders.(rows := ApplyOrder(c.orders.rows, o)), lastEventAt := now)
    case AccountUpdate(ps) =>
      c.(positions := c.positions.(rows := ApplyPositions(c.positions.rows, ps)), lastEventAt := now)
    case ListenKeyExpired => c.(lastEventAt := now)
    case Unknown => c
  }

  function Replace(h: Half, rows: seq<Row>, now: real): Half {
    h.(rows := rows, reconciledAt := now, initialized := true)
  }

  function Invalidate(h: Half): Half {
    h.(initialized := false, reconciledAt := 0.0, gate := h.gate.(lastAt := 0.0))
  }

  // ------------------------------------------------------------------ the cache as the code keeps it

  class AccountStreamCache {
    var connected: bool
    var ordersInitialized: bool
    var positionsInitialized: bool
    var orders: seq<Row>
    var positions: seq<Row>
    var ordersReconciledAt: real
    var positionsReconciledAt: real
    var lastEventAt: real
    var lastOrdersRestAt: real
    var lastPositionsRestAt: real
    var ordersRestInFlightAt: real
    var positionsRestInFlightAt: real

    ghost function View(): Cache
      reads this
    {
      Cache(
        connected,
        Half(orders, ordersInitialized, ordersReconciledAt, Gate(lastOrdersRestAt, ordersRestInFlightAt)),
        Half(positions, positionsInitialized, positionsReconciledAt, Gate(lastPositionsRestAt, positionsRestInFlightAt)),
        lastEventAt)
    }

    constructor ()
      ensures View() == Cache(false, EMPTY, EMPTY, 0.0)
    {
      connected, ordersInitialized, positionsInitialized := false, false, false;
      orders, positions := [], [];
      ordersReconciledAt, positionsReconciledAt, lastEventAt := 0.0, 0.0, 0.0;
      lastOrdersRestAt, lastPositionsRestAt := 0.0, 0.0;
      ordersRestInFlightAt, positionsRestInFlightAt := 0.0, 0.0;
    }

    method MarkConnected(up: bool)
      modifies this
      ensures View() == old(View()).(connected := up)
    {
      connected := up;
    }

    method ReplaceOrders(rows: seq<Row>, now: real)
      modifies this
      ensures View() == old(View()).(orders := Replace(old(View()).orders, rows, now))
    {
      orders := rows;
      ordersReconciledAt := now;
      ordersInitialized := true;
    }

    method ReplacePositions(rows: seq<Row>, now: real)
      modifies this
      ensures View() == old(View()).(positions := Replace(old(View()).positions, rows, now))
    {
      positions := rows;
      positionsReconciledAt := now;
      positionsInitialized := true;
    }

    method InvalidateOrders()
      modifies this
      ensures View() == old(View()).(orders := Invalidate(old(View()).orders))
    {
      ordersInitialized := false;
      ordersReconciledAt := 0.0;
      lastOrdersRestAt := 0.0;
    }

    method BeginRestFallback(kind: Kind, now: real) returns (r: Answer)
      modifies this
      ensures
        (var h := Part(old(View()), kind);
          var (answer, gate) := Begin(h.gate, now);
          r == answer && View() == SetPart(old(View()), kind, h.(gate := gate)))
    {
      var last, inFlight := lastOrdersRestAt, ordersRestInFlightAt;
      if kind.Positions? {
        last, inFlight := lastPositionsRestAt, positionsRestInFlightAt;
      }
      if inFlight > 0.0 && now - inFlight <= IN_FLIGHT_LIMIT {
        return InFlight;
      }
      SetInFlight(kind, 0.0);
      if last > 0.0 && now - last < REST_FALLBACK {
        return Throttled;
      }
      SetInFlight(kind, now);
      return Permit;
    }

    /** The write through the reference that the kind selects. */
    method SetInFlight(kind: Kind, at: real)
      modifies this
      ensures
        (var h := Part(old(View()), kind);
          View() == SetPart(old(View()), kind, h.(gate := h.gate.(inFlightAt := at))))
    {
      match kind
      case Orders => ordersRestInFlightAt := at;
      case Positions => positionsRestInFlightAt := at;
    }

    method FinishRestFallback(kind: Kind, now: real)
      modifies this
      ensures View() == SetPart(old(View()), kind, Part(old(View()), kind).(gate := Gate(now, 0.0)))
    {
      match kind {
        case Orders =>
          ordersRestInFlightAt := 0.0;
          lastOrdersRestAt := now;
        case Positions =>
          positionsRestInFlightAt := 0.0;
          lastPositionsRestAt := now;
      }
    }

    method ApplyPositionUpdates(ps: seq<PositionUpdate>)
      modifies this`positions
      ensures positions == ApplyPositions(old(positions), ps)
    {
      for i := 0 to |ps|
        invariant positions == ApplyPositions(old(positions), ps[..i])
      {
        assert ps[..i + 1][..i] == ps[..i];
        positions := UpdateRows(positions, SamePosition(ps[i].symbol, ps[i].side), ps[i].flat, PositionRow(ps[i]));
      }
      assert ps[..|ps|] == ps;
    }

    method HandleEvent(e: StreamEvent, now: real) returns (known: bool)
      modifies this
      ensures View() == ApplyEvent(old(View()), e, now)
      ensures known <==> e != Unknown && e != OrderTradeUpdate(None)
    {
      match e {
        case OrderTradeUpdate(order) =>
          if order.None? {
            return false;
          }
          orders := UpdateRows(
            orders, SameOrder(order.value.orderId, order.value.clientId), IsTerminal(order.value), ToRow(order.value));
        case AccountUpdate(ps) =>
          ApplyPositionUpdates(ps);
        case ListenKeyExpired =>
        case Unknown => return false;
      }
      lastEventAt := now;
      return true;
    }
  }

  /** Drop, merge into or append to the rows, as one event of either kind does. */
  method UpdateRows(rows: seq<Row>, same: Row -> bool, gone: bool, row: Row) returns (r: seq<Row>)
    ensures r == ApplyRow(rows, same, gone, row)
  {
    var at := FirstMatch(rows, same);
    if gone {
      r := Retain(rows, same);
    } else if at < |rows| {
      var merged := MergeNonEmpty(rows[at], row);
      r := rows[at := merged];
    } else {
      r := rows + [row];
    }
  }

  // ------------------------------------------------------------------ runs

  datatype Op =
    | Connection(up: bool)
    | ReplaceOrders(rows: seq<Row>)
    | ReplacePositions(rows: seq<Row>)
    | InvalidateOrders
    | BeginRead(kind: Kind)
    | FinishRead(kind: Kind)
    | Arrival(event: StreamEvent)

  datatype Timed = Timed(op: Op, now: real)

  function Step(c: Cache, t: Timed): Cache {
    match t.op
    case Connection(up) => c.(connected := up)
    case ReplaceOrders(rows) => c.(orders := Replace(c.orders, rows, t.now))
    case ReplacePositions(rows) => c.(positions := Replace(c.positions, rows, t.now))
    case InvalidateOrders => c.(orders := Invalidate(c.orders))
    case BeginRead(k) => SetPart(c, k, Part(c, k).(gate := Begin(Part(c, k).gate, t.now).1))
    case FinishRead(k) => SetPart(c, k, Part(c, k).(gate := Gate(t.now, 0.0)))
    case Arrival(e) => ApplyEvent(c, e, t.now)
  }

  function After(c: Cache, ts: seq<Timed>): Cache {
    if ts == [] then c else Step(After(c, ts[..|ts| - 1]), ts[|ts| - 1])
  }

  /** Positive times that never go back. */
  ghost predicate Clocked(ts: seq<Timed>) {
    && (forall i | 0 <= i < |ts| :: ts[i].now > 0.0)
    && (forall i, j | 0 <= i <= j < |ts| :: ts[i].now <= ts[j].now)
  }

  /** Step `i` asks for a read of this kind and is permitted. */
  ghost predicate Permitted(c: Cache, ts: seq<Timed>, i: nat, k: Kind) {
    i < |ts| && ts[i].op == BeginRead(k) && Begin(Part(After(c, ts[..i]), k).gate, ts[i].now).0 == Permit
  }

  /** The last step in `i + 1 .. j` that finishes a read of this kind, `i` when there is none. */
  function LastFinish(ts: seq<Timed>, k: Kind, i: nat, j: nat): (r: nat)
    requires i < j <= |ts|
    ensures i <= r < j && (r > i ==> ts[r].op == FinishRead(k))
  {
    if j == i + 1 then i else if ts[j - 1].op == FinishRead(k) then j - 1 else LastFinish(ts, k, i, j - 1)
  }

  ghost predicate Invalidated(ts: seq<Timed>, k: Kind, i: nat, j: nat) {
    k == Orders && exists m | i < m < j && m < |ts| :: ts[m].op == InvalidateOrders
  }

  /** How one step moves the gate of a kind. */
  function MoveGate(g: Gate, t: Timed, k: Kind): Gate {
    if t.op == BeginRead(k) then Begin(g, t.now).1
    else if t.op == FinishRead(k) then Gate(t.now, 0.0)
    else if t.op == InvalidateOrders && k == Orders then g.(lastAt := 0.0)
    else g
  }

  lemma StepMovesGate(c: Cache, t: Timed, k: Kind)
    ensures Part(Step(c, t), k).gate == MoveGate(Part(c, k).gate, t, k)
  {
  }

  ghost predicate Remembers(g: Gate, ts: seq<Timed>, i: nat, j: nat, k: Kind)
    requires i < j <= |ts|
  {
    var m := LastFinish(ts, k, i, j);
    if m == i then g.inFlightAt == ts[i].now else g.lastAt == ts[m].now || Invalidated(ts, k, m, j)
  }

  lemma RemembersStep(g: Gate, ts: seq<Timed>, i: nat, j: nat, k: Kind)
    requires Clocked(ts) && i < j < |ts| && ts[j].now - ts[i].now <= IN_FLIGHT_LIMIT
    requires Remembers(g, ts, i, j, k)
    ensures Remembers(MoveGate(g, ts[j], k), ts, i, j + 1, k)
  {
    var m := LastFinish(ts, k, i, j);
    if ts[j].op != FinishRead(k) && m > i {
      if Invalidated(ts, k, m, j) {
        var x :| m < x < j && x < |ts| && ts[x].op == InvalidateOrders;
        assert Invalidated(ts, k, m, j + 1);
      } else if ts[j].op == InvalidateOrders && k == Orders {
        assert Invalidated(ts, k, m, j + 1);
      }
    }
  }

  /** The gate remembers the permit, or the last finish unless an invalidation made it forget. */
  lemma {:induction false} GateRemembers(c: Cache, ts: seq<Timed>, i: nat, j: nat, k: Kind)
    requires Clocked(ts) && Permitted(c, ts, i, k) && i < j <= |ts|
    requires ts[j - 1].now - ts[i].now <= IN_FLIGHT_LIMIT
    ensures Remembers(Part(After(c, ts[..j]), k).gate, ts, i, j, k)
  {
    assert ts[..j][..j - 1] == ts[..j - 1];
    var before := After(c, ts[..j - 1]);
    assert After(c, ts[..j]) == Step(before, ts[j - 1]);
    StepMovesGate(before, ts[j - 1], k);
    if j > i + 1 {
      GateRemembers(c, ts, i, j - 1, k);
      RemembersStep(Part(before, k).gate, ts, i, j - 1, k);
    }
  }

  /**
   * Two permits of a kind are more than 60 s apart, or a read of that kind finished between them, and
   * since the last such finish 10 s passed or (orders only) the cache was invalidated.
   */
  lemma PermitSpacing(c: Cache, ts: seq<Timed>, i: nat, j: nat, k: Kind)
    requires Clocked(ts) && i < j && Permitted(c, ts, i, k) && Permitted(c, ts, j, k)
    ensures
      (var m := LastFinish(ts, k, i, j);
        || ts[j].now - ts[i].now > IN_FLIGHT_LIMIT
        || (m > i && (ts[j].now - ts[m].now >= REST_FALLBACK || Invalidated(ts, k, m, j))))
  {
    if ts[j].now - ts[i].now <= IN_FLIGHT_LIMIT {
      GateRemembers(c, ts, i, j, k);
    }
  }

  predicate Replaces(op: Op, k: Kind) {
    match op case ReplaceOrders(_) => k == Orders case ReplacePositions(_) => k == Positions case _ => false
  }

  lemma {:induction false} StaysUninitialized(c: Cache, ts: seq<Timed>, i: nat, j: nat)
    requires i < j <= |ts| && ts[i].op == InvalidateOrders
    requires forall m | i < m < j :: !Replaces(ts[m].op, Orders)
    ensures !After(c, ts[..j]).orders.initialized
  {
    assert ts[..j][..j - 1] == ts[..j - 1];
    if j > i + 1 {
      StaysUninitialized(c, ts, i, j - 1);
    }
  }

  /** After an invalidation orders are never fresh, at any time and in any connection state, until replaced. */
  lemma NeverFreshUntilReplaced(c: Cache, ts: seq<Timed>, i: nat, j: nat, now: real)
    requires i < j <= |ts| && ts[i].op == InvalidateOrders
    requires forall m | i < m < j :: !Replaces(ts[m].op, Orders)
    ensures !IsFresh(After(c, ts[..j]), Orders, now)
  {
    StaysUninitialized(c, ts, i, j);
  }

  lemma {:induction false} StaysReconciled(c: Cache, ts: seq<Timed>, i: nat, j: nat, k: Kind)
    requires i < j <= |ts| && Replaces(ts[i].op, k)
    requires forall m | i < m < j :: !Replaces(ts[m].op, k) && !(k == Orders && ts[m].op == InvalidateOrders)
    ensures (var h := Part(After(c, ts[..j]), k); h.initialized && h.reconciledAt == ts[i].now)
  {
    assert ts[..j][..j - 1] == ts[..j - 1];
    if j > i + 1 {
      StaysReconciled(c, ts, i, j - 1, k);
    }
  }

  /**
   * After a snapshot, until the next one or an invalidation, a kind is fresh exactly for 600 s while the
   * stream is connected and for 10 s while it is not, whatever events and reads come in between.
   */
  lemma FreshnessIsAge(c: Cache, ts: seq<Timed>, i: nat, j: nat, k: Kind, now: real)
    requires i < j <= |ts| && Replaces(ts[i].op, k)
    requires forall m | i < m < j :: !Replaces(ts[m].op, k) && !(k == Orders && ts[m].op == InvalidateOrders)
    ensures IsFresh(After(c, ts[..j]), k, now)
      <==> now - ts[i].now <= if After(c, ts[..j]).connected then 600.0 else 10.0
  {
    StaysReconciled(c, ts, i, j, k);
  }

  // ------------------------------------------------------------------ the two kinds do not interfere

  predicate Touches(op: Op, k: Kind) {
    match op
    case Connection(_) => false
    case BeginRead(kind) => kind == k
    case FinishRead(kind) => kind == k
    case InvalidateOrders => k == Orders
    case Arrival(OrderTradeUpdate(_)) => k == Orders
    case Arrival(AccountUpdate(_)) => k == Positions
    case Arrival(_) => false
    case _ => Replaces(op, k)
  }

  function OnlyTouching(ts: seq<Timed>, k: Kind): seq<Timed> {
    if ts == [] then []
    else
      var before := OnlyTouching(ts[..|ts| - 1], k);
      if Touches(ts[|ts| - 1].op, k) then before + [ts[|ts| - 1]] else before
  }

  lemma OtherStepsLeaveAlone(c: Cache, t: Timed, k: Kind)
    requires !Touches(t.op, k)
    ensures Part(Step(c, t), k) == Part(c, k)
  {
    match t.op {
      case Arrival(e) => match e { case OrderTradeUpdate(_) => case AccountUpdate(_) => case _ => }
      case _ =>
    }
  }

  lemma OwnStepsSeeOnlyOwn(a: Cache, b: Cache, t: Timed, k: Kind)
    requires Touches(t.op, k) && Part(a, k) == Part(b, k)
    ensures Part(Step(a, t), k) == Part(Step(b, t), k)
  {
    match t.op {
      case Arrival(e) => match e { case OrderTradeUpdate(_) => case AccountUpdate(_) => case _ => }
      case _ =>
    }
  }

  /** What a kind holds depends on its own operations only: leaving out all others changes nothing. */
  lemma {:induction false} KindsDoNotInterfere(c: Cache, ts: seq<Timed>, k: Kind)
    ensures Part(After(c, ts), k) == Part(After(c, OnlyTouching(ts, k)), k)
  {
    if ts != [] {
      var init, last := ts[..|ts| - 1], ts[|ts| - 1];
      KindsDoNotInterfere(c, init, k);
      var own := OnlyTouching(init, k);
      if Touches(last.op, k) {
        OwnStepsSeeOnlyOwn(After(c, init), After(c, own), last, k);
        AfterAppend(c, own, last);
      } else {
        OtherStepsLeaveAlone(After(c, init), last, k);
      }
    }
  }

  lemma AfterAppend(c: Cache, ts: seq<Timed>, t: Timed)
    ensures After(c, ts + [t]) == Step(After(c, ts), t)
  {
    assert (ts + [t])[..|ts|] == ts;
  }
}
