/** What every column of a cached row holds after any run of updates: the last thing said of it. */
module AccountColumns {
  import opened Wrappers
  import opened AccountRows
  import opened AccountOrders
  import opened AccountNames
  import opened AccountStream

  /** One column of the row under one key: no row, a row without the column, or a value. */
  datatype Cell = NoRow | Blank | Holds(value: Field)

  /** What an update says of one column; `gone` when it ends the row. */
  datatype Said<K> = Said(key: K, gone: bool, value: Option<Field>)

  predicate SaysSomething(value: Option<Field>) {
    value.Some? && value.value != Null && value.value != Text("")
  }

  /**
   * The last value said of the column since the row appeared, null and empty ones aside; what was there
   * before if none was; a row that appears takes whatever is said, and a row that ends leaves none.
   */
  function LastSaid<K(==)>(before: Cell, says: seq<Said<K>>, k: K): Cell {
    if says == [] then before
    else
      var c, last := LastSaid(before, says[..|says| - 1], k), says[|says| - 1];
      if last.key != k then c
      else if last.gone then NoRow
      else if SaysSomething(last.value) then Holds(last.value.value)
      else if c != NoRow then c
      else if last.value.Some? then Holds(last.value.value)
      else Blank
  }

  function CellOfRow(row: Row, column: string): Cell {
    if column in row then Holds(row[column]) else Blank
  }

  /** The column in the first row under the key. */
  function CellIn<K(==)>(rows: seq<Row>, key: Row -> K, k: K, column: string): Cell {
    if rows == [] then NoRow
    else if key(rows[0]) == k then CellOfRow(rows[0], column)
    else CellIn(rows[1..], key, k, column)
  }

  // ------------------------------------------------------------------ the reading of the definition

  /** No update of this key from `j` on ends the row or says something of the column. */
  ghost predicate SilentFrom<K>(says: seq<Said<K>>, k: K, j: nat) {
    forall m | j <= m < |says| && says[m].key == k :: !says[m].gone && !SaysSomething(says[m].value)
  }

  /** The last update that says something decides; if none does and none ends the row, what was there stays. */
  lemma {:induction false} LastSaidStands<K>(before: Cell, says: seq<Said<K>>, k: K, j: nat)
    requires j <= |says| && SilentFrom(says, k, j)
    requires j == 0 || (says[j - 1].key == k && !says[j - 1].gone && SaysSomething(says[j - 1].value))
    ensures j > 0 ==> LastSaid(before, says, k) == Holds(says[j - 1].value.value)
    ensures j == 0 && before != NoRow ==> LastSaid(before, says, k) == before
    decreases |says|
  {
    if |says| > j {
      var init := says[..|says| - 1];
      assert forall m | j <= m < |init| :: init[m] == says[m];
      assert j > 0 ==> init[j - 1] == says[j - 1];
      LastSaidStands(before, init, k, j);
    }
  }

  // ------------------------------------------------------------------ tables

  function CellAt<K>(t: Table<K>, k: K, column: string): Cell {
    if k in t.rows then CellOfRow(t.rows[k], column) else NoRow
  }

  /** One update of the keyed table, seen in one column of one key. */
  lemma KeyedSays<K>(t: Table<K>, key: K, gone: bool, row: Row, k: K, column: string)
    ensures
      (var said := Said(key, gone, if column in row then Some(row[column]) else None);
        CellAt(ApplyKeyed(t, key, gone, row), k, column) == LastSaid(CellAt(t, k, column), [said], k))
  {
    var said := Said(key, gone, if column in row then Some(row[column]) else None);
    assert [said][..0] == [];
    assert LastSaid(CellAt(t, k, column), [], k) == CellAt(t, k, column);
  }

  lemma SaidOneMore<K>(before: Cell, says: seq<Said<K>>, last: Said<K>, k: K)
    ensures LastSaid(before, says + [last], k) == LastSaid(LastSaid(before, says, k), [last], k)
  {
    assert (says + [last])[..|says|] == says && [last][..0] == [];
    assert LastSaid(LastSaid(before, says, k), [], k) == LastSaid(before, says, k);
  }

  lemma {:induction false} CellFound<K>(rows: seq<Row>, key: Row -> K, k: K, column: string, i: nat)
    requires i < |rows| && key(rows[i]) == k && forall j | 0 <= j < i :: key(rows[j]) != k
    ensures CellIn(rows, key, k, column) == CellOfRow(rows[i], column)
  {
    if i > 0 {
      CellFound(rows[1..], key, k, column, i - 1);
    }
  }

  lemma {:induction false} CellMissing<K>(rows: seq<Row>, key: Row -> K, k: K, column: string)
    requires forall j | 0 <= j < |rows| :: key(rows[j]) != k
    ensures CellIn(rows, key, k, column) == NoRow
  {
    if rows != [] {
      CellMissing(rows[1..], key, k, column);
    }
  }

  lemma RefinesCells<K>(rows: seq<Row>, t: Table<K>, key: Row -> K, k: K, column: string)
    requires Refines(rows, t, key)
    ensures CellIn(rows, key, k, column) == CellAt(t, k, column)
  {
    if k in t.rows {
      var i :| 0 <= i < |t.order| && t.order[i] == k;
      CellFound(rows, key, k, column, i);
    } else {
      CellMissing(rows, key, k, column);
    }
  }

  // ------------------------------------------------------------------ orders

  /** What an order update says of a column. */
  function OrderSays(o: OrderUpdate, column: string): Option<Field> {
    if column == "orderId" then (if o.orderId != 0 then Some(Number(o.orderId)) else None)
    else if column == "clientOrderId" then Some(Text(o.clientId))
    else if column in o.others then Some(o.others[column])
    else None
  }

  function OrdersSay(u: seq<Mention>, us: seq<OrderUpdate>, column: string): seq<Said<nat>> {
    if us == [] then []
    else
      var o := us[|us| - 1];
      OrdersSay(u, us[..|us| - 1], column) + [Said(Label(u, MentionIn(o)), IsTerminal(o), OrderSays(o, column))]
  }

  lemma OrderRowSays(o: OrderUpdate, column: string)
    ensures OrderSays(o, column) == if column in ToRow(o) then Some(ToRow(o)[column]) else None
  {
    ColumnsDiffer();
  }

  lemma {:induction false} OrderTableColumns(u: seq<Mention>, t: Table<nat>, us: seq<OrderUpdate>, k: nat, column: string)
    ensures CellAt(ApplyToTable(u, t, us), k, column) == LastSaid(CellAt(t, k, column), OrdersSay(u, us, column), k)
  {
    if us != [] {
      var init, o := us[..|us| - 1], us[|us| - 1];
      var before, key := ApplyToTable(u, t, init), Label(u, MentionIn(o));
      OrderTableColumns(u, t, init, k, column);
      OrderRowSays(o, column);
      KeyedSays(before, key, IsTerminal(o), ToRow(o), k, column);
      SaidOneMore(CellAt(t, k, column), OrdersSay(u, init, column),
                  Said(key, IsTerminal(o), OrderSays(o, column)), k);
    }
  }

  /**
   * In every run, under transitive naming: each column of each named order in the cache holds the last
   * non-empty value that an update of that order said of it since its row appeared, else the snapshot's.
   */
  lemma OrderColumnsAreLastSaid(u: seq<Mention>, snapshot: seq<Row>, us: seq<OrderUpdate>, k: nat, column: string)
    requires Transitive(u) && UpdatesFrom(u, us)
    requires AllReal(snapshot) && Snapshot(NamedMentions(u), NamedRows(snapshot))
    ensures
      (var v := NamedMentions(u);
        CellIn(NamedRows(ApplyOrders(snapshot, us)), OrderKey(v), k, column)
          == LastSaid(CellIn(NamedRows(snapshot), OrderKey(v), k, column), OrdersSay(v, NamedUpdates(us), column), k))
  {
    var v, named := NamedMentions(u), NamedRows(snapshot);
    NamedMentionsAre(u);
    NamedStayTransitive(u);
    NamedOrdersRefineTable(u, snapshot, us);
    SnapshotRefines(v, named);
    var t := TableOf(v, named);
    RefinesCells(named, t, OrderKey(v), k, column);
    RefinesCells(NamedRows(ApplyOrders(snapshot, us)), ApplyToTable(v, t, NamedUpdates(us)), OrderKey(v), k, column);
    OrderTableColumns(v, t, NamedUpdates(us), k, column);
  }

  // ------------------------------------------------------------------ positions

  /** What a position update says of a column. */
  function PositionSays(p: PositionUpdate, column: string): Option<Field> {
    if column == "symbol" then Some(Text(p.symbol))
    else if column == "positionSide" then Some(Text(p.side))
    else if column in p.others then Some(p.others[column])
    else None
  }

  function PositionsSay(ps: seq<PositionUpdate>, column: string): seq<Said<PositionId>> {
    if ps == [] then []
    else
      var p := ps[|ps| - 1];
      PositionsSay(ps[..|ps| - 1], column) + [Said((Some(p.symbol), Some(p.side)), p.flat, PositionSays(p, column))]
  }

  lemma PositionRowSays(p: PositionUpdate, column: string)
    ensures PositionSays(p, column) == if column in PositionRow(p) then Some(PositionRow(p)[column]) else None
  {
    assert |"symbol"| != |"positionSide"|;
  }

  lemma {:induction false} PositionTableColumns(
    t: Table<PositionId>, ps: seq<PositionUpdate>, k: PositionId, column: string)
    ensures CellAt(PositionTable(t, ps), k, column) == LastSaid(CellAt(t, k, column), PositionsSay(ps, column), k)
  {
    if ps != [] {
      var init, p := ps[..|ps| - 1], ps[|ps| - 1];
      var key: PositionId := (Some(p.symbol), Some(p.side));
      PositionTableColumns(t, init, k, column);
      PositionRowSays(p, column);
      KeyedSays(PositionTable(t, init), key, p.flat, PositionRow(p), k, column);
      SaidOneMore(CellAt(t, k, column), PositionsSay(init, column), Said(key, p.flat, PositionSays(p, column)), k);
    }
  }

  /** The same of every position, by symbol and side, from any snapshot that names each at most once. */
  lemma PositionColumnsAreLastSaid(
    snapshot: seq<Row>, t: Table<PositionId>, ps: seq<PositionUpdate>, k: PositionId, column: string)
    requires Refines(snapshot, t, PositionKey())
    ensures CellIn(ApplyPositions(snapshot, ps), PositionKey(), k, column)
         == LastSaid(CellIn(snapshot, PositionKey(), k, column), PositionsSay(ps, column), k)
  {
    PositionsRefineTable(snapshot, t, ps);
    RefinesCells(snapshot, t, PositionKey(), k, column);
    RefinesCells(ApplyPositions(snapshot, ps), PositionTable(t, ps), PositionKey(), k, column);
    PositionTableColumns(t, ps, k, column);
  }

  // ------------------------------------------------------------------ the order of rows

  /** The row under `a` is there, and none under `b` stands before it. */
  ghost predicate Before<K>(keys: seq<K>, a: K, b: K) {
    a in keys && forall i, j | 0 <= i < |keys| && 0 <= j < |keys| && keys[i] == a && keys[j] == b :: i < j
  }

  ghost predicate Distinct<K>(keys: seq<K>) {
    forall i, j | 0 <= i < j < |keys| :: keys[i] != keys[j]
  }

  /** The order lists the rows' keys, each once. */
  ghost predicate Kept<K>(t: Table<K>) {
    Distinct(t.order) && (forall k | k in t.order :: k in t.rows) && (forall k | k in t.rows :: k in t.order)
  }

  lemma {:induction false} WithoutStaysDistinct<K>(keys: seq<K>, k: K)
    requires Distinct(keys)
    ensures Distinct(Without(keys, k))
  {
    if keys != [] {
      var init, last := keys[..|keys| - 1], keys[|keys| - 1];
      WithoutStaysDistinct(init, k);
      WithoutHolds(init, k, last);
      assert last !in init;
    }
  }

  lemma {:induction false} WithoutKeepsBefore<K>(keys: seq<K>, k: K, a: K, b: K)
    requires Distinct(keys) && Before(keys, a, b) && k != a && a != b
    ensures Before(Without(keys, k), a, b)
  {
    var init, last := keys[..|keys| - 1], keys[|keys| - 1];
    assert keys == init + [last];
    WithoutHolds(keys, k, a);
    if last == a {
      WithoutHolds(init, k, b);
      assert b !in init;
      LastAlone(Without(init, k), a, b);
    } else {
      assert Before(init, a, b);
      WithoutKeepsBefore(init, k, a, b);
      if last != k {
        AppendKeepsBefore(Without(init, k), last, a, b);
      }
    }
  }

  lemma LastAlone<K>(keys: seq<K>, a: K, b: K)
    requires b !in keys && a != b
    ensures Before(keys + [a], a, b)
  {
    var all := keys + [a];
    assert all[|keys|] == a && b !in all;
  }

  lemma AppendKeepsBefore<K>(keys: seq<K>, last: K, a: K, b: K)
    requires Before(keys, a, b) && last != a
    ensures Before(keys + [last], a, b)
  {
    var all := keys + [last];
    var i :| 0 <= i < |keys| && keys[i] == a;
    assert all[i] == a;
  }

  lemma KeyedKeeps<K>(t: Table<K>, key: K, gone: bool, row: Row)
    requires Kept(t)
    ensures Kept(ApplyKeyed(t, key, gone, row))
  {
    if gone {
      WithoutStaysDistinct(t.order, key);
      forall k | k in Without(t.order, key) ensures k in t.rows - {key} {
        WithoutHolds(t.order, key, k);
      }
      forall k | k in t.rows - {key} ensures k in Without(t.order, key) {
        WithoutHolds(t.order, key, k);
      }
    } else if key !in t.rows {
      var all := t.order + [key];
      assert all[|t.order|] == key;
      assert forall i | 0 <= i < |t.order| :: all[i] == t.order[i] && t.order[i] in t.rows;
      forall k | k in t.rows[key := row] ensures k in all {
        assert k == key || k in t.order;
      }
    }
  }

  /** An update that does not end `a` leaves it before `b`. */
  lemma KeyedKeepsBefore<K>(t: Table<K>, key: K, gone: bool, row: Row, a: K, b: K)
    requires Kept(t) && Before(t.order, a, b) && a != b && !(key == a && gone)
    ensures Before(ApplyKeyed(t, key, gone, row).order, a, b)
  {
    if gone {
      WithoutKeepsBefore(t.order, key, a, b);
    } else if key !in t.rows {
      assert a in t.rows;
      AppendKeepsBefore(t.order, key, a, b);
    }
  }

  function Keys<K>(rows: seq<Row>, key: Row -> K): (r: seq<K>)
    ensures |r| == |rows| && forall i | 0 <= i < |r| :: r[i] == key(rows[i])
  {
    seq(|rows|, i requires 0 <= i < |rows| => key(rows[i]))
  }

  lemma RefinesKeys<K>(rows: seq<Row>, t: Table<K>, key: Row -> K)
    requires Refines(rows, t, key)
    ensures Keys(rows, key) == t.order && Kept(t)
  {
    forall k | k in t.order ensures k in t.rows {
      var i :| 0 <= i < |t.order| && t.order[i] == k;
    }
  }

  lemma {:induction false} OrderTableKeepsBefore(u: seq<Mention>, t: Table<nat>, us: seq<OrderUpdate>, n: nat, a: nat, b: nat)
    requires n <= |us| && a != b && Kept(t) && Before(ApplyToTable(u, t, us[..n]).order, a, b)
    requires forall m | n <= m < |us| && IsTerminal(us[m]) :: Label(u, MentionIn(us[m])) != a
    ensures Before(ApplyToTable(u, t, us).order, a, b)
    decreases |us|
  {
    if n < |us| {
      var init := us[..|us| - 1];
      assert init[..n] == us[..n] && forall m | n <= m < |init| :: init[m] == us[m];
      OrderTableKeepsBefore(u, t, init, n, a, b);
      OrderTableKept(u, t, init);
      var o := us[|us| - 1];
      KeyedKeepsBefore(ApplyToTable(u, t, init), Label(u, MentionIn(o)), IsTerminal(o), ToRow(o), a, b);
    } else {
      assert us[..n] == us;
    }
  }

  lemma {:induction false} OrderTableKept(u: seq<Mention>, t: Table<nat>, us: seq<OrderUpdate>)
    requires Kept(t)
    ensures Kept(ApplyToTable(u, t, us))
  {
    if us != [] {
      var o := us[|us| - 1];
      OrderTableKept(u, t, us[..|us| - 1]);
      KeyedKeeps(ApplyToTable(u, t, us[..|us| - 1]), Label(u, MentionIn(o)), IsTerminal(o), ToRow(o));
    }
  }

  /**
   * Arrival order: once order `a` is in the cache with `b` behind it or not there, `b` stays behind it
   * through every run until an update ends `a`.
   */
  lemma OrdersStayInOrder(u: seq<Mention>, snapshot: seq<Row>, us: seq<OrderUpdate>, n: nat, a: nat, b: nat)
    requires AllNamed(u) && Transitive(u) && Snapshot(u, snapshot) && UpdatesFrom(u, us) && n <= |us| && a != b
    requires Before(Keys(ApplyOrders(snapshot, us[..n]), OrderKey(u)), a, b)
    requires forall m | n <= m < |us| && IsTerminal(us[m]) :: Label(u, MentionIn(us[m])) != a
    ensures Before(Keys(ApplyOrders(snapshot, us), OrderKey(u)), a, b)
  {
    var t, key := TableOf(u, snapshot), OrderKey(u);
    SnapshotRefines(u, snapshot);
    RefinesKeys(snapshot, t, key);
    OrdersRefineTable(u, snapshot, us[..n]);
    OrdersRefineTable(u, snapshot, us);
    RefinesKeys(ApplyOrders(snapshot, us[..n]), ApplyToTable(u, t, us[..n]), key);
    RefinesKeys(ApplyOrders(snapshot, us), ApplyToTable(u, t, us), key);
    OrderTableKeepsBefore(u, t, us, n, a, b);
  }

  // ------------------------------------------------------------------ from the last snapshot on

  /** The order updates of one step. */
  function OrderUpdateOf(t: Timed): seq<OrderUpdate> {
    match t.op case Arrival(OrderTradeUpdate(Some(o))) => [o] case _ => []
  }

  /** The order updates that arrive, in order. */
  function OrderUpdates(ts: seq<Timed>): seq<OrderUpdate> {
    if ts == [] then [] else OrderUpdates(ts[..|ts| - 1]) + OrderUpdateOf(ts[|ts| - 1])
  }

  function PositionUpdatesOf(t: Timed): seq<PositionUpdate> {
    match t.op case Arrival(AccountUpdate(ps)) => ps case _ => []
  }

  /** The position updates that arrive, in order, those of one event together. */
  function PositionUpdates(ts: seq<Timed>): seq<PositionUpdate> {
    if ts == [] then [] else PositionUpdates(ts[..|ts| - 1]) + PositionUpdatesOf(ts[|ts| - 1])
  }

  lemma {:induction false} OrdersOnTop(rows: seq<Row>, us: seq<OrderUpdate>, more: seq<OrderUpdate>)
    ensures ApplyOrders(rows, us + more) == ApplyOrders(ApplyOrders(rows, us), more)
  {
    if more == [] {
      assert us + more == us;
    } else {
      OrdersOnTop(rows, us, more[..|more| - 1]);
      assert (us + more)[..|us + more| - 1] == us + more[..|more| - 1];
    }
  }

  lemma {:induction false} PositionsOnTop(rows: seq<Row>, ps: seq<PositionUpdate>, more: seq<PositionUpdate>)
    ensures ApplyPositions(rows, ps + more) == ApplyPositions(ApplyPositions(rows, ps), more)
  {
    if more == [] {
      assert ps + more == ps;
    } else {
      PositionsOnTop(rows, ps, more[..|more| - 1]);
      assert (ps + more)[..|ps + more| - 1] == ps + more[..|more| - 1];
    }
  }

  lemma StepOnOrders(c: Cache, t: Timed)
    ensures !Replaces(t.op, Orders) ==> Step(c, t).orders.rows == ApplyOrders(c.orders.rows, OrderUpdateOf(t))
  {
    if t.op.Arrival? && t.op.event.OrderTradeUpdate? && t.op.event.order.Some? {
      assert [t.op.event.order.value][..0] == [];
    }
  }

  lemma StepOnPositions(c: Cache, t: Timed)
    ensures !Replaces(t.op, Positions) ==>
      Step(c, t).positions.rows == ApplyPositions(c.positions.rows, PositionUpdatesOf(t))
  {
  }

  lemma {:induction false} AfterBoth(c: Cache, a: seq<Timed>, b: seq<Timed>)
    ensures After(c, a + b) == After(After(c, a), b)
  {
    if b == [] {
      assert a + b == a;
    } else {
      AfterBoth(c, a, b[..|b| - 1]);
      assert (a + b)[..|a + b| - 1] == a + b[..|b| - 1];
    }
  }

  ghost predicate Unreplaced(ts: seq<Timed>, k: Kind) {
    forall m | 0 <= m < |ts| :: !Replaces(ts[m].op, k)
  }

  lemma {:induction false} UpdatesOnOrders(c: Cache, ts: seq<Timed>)
    requires Unreplaced(ts, Orders)
    ensures After(c, ts).orders.rows == ApplyOrders(c.orders.rows, OrderUpdates(ts))
  {
    if ts != [] {
      var init, last := ts[..|ts| - 1], ts[|ts| - 1];
      UpdatesOnOrders(c, init);
      StepOnOrders(After(c, init), last);
      OrdersOnTop(c.orders.rows, OrderUpdates(init), OrderUpdateOf(last));
    }
  }

  lemma {:induction false} UpdatesOnPositions(c: Cache, ts: seq<Timed>)
    requires Unreplaced(ts, Positions)
    ensures After(c, ts).positions.rows == ApplyPositions(c.positions.rows, PositionUpdates(ts))
  {
    if ts != [] {
      var init, last := ts[..|ts| - 1], ts[|ts| - 1];
      UpdatesOnPositions(c, init);
      StepOnPositions(After(c, init), last);
      PositionsOnTop(c.positions.rows, PositionUpdates(init), PositionUpdatesOf(last));
    }
  }

  /** In every run the cached orders are the last snapshot with the order updates since, whatever else happened. */
  lemma OrdersSinceSnapshot(c: Cache, before: seq<Timed>, rows: seq<Row>, now: real, since: seq<Timed>)
    requires Unreplaced(since, Orders)
    ensures After(c, before + [Timed(ReplaceOrders(rows), now)] + since).orders.rows == ApplyOrders(rows, OrderUpdates(since))
  {
    var snapshot := Timed(ReplaceOrders(rows), now);
    AfterBoth(c, before + [snapshot], since);
    AfterAppend(c, before, snapshot);
    UpdatesOnOrders(After(c, before + [snapshot]), since);
  }

  /** The same of positions. */
  lemma PositionsSinceSnapshot(c: Cache, before: seq<Timed>, rows: seq<Row>, now: real, since: seq<Timed>)
    requires Unreplaced(since, Positions)
    ensures After(c, before + [Timed(ReplacePositions(rows), now)] + since).positions.rows
         == ApplyPositions(rows, PositionUpdates(since))
  {
    var snapshot := Timed(ReplacePositions(rows), now);
    AfterBoth(c, before + [snapshot], since);
    AfterAppend(c, before, snapshot);
    UpdatesOnPositions(After(c, before + [snapshot]), since);
  }

  /** The cache takes the stream for connected exactly as last reported. */
  lemma {:induction false} ConnectedAsReported(c: Cache, ts: seq<Timed>, i: nat, j: nat, up: bool)
    requires i < j <= |ts| && ts[i].op == Connection(up)
    requires forall m | i < m < j :: !ts[m].op.Connection?
    ensures After(c, ts[..j]).connected == up
  {
    assert ts[..j][..j - 1] == ts[..j - 1];
    if j > i + 1 {
      ConnectedAsReported(c, ts, i, j - 1, up);
    }
  }
}
