/** Order and position updates on the cached rows, and when the order cache is a table keyed by identity. */
module AccountOrders {
  import opened Wrappers
  import opened AccountRows

  // ------------------------------------------------------------------ order updates

  /** Columns of an update row other than the two identifiers. */
  type Columns = m: map<string, Field> | "orderId" !in m && "clientOrderId" !in m witness map[]

  /** Order id 0 and client id "" mean not known yet. */
  datatype OrderUpdate = OrderUpdate(orderId: int, clientId: string, status: string, others: Columns)

  predicate IsTerminal(u: OrderUpdate) {
    u.status in {"FILLED", "CANCELED", "EXPIRED", "REJECTED", "EXPIRED_IN_MATCH"}
  }

  /** The update as a row; an order id of 0 is left out. */
  function ToRow(u: OrderUpdate): Row {
    var row := u.others["clientOrderId" := Text(u.clientId)];
    if u.orderId != 0 then row["orderId" := Number(u.orderId)] else row
  }

  function RowOrderId(row: Row): Option<int> {
    if "orderId" in row && row["orderId"].Number? then Some(row["orderId"].n) else None
  }

  function TextOf(row: Row, column: string): Option<string> {
    if column in row && row[column].Text? then Some(row[column].s) else None
  }

  function SameOrder(id: int, clientId: string): Row -> bool {
    row => RowOrderId(row) == Some(id) || (clientId != "" && TextOf(row, "clientOrderId") == Some(clientId))
  }

  function ApplyOrder(rows: seq<Row>, u: OrderUpdate): seq<Row> {
    ApplyRow(rows, SameOrder(u.orderId, u.clientId), IsTerminal(u), ToRow(u))
  }

  function ApplyOrders(rows: seq<Row>, us: seq<OrderUpdate>): seq<Row> {
    if us == [] then rows else ApplyOrder(ApplyOrders(rows, us[..|us| - 1]), us[|us| - 1])
  }

  // ------------------------------------------------------------------ who is mentioned

  /** How an order is named; 0 and "" are unknown. */
  datatype Mention = Mention(id: int, clientId: string)

  predicate Same(a: Mention, b: Mention) {
    (a.id != 0 && a.id == b.id) || (a.clientId != "" && a.clientId == b.clientId)
  }

  function Known(a: Mention, b: Mention): Mention {
    Mention(if b.id != 0 then b.id else a.id, if b.clientId != "" then b.clientId else a.clientId)
  }

  function MentionOf(row: Row): Mention {
    Mention(
      match RowOrderId(row) case Some(n) => n case None => 0,
      match TextOf(row, "clientOrderId") case Some(t) => t case None => "")
  }

  function MentionIn(u: OrderUpdate): Mention {
    Mention(u.orderId, u.clientId)
  }

  /** The exchange gives no order the id 0. */
  predicate RealId(row: Row) {
    RowOrderId(row) != Some(0)
  }

  lemma ColumnsDiffer()
    ensures "orderId" != "clientOrderId"
  {
    assert |"orderId"| != |"clientOrderId"|;
  }

  /** What the code matches on, and what a merge makes of a row's names. */
  lemma RowsByMention(row: Row, u: OrderUpdate)
    requires RealId(row)
    ensures SameOrder(u.orderId, u.clientId)(row) <==> Same(MentionOf(row), MentionIn(u))
    ensures MentionOf(ToRow(u)) == MentionIn(u) && RealId(ToRow(u))
    ensures MentionOf(Merge(row, ToRow(u))) == Known(MentionOf(row), MentionIn(u)) && RealId(Merge(row, ToRow(u)))
  {
    ColumnsDiffer();
    var merged := Merge(row, ToRow(u));
    assert RowOrderId(merged) == if u.orderId != 0 then Some(u.orderId) else RowOrderId(row);
    assert TextOf(merged, "clientOrderId") == if u.clientId != "" then Some(u.clientId) else TextOf(row, "clientOrderId");
  }

  // ------------------------------------------------------------------ one identity, one label

  ghost predicate AllNamed(u: seq<Mention>) {
    forall i | 0 <= i < |u| :: u[i].id != 0 || u[i].clientId != ""
  }

  /** Sharing a name is transitive among these mentions. */
  ghost predicate Transitive(u: seq<Mention>) {
    forall i, j, k | 0 <= i < |u| && 0 <= j < |u| && 0 <= k < |u| && Same(u[i], u[j]) && Same(u[j], u[k]) :: Same(u[i], u[k])
  }

  /** The first mention that shares a name with `m`: its identity. */
  function Label(u: seq<Mention>, m: Mention): (r: nat)
    ensures r <= |u| && (r < |u| ==> Same(u[r], m))
    ensures forall k | 0 <= k < r :: !Same(u[k], m)
  {
    if u == [] || Same(u[0], m) then 0 else 1 + Label(u[1..], m)
  }

  lemma LabelIsIdentity(u: seq<Mention>, i: nat, j: nat)
    requires i < |u| && j < |u| && AllNamed(u) && Transitive(u)
    ensures Label(u, u[i]) == Label(u, u[j]) <==> Same(u[i], u[j])
  {
    var a, b := Label(u, u[i]), Label(u, u[j]);
    assert Same(u[i], u[i]) && Same(u[j], u[j]);
    assert a < |u| && b < |u|;
    if a == b {
      assert Same(u[i], u[a]) && Same(u[a], u[j]);
    }
    if Same(u[i], u[j]) {
      assert Same(u[a], u[j]) && Same(u[b], u[i]);
    }
  }

  /** `m` shares names with exactly the mentions `u[i]` does, and each of its names is one of theirs. */
  ghost predicate StandsFor(u: seq<Mention>, m: Mention, i: nat) {
    && i < |u|
    && (forall k | 0 <= k < |u| :: Same(m, u[k]) <==> Same(u[i], u[k]))
    && (m.id != 0 ==> exists k | 0 <= k < |u| :: u[k].id == m.id)
    && (m.clientId != "" ==> exists k | 0 <= k < |u| :: u[k].clientId == m.clientId)
  }

  ghost predicate Among(u: seq<Mention>, m: Mention) {
    exists i: nat :: StandsFor(u, m, i)
  }

  lemma MentionedIsAmong(u: seq<Mention>, i: nat)
    requires i < |u|
    ensures StandsFor(u, u[i], i) && Among(u, u[i])
  {
    assert StandsFor(u, u[i], i);
  }

  lemma LabelOfStandIn(u: seq<Mention>, m: Mention, i: nat)
    requires StandsFor(u, m, i)
    ensures Label(u, m) == Label(u, u[i])
  {
    var a, b := Label(u, m), Label(u, u[i]);
    assert a < |u| ==> Same(u[a], m) && Same(m, u[a]) && Same(u[i], u[a]) && Same(u[a], u[i]);
    assert b < |u| ==> Same(u[b], u[i]) && Same(u[i], u[b]) && Same(m, u[b]) && Same(u[b], m);
  }

  lemma SameAsMention(u: seq<Mention>, m: Mention, j: nat)
    requires AllNamed(u) && Transitive(u) && Among(u, m) && j < |u|
    ensures Same(m, u[j]) <==> Label(u, m) == Label(u, u[j])
  {
    var i: nat :| StandsFor(u, m, i);
    LabelOfStandIn(u, m, i);
    LabelIsIdentity(u, i, j);
  }

  lemma SharingIsOneIdentity(u: seq<Mention>, m: Mention, n: Mention)
    requires AllNamed(u) && Transitive(u) && Among(u, m) && Among(u, n) && Same(m, n)
    ensures Label(u, m) == Label(u, n)
  {
    var i: nat :| StandsFor(u, m, i);
    var j: nat :| StandsFor(u, n, j);
    LabelOfStandIn(u, m, i);
    LabelOfStandIn(u, n, j);
    var k := CommonMention(u, m, n, i);
    assert Same(u[i], u[k]) && Same(u[j], u[k]) && Same(u[k], u[j]);
    LabelIsIdentity(u, i, j);
  }

  /** The name two mentions share is one that some mention in `u` has. */
  lemma CommonMention(u: seq<Mention>, m: Mention, n: Mention, i: nat) returns (k: nat)
    requires StandsFor(u, m, i) && Same(m, n)
    ensures k < |u| && Same(m, u[k]) && Same(n, u[k])
  {
    if m.id != 0 && m.id == n.id {
      k :| 0 <= k < |u| && u[k].id == m.id;
    } else {
      k :| 0 <= k < |u| && u[k].clientId == m.clientId;
    }
  }

  /** Learning more names of the same order does not change which order it is. */
  lemma MergedStandsFor(u: seq<Mention>, m: Mention, j: nat)
    requires AllNamed(u) && Transitive(u) && Among(u, m) && j < |u| && Same(m, u[j])
    ensures StandsFor(u, Known(m, u[j]), j) && Label(u, Known(m, u[j])) == Label(u, u[j])
  {
    var i: nat :| StandsFor(u, m, i);
    var n := Known(m, u[j]);
    assert Same(u[i], u[j]) && Same(u[j], u[i]);
    forall k | 0 <= k < |u| ensures Same(n, u[k]) <==> Same(u[j], u[k]) {
      assert Same(m, u[k]) <==> Same(u[i], u[k]);
      assert Same(u[i], u[k]) <==> Same(u[j], u[k]);
    }
    LabelOfStandIn(u, n, j);
  }

  // ------------------------------------------------------------------ the order cache is a table by identity

  function OrderKey(u: seq<Mention>): Row -> nat {
    row => Label(u, MentionOf(row))
  }

  ghost predicate OrderRow(u: seq<Mention>, row: Row) {
    RealId(row) && Among(u, MentionOf(row))
  }

  function TableOf(u: seq<Mention>, rows: seq<Row>): Table<nat> {
    if rows == [] then Table([], map[])
    else
      var t, row := TableOf(u, rows[..|rows| - 1]), rows[|rows| - 1];
      Table(t.order + [OrderKey(u)(row)], t.rows[OrderKey(u)(row) := row])
  }

  function ApplyToTable(u: seq<Mention>, t: Table<nat>, us: seq<OrderUpdate>): Table<nat> {
    if us == [] then t
    else
      var last := us[|us| - 1];
      ApplyKeyed(ApplyToTable(u, t, us[..|us| - 1]), Label(u, MentionIn(last)), IsTerminal(last), ToRow(last))
  }

  /** A snapshot names real orders out of `u`, each once. */
  ghost predicate Snapshot(u: seq<Mention>, rows: seq<Row>) {
    && (forall i | 0 <= i < |rows| :: RealId(rows[i]) && MentionOf(rows[i]) in u)
    && (forall i, j | 0 <= i < j < |rows| :: !Same(MentionOf(rows[i]), MentionOf(rows[j])))
  }

  ghost predicate UpdatesFrom(u: seq<Mention>, us: seq<OrderUpdate>) {
    forall i | 0 <= i < |us| :: MentionIn(us[i]) in u
  }

  /** No two rows name the same order. */
  ghost predicate NoTwoShare(rows: seq<Row>) {
    forall i, j | 0 <= i < j < |rows| :: !Same(MentionOf(rows[i]), MentionOf(rows[j]))
  }

  ghost predicate OrderRows(u: seq<Mention>, rows: seq<Row>) {
    forall i | 0 <= i < |rows| :: OrderRow(u, rows[i])
  }

  lemma SnapshotRows(u: seq<Mention>, rows: seq<Row>)
    requires Snapshot(u, rows)
    ensures OrderRows(u, rows)
  {
    forall i | 0 <= i < |rows| ensures OrderRow(u, rows[i]) {
      var j :| 0 <= j < |u| && u[j] == MentionOf(rows[i]);
      MentionedIsAmong(u, j);
    }
  }

  lemma SnapshotLabelsDiffer(u: seq<Mention>, rows: seq<Row>, i: nat, j: nat)
    requires AllNamed(u) && Transitive(u) && Snapshot(u, rows) && i < j < |rows|
    ensures OrderKey(u)(rows[i]) != OrderKey(u)(rows[j])
  {
    assert MentionOf(rows[i]) in u && MentionOf(rows[j]) in u;
    var a :| 0 <= a < |u| && u[a] == MentionOf(rows[i]);
    var b :| 0 <= b < |u| && u[b] == MentionOf(rows[j]);
    LabelIsIdentity(u, a, b);
  }

  lemma SnapshotPrefix(u: seq<Mention>, rows: seq<Row>)
    requires AllNamed(u) && Transitive(u) && Snapshot(u, rows) && rows != []
    ensures Snapshot(u, rows[..|rows| - 1])
    ensures var init := rows[..|rows| - 1];
      forall i | 0 <= i < |init| :: OrderKey(u)(init[i]) != OrderKey(u)(rows[|rows| - 1])
  {
    var init := rows[..|rows| - 1];
    assert forall i | 0 <= i < |init| :: init[i] == rows[i];
    forall i | 0 <= i < |init| ensures OrderKey(u)(init[i]) != OrderKey(u)(rows[|rows| - 1]) {
      SnapshotLabelsDiffer(u, rows, i, |rows| - 1);
    }
  }

  lemma TableOfLast(u: seq<Mention>, init: seq<Row>, row: Row)
    ensures
      (var t, k := TableOf(u, init), OrderKey(u)(row);
        TableOf(u, init + [row]) == Table(t.order + [k], t.rows[k := row]))
  {
    assert (init + [row])[..|init|] == init;
  }

  lemma {:induction false} SnapshotRefines(u: seq<Mention>, rows: seq<Row>)
    requires AllNamed(u) && Transitive(u) && Snapshot(u, rows)
    ensures Refines(rows, TableOf(u, rows), OrderKey(u))
  {
    if rows != [] {
      var init, row := rows[..|rows| - 1], rows[|rows| - 1];
      SnapshotPrefix(u, rows);
      SnapshotRefines(u, init);
      AppendRefines(init, TableOf(u, init), OrderKey(u), row);
      TableOfLast(u, init, row);
      assert rows == init + [row];
    }
  }

  lemma AppendRefines<K>(rows: seq<Row>, t: Table<K>, key: Row -> K, row: Row)
    requires Refines(rows, t, key) && forall i | 0 <= i < |rows| :: key(rows[i]) != key(row)
    ensures Refines(rows + [row], Table(t.order + [key(row)], t.rows[key(row) := row]), key)
  {
  }

  lemma MergedRowKept(u: seq<Mention>, row: Row, o: OrderUpdate)
    requires AllNamed(u) && Transitive(u) && OrderRow(u, row) && MentionIn(o) in u
    ensures SameOrder(o.orderId, o.clientId)(row) <==> OrderKey(u)(row) == Label(u, MentionIn(o))
    ensures SameOrder(o.orderId, o.clientId)(row) ==>
      OrderRow(u, Merge(row, ToRow(o))) && OrderKey(u)(Merge(row, ToRow(o))) == Label(u, MentionIn(o))
    ensures OrderRow(u, ToRow(o)) && OrderKey(u)(ToRow(o)) == Label(u, MentionIn(o))
  {
    var j :| 0 <= j < |u| && u[j] == MentionIn(o);
    RowsByMention(row, o);
    SameAsMention(u, MentionOf(row), j);
    MentionedIsAmong(u, j);
    if Same(MentionOf(row), u[j]) {
      MergedStandsFor(u, MentionOf(row), j);
    }
  }

  lemma {:induction false} RetainHolds(rows: seq<Row>, same: Row -> bool)
    ensures forall i | 0 <= i < |Retain(rows, same)| :: Retain(rows, same)[i] in rows
  {
    if rows != [] {
      RetainHolds(rows[..|rows| - 1], same);
    }
  }

  lemma OrderStepRows(u: seq<Mention>, rows: seq<Row>, o: OrderUpdate)
    requires OrderRows(u, rows) && OrderRow(u, ToRow(o))
    requires forall i | 0 <= i < |rows| :: MergedFits(u, rows[i], o)
    ensures OrderRows(u, ApplyOrder(rows, o))
  {
    var after := ApplyOrder(rows, o);
    RetainHolds(rows, SameOrder(o.orderId, o.clientId));
    forall i | 0 <= i < |after| ensures OrderRow(u, after[i]) {
      if IsTerminal(o) {
        var j :| 0 <= j < |rows| && rows[j] == after[i];
      }
    }
  }

  lemma OrderStep(u: seq<Mention>, rows: seq<Row>, t: Table<nat>, o: OrderUpdate)
    requires AllNamed(u) && Transitive(u) && MentionIn(o) in u
    requires OrderRows(u, rows) && Refines(rows, t, OrderKey(u))
    ensures OrderRows(u, ApplyOrder(rows, o))
    ensures Refines(ApplyOrder(rows, o), ApplyKeyed(t, Label(u, MentionIn(o)), IsTerminal(o), ToRow(o)), OrderKey(u))
  {
    forall i | 0 <= i < |rows| ensures MergedFits(u, rows[i], o) {
      MergedRowKept(u, rows[i], o);
    }
    NewRowFits(u, o);
    OrderStepRows(u, rows, o);
    var same, key, k := SameOrder(o.orderId, o.clientId), OrderKey(u), Label(u, MentionIn(o));
    forall i | 0 <= i < |rows|
      ensures same(rows[i]) <==> key(rows[i]) == k
      ensures same(rows[i]) ==> key(Merge(rows[i], ToRow(o))) == k
    {
      assert MergedFits(u, rows[i], o);
    }
    ApplyRefines(rows, t, key, same, k, IsTerminal(o), ToRow(o));
  }

  ghost predicate MergedFits(u: seq<Mention>, row: Row, o: OrderUpdate) {
    && (SameOrder(o.orderId, o.clientId)(row) <==> OrderKey(u)(row) == Label(u, MentionIn(o)))
    && (SameOrder(o.orderId, o.clientId)(row) ==>
      OrderRow(u, Merge(row, ToRow(o))) && OrderKey(u)(Merge(row, ToRow(o))) == Label(u, MentionIn(o)))
  }

  lemma NewRowFits(u: seq<Mention>, o: OrderUpdate)
    requires MentionIn(o) in u
    ensures OrderRow(u, ToRow(o)) && OrderKey(u)(ToRow(o)) == Label(u, MentionIn(o))
  {
    var j :| 0 <= j < |u| && u[j] == MentionIn(o);
    ColumnsDiffer();
    MentionedIsAmong(u, j);
    assert MentionOf(ToRow(o)) == u[j];
  }

  /**
   * While sharing a name is transitive among all mentions, the cached orders are at all times exactly
   * the table keyed by identity, in arrival order, and no two rows name the same order.
   */
  lemma {:induction false} OrdersRefineTable(u: seq<Mention>, snapshot: seq<Row>, us: seq<OrderUpdate>)
    requires AllNamed(u) && Transitive(u) && Snapshot(u, snapshot) && UpdatesFrom(u, us)
    ensures Refines(ApplyOrders(snapshot, us), ApplyToTable(u, TableOf(u, snapshot), us), OrderKey(u))
    ensures OrderRows(u, ApplyOrders(snapshot, us))
    ensures NoTwoShare(ApplyOrders(snapshot, us))
  {
    var rows, t := ApplyOrders(snapshot, us), ApplyToTable(u, TableOf(u, snapshot), us);
    if us == [] {
      SnapshotRows(u, snapshot);
      SnapshotRefines(u, snapshot);
    } else {
      OrdersRefineTable(u, snapshot, us[..|us| - 1]);
      OrderStep(u, ApplyOrders(snapshot, us[..|us| - 1]), ApplyToTable(u, TableOf(u, snapshot), us[..|us| - 1]), us[|us| - 1]);
    }
    forall i, j | 0 <= i < j < |rows| ensures !Same(MentionOf(rows[i]), MentionOf(rows[j])) {
      if Same(MentionOf(rows[i]), MentionOf(rows[j])) {
        SharingIsOneIdentity(u, MentionOf(rows[i]), MentionOf(rows[j]));
        assert false;
      }
    }
  }

  // ------------------------------------------------------------------ the condition is exact

  function Naming(m: Mention): OrderUpdate {
    OrderUpdate(m.id, m.clientId, "NEW", map[])
  }

  lemma ThreeUpdates(a: OrderUpdate, b: OrderUpdate, c: OrderUpdate)
    ensures ApplyOrders([], [a, b, c]) == ApplyOrder(ApplyOrder(ApplyOrder([], a), b), c)
  {
    assert [a, b, c][..2] == [a, b] && [a, b][..1] == [a] && [a][..0] == [];
    assert ApplyOrders([], [a]) == ApplyOrder([], a);
    assert ApplyOrders([], [a, b]) == ApplyOrder(ApplyOrders([], [a]), b);
  }

  /** What an update that ends nothing does to rows of which at most the first is the same order. */
  lemma NamingApplies(rows: seq<Row>, m: Mention)
    requires forall i | 0 <= i < |rows| :: RealId(rows[i]) && (i > 0 ==> !Same(MentionOf(rows[i]), m))
    ensures MentionOf(ToRow(Naming(m))) == m && RealId(ToRow(Naming(m)))
    ensures rows != [] && Same(MentionOf(rows[0]), m) ==>
      ApplyOrder(rows, Naming(m)) == rows[0 := Merge(rows[0], ToRow(Naming(m)))]
    ensures rows == [] || !Same(MentionOf(rows[0]), m) ==> ApplyOrder(rows, Naming(m)) == rows + [ToRow(Naming(m))]
  {
    assert !IsTerminal(Naming(m)) by { assert |"NEW"| == 3; }
    RowsByMention(map[], Naming(m));
    forall i | 0 <= i < |rows| ensures SameOrder(m.id, m.clientId)(rows[i]) <==> Same(MentionOf(rows[i]), m) {
      RowsByMention(rows[i], Naming(m));
    }
  }

  /** When `b` joins `a` and `c`, which share no name, the cache holds one order in two rows. */
  lemma JoiningSplits(a: Mention, b: Mention, c: Mention)
    requires Same(a, b) && Same(b, c) && !Same(a, c)
    ensures !NoTwoShare(ApplyOrders([], [Naming(a), Naming(c), Naming(b)]))
  {
    ThreeUpdates(Naming(a), Naming(c), Naming(b));
    TwoNamings(a, c);
    SplitRows(ToRow(Naming(a)), ToRow(Naming(c)), a, b, c);
  }

  lemma TwoNamings(a: Mention, c: Mention)
    requires !Same(a, c)
    ensures ApplyOrder(ApplyOrder([], Naming(a)), Naming(c)) == [ToRow(Naming(a)), ToRow(Naming(c))]
    ensures MentionOf(ToRow(Naming(a))) == a && RealId(ToRow(Naming(a)))
    ensures MentionOf(ToRow(Naming(c))) == c && RealId(ToRow(Naming(c)))
  {
    var ra := ToRow(Naming(a));
    NamingApplies([], a);
    assert ApplyOrder([], Naming(a)) == [ra];
    NamingApplies([], c);
    NamingApplies([ra], c);
  }

  lemma SplitRows(ra: Row, rc: Row, a: Mention, b: Mention, c: Mention)
    requires Same(a, b) && Same(b, c) && !Same(a, c)
    requires MentionOf(ra) == a && RealId(ra) && MentionOf(rc) == c && RealId(rc)
    ensures !NoTwoShare(ApplyOrder([ra, rc], Naming(b)))
  {
    var merged := Merge(ra, ToRow(Naming(b)));
    RowsByMention(ra, Naming(b));
    assert MentionOf(merged) == Known(a, b) == b;
    var rows := ApplyOrder([ra, rc], Naming(b));
    RowsByMention(rc, Naming(b));
    var same := SameOrder(b.id, b.clientId);
    assert same([ra, rc][0]) && FirstMatch([ra, rc], same) == 0;
    assert !IsTerminal(Naming(b)) by { assert |"NEW"| == 3; }
    assert rows == [ra, rc][0 := merged] && rows[0] == merged && rows[1] == rc;
    assert Same(MentionOf(rows[0]), MentionOf(rows[1]));
  }

  lemma SplittingRun(u: seq<Mention>, i: nat, j: nat, k: nat) returns (us: seq<OrderUpdate>)
    requires i < |u| && j < |u| && k < |u| && Same(u[i], u[j]) && Same(u[j], u[k]) && !Same(u[i], u[k])
    ensures UpdatesFrom(u, us) && !NoTwoShare(ApplyOrders([], us))
  {
    JoiningSplits(u[i], u[j], u[k]);
    us := [Naming(u[i]), Naming(u[k]), Naming(u[j])];
    assert MentionIn(us[0]) == u[i] && MentionIn(us[1]) == u[k] && MentionIn(us[2]) == u[j];
  }

  // ------------------------------------------------------------------ fields only a snapshot has

  /** The update says nothing in this column. */
  predicate SilentOn(o: OrderUpdate, column: string) {
    var row := ToRow(o);
    column in row ==> Empty(row[column])
  }

  lemma {:induction false} TableKeepsColumn(u: seq<Mention>, t: Table<nat>, us: seq<OrderUpdate>, k: nat, column: string)
    requires k in t.rows && column in t.rows[k]
    requires forall i | 0 <= i < |us| :: SilentOn(us[i], column)
    requires forall i | 0 <= i < |us| :: IsTerminal(us[i]) ==> Label(u, MentionIn(us[i])) != k
    ensures
      (var after := ApplyToTable(u, t, us);
        k in after.rows && column in after.rows[k] && after.rows[k][column] == t.rows[k][column])
  {
    if us != [] {
      TableKeepsColumn(u, t, us[..|us| - 1], k, column);
      assert SilentOn(us[|us| - 1], column);
    }
  }

  ghost predicate HasRow(rows: seq<Row>, key: Row -> nat, k: nat, column: string, value: Field) {
    exists i | 0 <= i < |rows| :: key(rows[i]) == k && column in rows[i] && rows[i][column] == value
  }

  /** A column only the snapshot fills keeps its value through every update until the order ends. */
  lemma SnapshotColumnsSurvive(u: seq<Mention>, snapshot: seq<Row>, us: seq<OrderUpdate>, i: nat, column: string)
    requires AllNamed(u) && Transitive(u) && Snapshot(u, snapshot) && UpdatesFrom(u, us)
    requires i < |snapshot| && column in snapshot[i]
    requires forall j | 0 <= j < |us| :: SilentOn(us[j], column)
    requires forall j | 0 <= j < |us| && IsTerminal(us[j]) :: !Same(MentionOf(snapshot[i]), MentionIn(us[j]))
    ensures HasRow(ApplyOrders(snapshot, us), OrderKey(u), OrderKey(u)(snapshot[i]), column, snapshot[i][column])
  {
    var key := OrderKey(u);
    var k, t := key(snapshot[i]), TableOf(u, snapshot);
    SnapshotRefines(u, snapshot);
    OrdersRefineTable(u, snapshot, us);
    assert t.order[i] == k && t.rows[k] == snapshot[i];
    forall j | 0 <= j < |us| && IsTerminal(us[j]) ensures Label(u, MentionIn(us[j])) != k {
      assert MentionIn(us[j]) in u && MentionOf(snapshot[i]) in u;
      var a :| 0 <= a < |u| && u[a] == MentionIn(us[j]);
      var b :| 0 <= b < |u| && u[b] == MentionOf(snapshot[i]);
      LabelIsIdentity(u, b, a);
    }
    TableKeepsColumn(u, t, us, k, column);
    var rows, after := ApplyOrders(snapshot, us), ApplyToTable(u, t, us);
    assert k in after.order;
    var r :| 0 <= r < |after.order| && after.order[r] == k;
    assert key(rows[r]) == k && rows[r] == after.rows[k];
  }
}
