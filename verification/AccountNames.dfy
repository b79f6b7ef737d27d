/** Order updates that name no order, and the exact condition for one row an order over all updates. */
module AccountNames {
  import opened AccountRows
  import opened AccountOrders

  predicate Named(m: Mention) {
    m.id != 0 || m.clientId != ""
  }

  predicate NamedRow(row: Row) {
    Named(MentionOf(row))
  }

  function NamedRows(rows: seq<Row>): seq<Row> {
    if rows == [] then [] else (if NamedRow(rows[0]) then [rows[0]] else []) + NamedRows(rows[1..])
  }

  function NamedUpdates(us: seq<OrderUpdate>): seq<OrderUpdate> {
    if us == [] then []
    else NamedUpdates(us[..|us| - 1]) + (if Named(MentionIn(us[|us| - 1])) then [us[|us| - 1]] else [])
  }

  function NamedMentions(u: seq<Mention>): seq<Mention> {
    if u == [] then [] else (if Named(u[0]) then [u[0]] else []) + NamedMentions(u[1..])
  }

  ghost predicate AllReal(rows: seq<Row>) {
    forall i | 0 <= i < |rows| :: RealId(rows[i])
  }

  // ------------------------------------------------------------------ an update without a name

  lemma {:induction false} NoneMatches(rows: seq<Row>, same: Row -> bool)
    requires forall i | 0 <= i < |rows| :: !same(rows[i])
    ensures Retain(rows, same) == rows
  {
    if rows != [] {
      var init := rows[..|rows| - 1];
      NoneMatches(init, same);
      assert rows == init + [rows[|rows| - 1]];
    }
  }

  /** It meets no row: it is appended as a row of its own, or changes nothing when it ends an order. */
  lemma NamelessIsAppended(rows: seq<Row>, o: OrderUpdate)
    requires AllReal(rows) && !Named(MentionIn(o))
    ensures ApplyOrder(rows, o) == if IsTerminal(o) then rows else rows + [ToRow(o)]
    ensures !NamedRow(ToRow(o))
  {
    var same := SameOrder(o.orderId, o.clientId);
    forall i | 0 <= i < |rows| ensures !same(rows[i]) {
      RowsByMention(rows[i], o);
    }
    RowsByMention(map[], o);
    NoneMatches(rows, same);
  }

  // ------------------------------------------------------------------ updates act on the named rows alone

  lemma Regroup(a: seq<Row>, b: seq<Row>, c: seq<Row>)
    ensures a + (b + c) == a + b + c
  {
  }

  lemma {:induction false} NamedAppend(rows: seq<Row>, row: Row)
    ensures NamedRows(rows + [row]) == NamedRows(rows) + (if NamedRow(row) then [row] else [])
  {
    if rows == [] {
      assert rows + [row] == [row] && [row][1..] == [];
    } else {
      NamedAppend(rows[1..], row);
      assert (rows + [row])[1..] == rows[1..] + [row];
      Regroup(if NamedRow(rows[0]) then [rows[0]] else [], NamedRows(rows[1..]), if NamedRow(row) then [row] else []);
    }
  }

  lemma NamedFirst(row: Row, rest: seq<Row>)
    ensures NamedRows([row] + rest) == (if NamedRow(row) then [row] else []) + NamedRows(rest)
  {
    assert ([row] + rest)[1..] == rest;
  }

  lemma {:induction false} RetainLast(rows: seq<Row>, row: Row, same: Row -> bool)
    ensures Retain(rows + [row], same) == Retain(rows, same) + (if same(row) then [] else [row])
  {
    assert (rows + [row])[..|rows|] == rows;
  }

  lemma Nothing(rows: seq<Row>)
    ensures rows + [] == rows && [] + rows == rows
  {
  }

  lemma {:induction false} RetainNamed(rows: seq<Row>, same: Row -> bool)
    requires forall i | 0 <= i < |rows| && same(rows[i]) :: NamedRow(rows[i])
    ensures NamedRows(Retain(rows, same)) == Retain(NamedRows(rows), same)
  {
    if rows != [] {
      var init, row := rows[..|rows| - 1], rows[|rows| - 1];
      assert rows == init + [row];
      RetainNamed(init, same);
      RetainLast(init, row, same);
      NamedAppend(init, row);
      if same(row) {
        Nothing(Retain(init, same));
        RetainLast(NamedRows(init), row, same);
        Nothing(Retain(NamedRows(init), same));
      } else {
        NamedAppend(Retain(init, same), row);
        if NamedRow(row) {
          RetainLast(NamedRows(init), row, same);
        } else {
          Nothing(NamedRows(init));
          Nothing(NamedRows(Retain(init, same)));
        }
      }
    }
  }

  /** A row that does not match is passed over. */
  lemma ApplySkips(first: Row, rest: seq<Row>, same: Row -> bool, row: Row)
    requires !same(first)
    ensures ApplyRow([first] + rest, same, false, row) == [first] + ApplyRow(rest, same, false, row)
  {
    var rows, at := [first] + rest, FirstMatch(rest, same);
    assert rows[1..] == rest && FirstMatch(rows, same) == 1 + at;
  }

  lemma ApplyHits(first: Row, rest: seq<Row>, same: Row -> bool, row: Row)
    requires same(first)
    ensures ApplyRow([first] + rest, same, false, row) == [Merge(first, row)] + rest
  {
    assert FirstMatch([first] + rest, same) == 0;
  }

  lemma {:induction false} ApplyNamed(rows: seq<Row>, same: Row -> bool, row: Row)
    requires NamedRow(row)
    requires forall i | 0 <= i < |rows| && same(rows[i]) :: NamedRow(rows[i]) && NamedRow(Merge(rows[i], row))
    ensures NamedRows(ApplyRow(rows, same, false, row)) == ApplyRow(NamedRows(rows), same, false, row)
  {
    if rows == [] {
      NamedFirst(row, []);
      Nothing([row]);
    } else {
      var first, rest := rows[0], rows[1..];
      assert rows == [first] + rest;
      NamedFirst(first, rest);
      if same(first) {
        ApplyHits(first, rest, same, row);
        NamedFirst(Merge(first, row), rest);
        ApplyHits(first, NamedRows(rest), same, row);
      } else {
        ApplyNamed(rest, same, row);
        ApplySkips(first, rest, same, row);
        NamedFirst(first, ApplyRow(rest, same, false, row));
        if NamedRow(first) {
          ApplySkips(first, NamedRows(rest), same, row);
        } else {
          Nothing(NamedRows(rest));
          Nothing(NamedRows(ApplyRow(rest, same, false, row)));
        }
      }
    }
  }

  lemma {:induction false} RetainReal(rows: seq<Row>, same: Row -> bool)
    requires AllReal(rows)
    ensures AllReal(Retain(rows, same))
  {
    if rows != [] {
      RetainReal(rows[..|rows| - 1], same);
    }
  }

  lemma OrderStepReal(rows: seq<Row>, o: OrderUpdate)
    requires AllReal(rows)
    ensures AllReal(ApplyOrder(rows, o))
  {
    var same := SameOrder(o.orderId, o.clientId);
    RetainReal(rows, same);
    RowsByMention(map[], o);
    forall i | 0 <= i < |rows| ensures RealId(Merge(rows[i], ToRow(o))) {
      RowsByMention(rows[i], o);
    }
  }

  /** A named update acts on the named rows as if there were no others, a nameless one not at all. */
  lemma OrderStepNamed(rows: seq<Row>, o: OrderUpdate)
    requires AllReal(rows)
    ensures NamedRows(ApplyOrder(rows, o))
         == if Named(MentionIn(o)) then ApplyOrder(NamedRows(rows), o) else NamedRows(rows)
  {
    if Named(MentionIn(o)) {
      var same := SameOrder(o.orderId, o.clientId);
      RowsByMention(map[], o);
      forall i | 0 <= i < |rows| && same(rows[i]) ensures NamedRow(rows[i]) && NamedRow(Merge(rows[i], ToRow(o))) {
        RowsByMention(rows[i], o);
      }
      RetainNamed(rows, same);
      ApplyNamed(rows, same, ToRow(o));
    } else {
      NamelessIsAppended(rows, o);
      NamedAppend(rows, ToRow(o));
    }
  }

  lemma {:induction false} OrdersNamed(snapshot: seq<Row>, us: seq<OrderUpdate>)
    requires AllReal(snapshot)
    ensures AllReal(ApplyOrders(snapshot, us))
    ensures NamedRows(ApplyOrders(snapshot, us)) == ApplyOrders(NamedRows(snapshot), NamedUpdates(us))
  {
    if us != [] {
      var init, o := us[..|us| - 1], us[|us| - 1];
      OrdersNamed(snapshot, init);
      OrderStepReal(ApplyOrders(snapshot, init), o);
      OrderStepNamed(ApplyOrders(snapshot, init), o);
      OneMoreUpdate(NamedRows(snapshot), NamedUpdates(init), o);
    }
  }

  lemma OneMoreUpdate(rows: seq<Row>, us: seq<OrderUpdate>, o: OrderUpdate)
    ensures ApplyOrders(rows, us + [o]) == ApplyOrder(ApplyOrders(rows, us), o)
    ensures us + [] == us
  {
    assert (us + [o])[..|us|] == us;
  }

  // ------------------------------------------------------------------ rows that share are named

  lemma {:induction false} NamedIndex(rows: seq<Row>, j: nat) returns (b: nat)
    requires j < |rows| && NamedRow(rows[j])
    ensures b < |NamedRows(rows)| && NamedRows(rows)[b] == rows[j]
  {
    if j == 0 {
      b := 0;
    } else {
      var c := NamedIndex(rows[1..], j - 1);
      b := if NamedRow(rows[0]) then 1 + c else c;
    }
  }

  lemma {:induction false} NamedPair(rows: seq<Row>, i: nat, j: nat) returns (a: nat, b: nat)
    requires i < j < |rows| && NamedRow(rows[i]) && NamedRow(rows[j])
    ensures a < b < |NamedRows(rows)| && NamedRows(rows)[a] == rows[i] && NamedRows(rows)[b] == rows[j]
  {
    if i == 0 {
      var c := NamedIndex(rows[1..], j - 1);
      a, b := 0, 1 + c;
    } else {
      var c, d := NamedPair(rows[1..], i - 1, j - 1);
      a, b := if NamedRow(rows[0]) then 1 + c else c, if NamedRow(rows[0]) then 1 + d else d;
    }
  }

  lemma SharingIsAmongNamed(rows: seq<Row>)
    requires NoTwoShare(NamedRows(rows))
    ensures NoTwoShare(rows)
  {
    forall i, j | 0 <= i < j < |rows| ensures !Same(MentionOf(rows[i]), MentionOf(rows[j])) {
      if NamedRow(rows[i]) && NamedRow(rows[j]) {
        var a, b := NamedPair(rows, i, j);
        assert !Same(MentionOf(NamedRows(rows)[a]), MentionOf(NamedRows(rows)[b]));
      }
    }
  }

  lemma {:induction false} NamedMentionsAre(u: seq<Mention>)
    ensures AllNamed(NamedMentions(u))
    ensures forall m :: m in NamedMentions(u) <==> m in u && Named(m)
  {
    if u != [] {
      NamedMentionsAre(u[1..]);
      assert u == [u[0]] + u[1..];
    }
  }

  lemma NamedStayTransitive(u: seq<Mention>)
    requires Transitive(u)
    ensures Transitive(NamedMentions(u))
  {
    var v := NamedMentions(u);
    NamedMentionsAre(u);
    forall i, j, k | 0 <= i < |v| && 0 <= j < |v| && 0 <= k < |v| && Same(v[i], v[j]) && Same(v[j], v[k])
      ensures Same(v[i], v[k])
    {
      assert v[i] in u && v[j] in u && v[k] in u;
    }
  }

  lemma {:induction false} NamedUpdatesFrom(u: seq<Mention>, us: seq<OrderUpdate>)
    requires UpdatesFrom(u, us)
    ensures UpdatesFrom(NamedMentions(u), NamedUpdates(us))
  {
    NamedMentionsAre(u);
    if us != [] {
      assert forall i | 0 <= i < |us| - 1 :: us[..|us| - 1][i] == us[i];
      NamedUpdatesFrom(u, us[..|us| - 1]);
    }
  }

  /**
   * While sharing a name is transitive among all mentions, nameless ones included, the named rows are at
   * all times the table keyed by identity under the named updates, and no two rows name the same order.
   */
  lemma NamedOrdersRefineTable(u: seq<Mention>, snapshot: seq<Row>, us: seq<OrderUpdate>)
    requires Transitive(u) && UpdatesFrom(u, us)
    requires AllReal(snapshot) && Snapshot(NamedMentions(u), NamedRows(snapshot))
    ensures
      (var v := NamedMentions(u);
        Refines(NamedRows(ApplyOrders(snapshot, us)),
                ApplyToTable(v, TableOf(v, NamedRows(snapshot)), NamedUpdates(us)), OrderKey(v)))
    ensures NoTwoShare(ApplyOrders(snapshot, us))
  {
    NamedMentionsAre(u);
    NamedStayTransitive(u);
    NamedUpdatesFrom(u, us);
    OrdersNamed(snapshot, us);
    OrdersRefineTable(NamedMentions(u), NamedRows(snapshot), NamedUpdates(us));
    SharingIsAmongNamed(ApplyOrders(snapshot, us));
  }

  // ------------------------------------------------------------------ the condition is exact

  /** No run of updates ever splits an order over two rows exactly when sharing a name is transitive. */
  lemma NoSplitIffTransitive(u: seq<Mention>)
    ensures (forall us | UpdatesFrom(u, us) :: NoTwoShare(ApplyOrders([], us))) <==> Transitive(u)
  {
    if Transitive(u) {
      forall us | UpdatesFrom(u, us) ensures NoTwoShare(ApplyOrders([], us)) {
        NamedOrdersRefineTable(u, [], us);
      }
    } else {
      var i, j, k :| 0 <= i < |u| && 0 <= j < |u| && 0 <= k < |u|
        && Same(u[i], u[j]) && Same(u[j], u[k]) && !Same(u[i], u[k]);
      var us := SplittingRun(u, i, j, k);
    }
  }

  /** Every order id goes with one client id and the other way round, where both are known. */
  ghost predicate OneToOne(u: seq<Mention>) {
    forall i, j | 0 <= i < |u| && 0 <= j < |u|
      && u[i].id != 0 && u[i].clientId != "" && u[j].id != 0 && u[j].clientId != "" ::
      u[i].id == u[j].id <==> u[i].clientId == u[j].clientId
  }

  /** That is not enough: the order 5, "x" seen first by one name, then by the other, then by both. */
  lemma OneToOneIsNotEnough(u: seq<Mention>)
    requires u == [Mention(0, "x"), Mention(5, ""), Mention(5, "x")]
    ensures OneToOne(u) && !Transitive(u)
    ensures !NoTwoShare(ApplyOrders([], [Naming(u[0]), Naming(u[1]), Naming(u[2])]))
  {
    assert Same(u[0], u[2]) && Same(u[2], u[1]) && !Same(u[0], u[1]);
    JoiningSplits(u[0], u[2], u[1]);
  }
}
