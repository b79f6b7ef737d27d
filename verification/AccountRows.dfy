/** Rows of the account cache: merging, matching, and the keyed table they stand for. */
module AccountRows {
  datatype Field = Null | Text(s: string) | Number(n: int) | Other(json: string)

  type Row = map<string, Field>

  // ------------------------------------------------------------------ merging

  predicate Empty(f: Field) {
    f == Null || f == Text("")
  }

  /** What an update says about a row: its non-empty fields win, everything else stays. */
  function Merge(target: Row, update: Row): Row {
    map k | k in target.Keys + update.Keys && (k in target || !Empty(update[k])) ::
      if k in update && !Empty(update[k]) then update[k] else target[k]
  }

  method MergeNonEmpty(target: Row, update: Row) returns (r: Row)
    ensures r == Merge(target, update)
  {
    r := target;
    var left := update.Keys;
    while left != {}
      invariant left <= update.Keys
      invariant r == Merge(target, map k | k in update.Keys - left :: update[k])
      decreases left
    {
      var key :| key in left;
      ghost var done := map k | k in update.Keys - left :: update[k];
      left := left - {key};
      assert (map k | k in update.Keys - left :: update[k]) == done[key := update[key]];
      if !Empty(update[key]) {
        r := r[key := update[key]];
      }
    }
    assert (map k | k in update.Keys - {} :: update[k]) == update;
  }

  // ------------------------------------------------------------------ one update on the list

  function Retain(rows: seq<Row>, same: Row -> bool): seq<Row> {
    if rows == [] then []
    else
      var kept := Retain(rows[..|rows| - 1], same);
      if same(rows[|rows| - 1]) then kept else kept + [rows[|rows| - 1]]
  }

  function FirstMatch(rows: seq<Row>, same: Row -> bool): (r: nat)
    ensures r <= |rows| && (r < |rows| ==> same(rows[r]))
    ensures forall k | 0 <= k < r :: !same(rows[k])
  {
    if rows == [] || same(rows[0]) then 0 else 1 + FirstMatch(rows[1..], same)
  }

  function ApplyRow(rows: seq<Row>, same: Row -> bool, gone: bool, row: Row): seq<Row> {
    var at := FirstMatch(rows, same);
    if gone then Retain(rows, same)
    else if at < |rows| then rows[at := Merge(rows[at], row)]
    else rows + [row]
  }

  // ------------------------------------------------------------------ the reference: a keyed table in arrival order

  datatype Table<K> = Table(order: seq<K>, rows: map<K, Row>)

  function Without<K(==)>(order: seq<K>, k: K): seq<K> {
    if order == [] then []
    else
      var kept := Without(order[..|order| - 1], k);
      if order[|order| - 1] == k then kept else kept + [order[|order| - 1]]
  }

  function ApplyKeyed<K(==)>(t: Table<K>, k: K, gone: bool, row: Row): Table<K> {
    if gone then Table(Without(t.order, k), t.rows - {k})
    else if k in t.rows then t.(rows := t.rows[k := Merge(t.rows[k], row)])
    else Table(t.order + [k], t.rows[k := row])
  }

  /** The list holds exactly the table's rows, in arrival order, one row a key. */
  ghost predicate Refines<K>(rows: seq<Row>, t: Table<K>, key: Row -> K) {
    && |rows| == |t.order|
    && (forall i | 0 <= i < |rows| :: t.order[i] == key(rows[i]))
    && (forall i, j | 0 <= i < j < |rows| :: t.order[i] != t.order[j])
    && (forall i | 0 <= i < |rows| :: t.order[i] in t.rows && t.rows[t.order[i]] == rows[i])
    && (forall k | k in t.rows :: k in t.order)
  }

  lemma {:induction false} RetainIsWithout<K>(rows: seq<Row>, order: seq<K>, same: Row -> bool, key: Row -> K, k: K)
    requires |rows| == |order| && forall i | 0 <= i < |rows| :: order[i] == key(rows[i])
    requires forall i | 0 <= i < |rows| :: same(rows[i]) <==> key(rows[i]) == k
    ensures
      (var kept, left := Retain(rows, same), Without(order, k);
        && |kept| == |left|
        && (forall i | 0 <= i < |kept| :: left[i] == key(kept[i]) && left[i] != k && kept[i] in rows))
  {
    if rows != [] {
      RetainIsWithout(rows[..|rows| - 1], order[..|order| - 1], same, key, k);
    }
  }

  lemma {:induction false} WithoutHolds<K>(order: seq<K>, k: K, x: K)
    ensures x in Without(order, k) <==> x in order && x != k
  {
    if order != [] {
      var init, last := order[..|order| - 1], order[|order| - 1];
      WithoutHolds(init, k, x);
      assert order == init + [last];
    }
  }

  lemma {:induction false} WithoutKeepsDistinct<K>(order: seq<K>, k: K)
    requires forall i, j | 0 <= i < j < |order| :: order[i] != order[j]
    ensures var left := Without(order, k); forall i, j | 0 <= i < j < |left| :: left[i] != left[j]
  {
    if order != [] {
      var init, last := order[..|order| - 1], order[|order| - 1];
      WithoutKeepsDistinct(init, k);
      WithoutHolds(init, k, last);
      assert last !in init;
    }
  }

  lemma RemovalRefines<K>(rows: seq<Row>, t: Table<K>, key: Row -> K, same: Row -> bool, k: K, row: Row)
    requires Refines(rows, t, key)
    requires forall i | 0 <= i < |rows| :: same(rows[i]) <==> key(rows[i]) == k
    ensures Refines(Retain(rows, same), ApplyKeyed(t, k, true, row), key)
  {
    RetainIsWithout(rows, t.order, same, key, k);
    WithoutKeepsDistinct(t.order, k);
    var kept := Retain(rows, same);
    forall x | x in t.rows - {k} ensures x in Without(t.order, k) {
      WithoutHolds(t.order, k, x);
    }
    forall i | 0 <= i < |kept| ensures t.rows[key(kept[i])] == kept[i] && key(kept[i]) in t.rows {
      var j :| 0 <= j < |rows| && rows[j] == kept[i];
    }
  }

  /** One update by matching on the list is the same update by key on the table. */
  lemma ApplyRefines<K>(rows: seq<Row>, t: Table<K>, key: Row -> K, same: Row -> bool, k: K, gone: bool, row: Row)
    requires Refines(rows, t, key)
    requires forall i | 0 <= i < |rows| :: same(rows[i]) <==> key(rows[i]) == k
    requires key(row) == k
    requires forall i | 0 <= i < |rows| && same(rows[i]) :: key(Merge(rows[i], row)) == k
    ensures Refines(ApplyRow(rows, same, gone, row), ApplyKeyed(t, k, gone, row), key)
  {
    if gone {
      RemovalRefines(rows, t, key, same, k, row);
    } else {
      var at := FirstMatch(rows, same);
      if at < |rows| {
        assert t.order[at] == k;
      } else {
        assert forall i | 0 <= i < |t.order| :: t.order[i] != k;
      }
    }
  }
}
