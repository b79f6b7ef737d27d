/** The canonical form that plan and account hashes are taken of, and what its text determines. */
module Canonical {
  import opened Wrappers
  import opened Json

  // ------------------------------------------------------------------ ordered maps

  /** The order an object's members end up in: `before(a, b)` when key `a` comes first. */
  type KeyOrder = (string, string) -> bool

  ghost predicate StrictTotal(before: KeyOrder) {
    && (forall a :: !before(a, a))
    && (forall a, b :: a == b || before(a, b) || before(b, a))
    && (forall a, b, c :: before(a, b) && before(b, c) ==> before(a, c))
  }

  /** Order of keys by code point, as the ordered map compares them. */
  predicate Below(a: string, b: string) {
    b != [] && (a == [] || a[0] < b[0] || (a[0] == b[0] && Below(a[1..], b[1..])))
  }

  /** Map insertion: replaces an equal key, else lands at its place in the order. */
  function Put(ms: seq<Member>, key: string, value: Json, before: KeyOrder): seq<Member> {
    if ms == [] || before(key, ms[0].key) then [Member(key, value)] + ms
    else if ms[0].key == key then [Member(key, value)] + ms[1..]
    else [ms[0]] + Put(ms[1..], key, value, before)
  }

  function Find(ms: seq<Member>, key: string): Option<Json> {
    if ms == [] then None else if ms[0].key == key then Some(ms[0].value) else Find(ms[1..], key)
  }

  ghost predicate Sorted(ms: seq<Member>, before: KeyOrder) {
    forall i, j | 0 <= i < j < |ms| :: before(ms[i].key, ms[j].key)
  }

  ghost predicate DistinctKeys(ms: seq<Member>) {
    forall i, j | 0 <= i < j < |ms| :: ms[i].key != ms[j].key
  }

  /** Objects at every depth have distinct keys, as JSON values in both languages do. */
  ghost predicate WellFormed(v: Json) {
    match v
    case Arr(items) => forall i | 0 <= i < |items| :: WellFormed(items[i])
    case Obj(ms) => DistinctKeys(ms) && forall i | 0 <= i < |ms| :: WellFormed(ms[i].value)
    case _ => true
  }

  // ------------------------------------------------------------------ the canonical form

  /** Null members dropped and members ordered by key, at every depth; array elements all kept. */
  function Canon(v: Json, before: KeyOrder): Json
    decreases v, 1
  {
    match v
    case Arr(items) => Arr(CanonItems(items, before))
    case Obj(ms) => Obj(CanonMembers(ms, before))
    case _ => v
  }

  function CanonItems(items: seq<Json>, before: KeyOrder): (r: seq<Json>)
    ensures |r| == |items| && forall i | 0 <= i < |r| :: r[i] == Canon(items[i], before)
    decreases items, 0
  {
    if items == [] then [] else CanonItems(items[..|items| - 1], before) + [Canon(items[|items| - 1], before)]
  }

  function CanonMembers(ms: seq<Member>, before: KeyOrder): seq<Member>
    decreases ms, 0
  {
    if ms == [] then []
    else
      var m := ms[|ms| - 1];
      var r := CanonMembers(ms[..|ms| - 1], before);
      if m.value.Null? then r else Put(r, m.key, Canon(m.value, before), before)
  }

  /** Where the walk meets its first float, as keys and indices from the root. */
  function FloatPath(v: Json): Option<seq<string>>
    decreases v, 1
  {
    match v
    case Float(_) => Some([])
    case Arr(items) => FloatInItems(items)
    case Obj(ms) => FloatInMembers(ms)
    case _ => None
  }

  function FloatInItems(items: seq<Json>): Option<seq<string>>
    decreases items, 0
  {
    if items == [] then None
    else
      var r := FloatInItems(items[..|items| - 1]);
      if r.Some? then r
      else match FloatPath(items[|items| - 1])
        case None => None
        case Some(path) => Some([Digits(|items| - 1)] + path)
  }

  function FloatInMembers(ms: seq<Member>): Option<seq<string>>
    decreases ms, 0
  {
    if ms == [] then None
    else
      var r := FloatInMembers(ms[..|ms| - 1]);
      if r.Some? then r
      else match FloatPath(ms[|ms| - 1].value)
        case None => None
        case Some(path) => Some([ms[|ms| - 1].key] + path)
  }

  datatype Outcome = Text(text: string) | FloatNotAllowed(path: seq<string>)

  /** `canonical_json`. */
  function CanonicalJson(v: Json, before: KeyOrder): Outcome {
    if FloatPath(v).Some? then FloatNotAllowed(FloatPath(v).value) else Text(Print(Canon(v, before)))
  }

  // ------------------------------------------------------------------ the two implementations

  /** The ordered map of the Rust side compares keys by code point. */
  const RUST: KeyOrder := (a, b) => Below(a, b)

  datatype Walked = Done(value: Json) | Float(path: seq<string>)

  /** Rust: a recursive walk that pushes and pops a shared path and fills ordered maps. */
  class Walker {
    var path: seq<string>

    method Walk(v: Json) returns (r: Walked)
      modifies this
      ensures r.Done? ==> FloatPath(v).None? && r.value == Canon(v, RUST) && path == old(path)
      ensures r.Float? ==> FloatPath(v).Some? && r.path == old(path) + FloatPath(v).value
      decreases v, 1
    {
      match v
      case Obj(ms) => r := WalkMembers(ms);
      case Arr(items) => r := WalkItems(items);
      case Float(_) =>
        assert path == old(path) + [];
        r := Walked.Float(path);
      case _ => r := Done(v);
    }

    method WalkMembers(ms: seq<Member>) returns (r: Walked)
      modifies this
      ensures r.Done? ==> FloatInMembers(ms).None? && r.value == Obj(CanonMembers(ms, RUST)) && path == old(path)
      ensures r.Float? ==> FloatInMembers(ms).Some? && r.path == old(path) + FloatInMembers(ms).value
      decreases ms, 0
    {
      var out: seq<Member> := [];
      for k := 0 to |ms|
        invariant path == old(path) && out == CanonMembers(ms[..k], RUST) && FloatInMembers(ms[..k]).None?
      {
        assert ms[..k + 1][..k] == ms[..k];
        if !ms[k].value.Null? {
          path := path + [ms[k].key];
          var child := Walk(ms[k].value);
          if child.Float? {
            FloatInMembersPrefix(ms, k + 1);
            assert old(path) + [ms[k].key] + FloatPath(ms[k].value).value
                == old(path) + ([ms[k].key] + FloatPath(ms[k].value).value);
            return child;
          }
          path := path[..|path| - 1];
          out := Put(out, ms[k].key, child.value, RUST);
        }
      }
      assert ms[..|ms|] == ms;
      r := Done(Obj(out));
    }

    method WalkItems(items: seq<Json>) returns (r: Walked)
      modifies this
      ensures r.Done? ==> FloatInItems(items).None? && r.value == Arr(CanonItems(items, RUST)) && path == old(path)
      ensures r.Float? ==> FloatInItems(items).Some? && r.path == old(path) + FloatInItems(items).value
      decreases items, 0
    {
      var out: seq<Json> := [];
      for k := 0 to |items|
        invariant path == old(path) && out == CanonItems(items[..k], RUST) && FloatInItems(items[..k]).None?
      {
        assert items[..k + 1][..k] == items[..k];
        path := path + [Digits(k)];
        var child := Walk(items[k]);
        if child.Float? {
          FloatInItemsPrefix(items, k + 1);
          assert old(path) + [Digits(k)] + FloatPath(items[k]).value
              == old(path) + ([Digits(k)] + FloatPath(items[k]).value);
          return child;
        }
        out := out + [child.value];
        path := path[..|path| - 1];
      }
      assert items[..|items|] == items;
      r := Done(Arr(out));
    }
  }

  /** Once a float is found, later elements do not change the answer. */
  lemma {:induction false} FloatInMembersPrefix(ms: seq<Member>, k: nat)
    requires k <= |ms| && FloatInMembers(ms[..k]).Some?
    ensures FloatInMembers(ms) == FloatInMembers(ms[..k])
    decreases |ms| - k
  {
    if k < |ms| {
      assert ms[..k + 1][..k] == ms[..k];
      FloatInMembersPrefix(ms, k + 1);
    } else {
      assert ms[..k] == ms;
    }
  }

  lemma {:induction false} FloatInItemsPrefix(items: seq<Json>, k: nat)
    requires k <= |items| && FloatInItems(items[..k]).Some?
    ensures FloatInItems(items) == FloatInItems(items[..k])
    decreases |items| - k
  {
    if k < |items| {
      assert items[..k + 1][..k] == items[..k];
      FloatInItemsPrefix(items, k + 1);
    } else {
      assert items[..k] == items;
    }
  }

  // ------------------------------------------------------------------ the order of keys

  lemma {:induction false} BelowTotal(a: string, b: string)
    ensures a == b || Below(a, b) || Below(b, a)
    ensures !(Below(a, b) && Below(b, a)) && !Below(a, a)
  {
    if a != [] && b != [] {
      BelowTotal(a[1..], b[1..]);
      BelowTotal(a[1..], a[1..]);
      assert a == [a[0]] + a[1..] && b == [b[0]] + b[1..];
    } else if a != [] {
      BelowTotal(a[1..], a[1..]);
    }
  }

  lemma {:induction false} BelowTransitive(a: string, b: string, c: string)
    requires Below(a, b) && Below(b, c)
    ensures Below(a, c)
  {
    if a != [] && a[0] == b[0] == c[0] {
      BelowTransitive(a[1..], b[1..], c[1..]);
    }
  }

  lemma RustOrderIsTotal()
    ensures StrictTotal(RUST)
  {
    forall a: string, b: string ensures a == b || RUST(a, b) || RUST(b, a) {
      BelowTotal(a, b);
    }
    forall a: string ensures !RUST(a, a) {
      BelowTotal(a, a);
    }
    forall a: string, b: string, c: string | RUST(a, b) && RUST(b, c) ensures RUST(a, c) {
      BelowTransitive(a, b, c);
    }
  }

  // ------------------------------------------------------------------ ordered maps behave as maps

  lemma {:induction false} PutSorted(ms: seq<Member>, key: string, value: Json, before: KeyOrder)
    requires StrictTotal(before)
    requires Sorted(ms, before)
    ensures Sorted(Put(ms, key, value, before), before)
    ensures forall i | 0 <= i < |Put(ms, key, value, before)| ::
      Put(ms, key, value, before)[i] == Member(key, value) || Put(ms, key, value, before)[i] in ms
  {
    if ms != [] {
      if before(key, ms[0].key) {
        assert forall i | 1 <= i < |ms| :: before(ms[0].key, ms[i].key);
      } else if ms[0].key != key {
        PutSorted(ms[1..], key, value, before);
        var r := Put(ms[1..], key, value, before);
        forall i | 0 <= i < |r| ensures before(ms[0].key, r[i].key) {
          if r[i] != Member(key, value) {
            assert r[i] in ms[1..];
          }
        }
      }
    }
  }

  lemma {:induction false} PutFind(ms: seq<Member>, key: string, value: Json, k: string, before: KeyOrder)
    requires StrictTotal(before)
    requires Sorted(ms, before)
    ensures Find(Put(ms, key, value, before), k) == if k == key then Some(value) else Find(ms, k)
  {
    if ms != [] {
      if before(key, ms[0].key) {
        assert ([Member(key, value)] + ms)[1..] == ms;
      } else if ms[0].key == key {
        assert ([Member(key, value)] + ms[1..])[1..] == ms[1..];
      } else {
        PutFind(ms[1..], key, value, k, before);
        assert ([ms[0]] + Put(ms[1..], key, value, before))[1..] == Put(ms[1..], key, value, before);
      }
    } else {
      assert ([Member(key, value)] + ms)[1..] == [];
    }
  }

  lemma {:induction false} FindIs(ms: seq<Member>, k: string)
    ensures Find(ms, k).Some? ==> exists i | 0 <= i < |ms| :: ms[i].key == k && ms[i].value == Find(ms, k).value
    ensures Find(ms, k).None? ==> forall i | 0 <= i < |ms| :: ms[i].key != k
  {
    if ms != [] {
      FindIs(ms[1..], k);
      if ms[0].key != k && Find(ms, k).Some? {
        var i :| 0 <= i < |ms[1..]| && ms[1..][i].key == k && ms[1..][i].value == Find(ms, k).value;
        assert ms[i + 1].key == k;
      }
      assert forall i | 1 <= i < |ms| :: ms[i] == ms[1..][i - 1];
    }
  }

  /** Two ordered maps with the same lookups are the same list. */
  lemma {:induction false} SortedUnique(a: seq<Member>, b: seq<Member>, before: KeyOrder)
    requires StrictTotal(before)
    requires Sorted(a, before) && Sorted(b, before) && forall k: string :: Find(a, k) == Find(b, k)
    ensures a == b
  {
    var probe := if b == [] then None else Find(a, b[0].key);
    if a == [] {
      assert b == [];
    } else {
      assert Find(a, a[0].key).Some?;
      FindIs(b, a[0].key);
      FindIs(a, b[0].key);
      assert Find(b, b[0].key).Some?;
      assert a[0] == b[0];
      forall k: string ensures Find(a[1..], k) == Find(b[1..], k) {
        assert Find(a, k) == Find(b, k);
        if k == a[0].key {
          FindIs(a[1..], k);
          FindIs(b[1..], k);
        }
      }
      SortedUnique(a[1..], b[1..], before);
      assert a == [a[0]] + a[1..] && b == [b[0]] + b[1..];
    }
  }

  // ------------------------------------------------------------------ canonical values

  /** Members ordered and never null, at every depth. */
  ghost predicate IsCanonical(v: Json, before: KeyOrder) {
    match v
    case Arr(items) => forall i | 0 <= i < |items| :: IsCanonical(items[i], before)
    case Obj(ms) => Sorted(ms, before) && forall i | 0 <= i < |ms| :: !ms[i].value.Null? && IsCanonical(ms[i].value, before)
    case _ => true
  }

  lemma {:induction false} CanonIsCanonical(v: Json, before: KeyOrder)
    requires StrictTotal(before)
    ensures IsCanonical(Canon(v, before), before) && (Canon(v, before).Null? <==> v.Null?)
    decreases v, 1
  {
    match v
    case Arr(items) =>
      forall i | 0 <= i < |items| ensures IsCanonical(Canon(items[i], before), before) {
        CanonIsCanonical(items[i], before);
      }
    case Obj(ms) => CanonMembersCanonical(ms, before);
    case _ =>
  }

  lemma {:induction false} CanonMembersCanonical(ms: seq<Member>, before: KeyOrder)
    requires StrictTotal(before)
    ensures IsCanonical(Obj(CanonMembers(ms, before)), before)
    decreases ms, 0
  {
    if ms != [] {
      var m := ms[|ms| - 1];
      CanonMembersCanonical(ms[..|ms| - 1], before);
      CanonIsCanonical(m.value, before);
      PutSorted(CanonMembers(ms[..|ms| - 1], before), m.key, Canon(m.value, before), before);
    }
  }

  lemma {:induction false} PutLast(ms: seq<Member>, key: string, value: Json, before: KeyOrder)
    requires StrictTotal(before)
    requires forall i | 0 <= i < |ms| :: before(ms[i].key, key)
    ensures Put(ms, key, value, before) == ms + [Member(key, value)]
  {
    if ms != [] {
      PutLast(ms[1..], key, value, before);
    }
  }

  lemma {:induction false} CanonFixes(v: Json, before: KeyOrder)
    requires StrictTotal(before)
    requires IsCanonical(v, before)
    ensures Canon(v, before) == v
    decreases v, 1
  {
    match v
    case Arr(items) =>
      forall i | 0 <= i < |items| ensures Canon(items[i], before) == items[i] {
        CanonFixes(items[i], before);
      }
      assert CanonItems(items, before) == items;
    case Obj(ms) => CanonFixesMembers(ms, before);
    case _ =>
  }

  lemma {:induction false} CanonFixesMembers(ms: seq<Member>, before: KeyOrder)
    requires StrictTotal(before)
    requires IsCanonical(Obj(ms), before)
    ensures CanonMembers(ms, before) == ms
    decreases ms, 0
  {
    if ms != [] {
      var init := ms[..|ms| - 1];
      var m := ms[|ms| - 1];
      CanonicalInit(ms, before);
      CanonFixesMembers(init, before);
      CanonFixes(m.value, before);
      PutLast(init, m.key, m.value, before);
      assert init + [Member(m.key, m.value)] == ms;
    }
  }

  lemma CanonicalInit(ms: seq<Member>, before: KeyOrder)
    requires ms != [] && IsCanonical(Obj(ms), before)
    ensures IsCanonical(Obj(ms[..|ms| - 1]), before) && IsCanonical(ms[|ms| - 1].value, before)
    ensures var init, m := ms[..|ms| - 1], ms[|ms| - 1];
      !m.value.Null? && forall i | 0 <= i < |init| :: before(init[i].key, m.key)
  {
  }

  /** Canonicalisation is idempotent. */
  lemma CanonIdempotent(v: Json, before: KeyOrder)
    requires StrictTotal(before)
    ensures Canon(Canon(v, before), before) == Canon(v, before)
  {
    CanonIsCanonical(v, before);
    CanonFixes(Canon(v, before), before);
  }

  // ------------------------------------------------------------------ floats and their paths

  /** The path steps from `v` to a float, by key in objects and by printed index in arrays. */
  ghost predicate Leads(v: Json, path: seq<string>)
    decreases |path|
  {
    if path == [] then v.Float?
    else match v
      case Arr(items) => exists i | 0 <= i < |items| :: path[0] == Digits(i) && Leads(items[i], path[1..])
      case Obj(ms) => exists i | 0 <= i < |ms| :: path[0] == ms[i].key && Leads(ms[i].value, path[1..])
      case _ => false
  }

  /** The reported path leads to a float. */
  lemma {:induction false} ReportedPathLeads(v: Json)
    requires FloatPath(v).Some?
    ensures Leads(v, FloatPath(v).value)
    decreases v, 1
  {
    match v
    case Arr(items) => FloatInItemsLeads(items);
    case Obj(ms) => FloatInMembersLeads(ms);
    case _ =>
  }

  lemma {:induction false} FloatInItemsLeads(items: seq<Json>)
    requires FloatInItems(items).Some?
    ensures Leads(Arr(items), FloatInItems(items).value)
    decreases items, 0
  {
    var n := |items| - 1;
    var path := FloatInItems(items).value;
    if FloatInItems(items[..n]).Some? {
      FloatInItemsLeads(items[..n]);
      var i :| 0 <= i < n && path[0] == Digits(i) && Leads(items[..n][i], path[1..]);
      assert Leads(items[i], path[1..]);
    } else {
      ReportedPathLeads(items[n]);
      assert path[1..] == FloatPath(items[n]).value;
      assert path[0] == Digits(n) && Leads(items[n], path[1..]);
    }
  }

  lemma {:induction false} FloatInMembersLeads(ms: seq<Member>)
    requires FloatInMembers(ms).Some?
    ensures Leads(Obj(ms), FloatInMembers(ms).value)
    decreases ms, 0
  {
    var n := |ms| - 1;
    var path := FloatInMembers(ms).value;
    if FloatInMembers(ms[..n]).Some? {
      FloatInMembersLeads(ms[..n]);
      var i :| 0 <= i < n && path[0] == ms[..n][i].key && Leads(ms[..n][i].value, path[1..]);
      assert Leads(ms[i].value, path[1..]);
    } else {
      ReportedPathLeads(ms[n].value);
      assert path[1..] == FloatPath(ms[n].value).value;
      assert path[0] == ms[n].key && Leads(ms[n].value, path[1..]);
    }
  }

  /** If any path leads to a float, the walk reports one. */
  lemma {:induction false} FloatIsReported(v: Json, path: seq<string>)
    requires Leads(v, path)
    ensures FloatPath(v).Some?
    decreases |path|
  {
    if path != [] {
      match v
      case Arr(items) =>
        var i :| 0 <= i < |items| && path[0] == Digits(i) && Leads(items[i], path[1..]);
        FloatIsReported(items[i], path[1..]);
        assert items[..i + 1][..i] == items[..i];
        FloatInItemsPrefix(items, i + 1);
      case Obj(ms) =>
        var i :| 0 <= i < |ms| && path[0] == ms[i].key && Leads(ms[i].value, path[1..]);
        FloatIsReported(ms[i].value, path[1..]);
        assert ms[..i + 1][..i] == ms[..i];
        FloatInMembersPrefix(ms, i + 1);
    }
  }

  /** `canonical_json` fails exactly when a float occurs, and the reported path leads to one. */
  lemma FailsExactlyOnFloats(v: Json, before: KeyOrder)
    ensures CanonicalJson(v, before).FloatNotAllowed? <==> exists path: seq<string> :: Leads(v, path)
    ensures CanonicalJson(v, before).FloatNotAllowed? ==> Leads(v, CanonicalJson(v, before).path)
  {
    if FloatPath(v).Some? {
      ReportedPathLeads(v);
      var path := FloatPath(v).value;
      assert Leads(v, path);
    }
    forall path: seq<string> | Leads(v, path) ensures FloatPath(v).Some? {
      FloatIsReported(v, path);
    }
  }

  // ------------------------------------------------------------------ what the text determines

  /**
   * The same value up to member order and null members, at any depth: arrays elementwise, objects
   * by matching every non-null member of either side, everything else equal.
   */
  ghost predicate Equivalent(v: Json, w: Json)
    decreases v
  {
    match (v, w)
    case (Arr(a), Arr(b)) => |a| == |b| && forall i | 0 <= i < |a| :: Equivalent(a[i], b[i])
    case (Obj(a), Obj(b)) =>
      && (forall i | 0 <= i < |a| && !a[i].value.Null? :: HasTwin(a[i], b))
      && (forall j | 0 <= j < |b| && !b[j].value.Null? :: Keeps(a, b[j].key))
    case _ => v == w
  }

  /** Some non-null member has this member's key and an equivalent value. */
  ghost predicate HasTwin(m: Member, ms: seq<Member>)
    decreases m
  {
    exists j | 0 <= j < |ms| :: ms[j].key == m.key && !ms[j].value.Null? && Equivalent(m.value, ms[j].value)
  }

  ghost predicate Keeps(ms: seq<Member>, key: string) {
    exists i | 0 <= i < |ms| :: ms[i].key == key && !ms[i].value.Null?
  }

  /** A key looked up in the canonical members is a kept member's canonical value, and every one is found. */
  lemma {:induction false} FindCanon(ms: seq<Member>, i: nat, before: KeyOrder)
    requires StrictTotal(before)
    requires DistinctKeys(ms) && i < |ms| && !ms[i].value.Null?
    ensures Find(CanonMembers(ms, before), ms[i].key) == Some(Canon(ms[i].value, before))
  {
    var n := |ms| - 1;
    CanonMembersCanonical(ms[..n], before);
    PutFind(CanonMembers(ms[..n], before), ms[n].key, Canon(ms[n].value, before), ms[i].key, before);
    if i < n {
      FindCanon(ms[..n], i, before);
    }
  }

  lemma {:induction false} FoundIsKept(ms: seq<Member>, k: string, before: KeyOrder) returns (i: nat)
    requires StrictTotal(before)
    requires DistinctKeys(ms) && Find(CanonMembers(ms, before), k).Some?
    ensures i < |ms| && ms[i].key == k && !ms[i].value.Null? && Find(CanonMembers(ms, before), k) == Some(Canon(ms[i].value, before))
  {
    var n := |ms| - 1;
    CanonMembersCanonical(ms[..n], before);
    PutFind(CanonMembers(ms[..n], before), ms[n].key, Canon(ms[n].value, before), k, before);
    if ms[n].key == k && !ms[n].value.Null? {
      i := n;
    } else {
      i := FoundIsKept(ms[..n], k, before);
    }
  }

  lemma {:induction false} EquivalentCanon(v: Json, w: Json, before: KeyOrder)
    requires StrictTotal(before)
    requires WellFormed(v) && WellFormed(w) && Equivalent(v, w)
    ensures Canon(v, before) == Canon(w, before)
    decreases v, 1
  {
    match (v, w)
    case (Arr(a), Arr(b)) =>
      forall i | 0 <= i < |a| ensures Canon(a[i], before) == Canon(b[i], before) {
        EquivalentCanon(a[i], b[i], before);
      }
      assert CanonItems(a, before) == CanonItems(b, before);
    case (Obj(a), Obj(b)) =>
      forall k: string ensures Find(CanonMembers(a, before), k) == Find(CanonMembers(b, before), k) {
        EquivalentLookup(a, b, k, before);
      }
      CanonMembersCanonical(a, before);
      CanonMembersCanonical(b, before);
      SortedUnique(CanonMembers(a, before), CanonMembers(b, before), before);
    case _ =>
  }

  lemma {:induction false} EquivalentLookup(a: seq<Member>, b: seq<Member>, k: string, before: KeyOrder)
    requires StrictTotal(before)
    requires WellFormed(Obj(a)) && WellFormed(Obj(b)) && Equivalent(Obj(a), Obj(b))
    ensures Find(CanonMembers(a, before), k) == Find(CanonMembers(b, before), k)
    decreases Obj(a), 0
  {
    if Find(CanonMembers(a, before), k).Some? {
      var i := FoundIsKept(a, k, before);
      assert HasTwin(a[i], b);
      var j :| 0 <= j < |b| && b[j].key == a[i].key && !b[j].value.Null? && Equivalent(a[i].value, b[j].value);
      EquivalentCanon(a[i].value, b[j].value, before);
      FindCanon(b, j, before);
    } else if Find(CanonMembers(b, before), k).Some? {
      var j := FoundIsKept(b, k, before);
      assert Keeps(a, b[j].key);
      var i :| 0 <= i < |a| && a[i].key == b[j].key && !a[i].value.Null?;
      FindCanon(a, i, before);
    }
  }

  lemma {:induction false} CanonEquivalent(v: Json, w: Json, before: KeyOrder)
    requires StrictTotal(before)
    requires WellFormed(v) && WellFormed(w) && Canon(v, before) == Canon(w, before)
    ensures Equivalent(v, w)
    decreases v
  {
    match (v, w)
    case (Arr(a), Arr(b)) =>
      forall i | 0 <= i < |a| ensures Equivalent(a[i], b[i]) {
        assert CanonItems(a, before)[i] == CanonItems(b, before)[i];
        CanonEquivalent(a[i], b[i], before);
      }
    case (Obj(a), Obj(b)) =>
      forall i | 0 <= i < |a| && !a[i].value.Null? ensures HasTwin(a[i], b) {
        FindCanon(a, i, before);
        var j := FoundIsKept(b, a[i].key, before);
        CanonEquivalent(a[i].value, b[j].value, before);
      }
      forall j | 0 <= j < |b| && !b[j].value.Null? ensures Keeps(a, b[j].key) {
        FindCanon(b, j, before);
        var i := FoundIsKept(a, b[j].key, before);
      }
    case _ =>
  }

  lemma {:induction false} CanonPrintable(v: Json, before: KeyOrder)
    requires StrictTotal(before)
    requires FloatPath(v).None?
    ensures Printable(Canon(v, before))
    decreases v, 1
  {
    match v
    case Arr(items) =>
      forall i | 0 <= i < |items| ensures Printable(Canon(items[i], before)) {
        NoFloatInItem(items, i);
        CanonPrintable(items[i], before);
      }
    case Obj(ms) => CanonMembersPrintable(ms, before);
    case _ =>
  }

  lemma NoFloatInItem(items: seq<Json>, i: nat)
    requires FloatInItems(items).None? && i < |items|
    ensures FloatPath(items[i]).None?
  {
    assert items[..i + 1][..i] == items[..i];
    if FloatInItems(items[..i + 1]).Some? {
      FloatInItemsPrefix(items, i + 1);
    }
  }

  lemma {:induction false} CanonMembersPrintable(ms: seq<Member>, before: KeyOrder)
    requires StrictTotal(before)
    requires FloatInMembers(ms).None?
    ensures Printable(Obj(CanonMembers(ms, before)))
    decreases ms, 0
  {
    if ms != [] {
      var m := ms[|ms| - 1];
      var r := CanonMembers(ms[..|ms| - 1], before);
      CanonMembersPrintable(ms[..|ms| - 1], before);
      CanonMembersCanonical(ms[..|ms| - 1], before);
      CanonPrintable(m.value, before);
      PutSorted(r, m.key, Canon(m.value, before), before);
    }
  }

  /**
   * The canonical text determines the value: reading it back gives exactly the canonical value, and
   * two values have the same text if and only if they are the same up to member order and null
   * members. So plans with one canonical text have the same economics.
   */
  lemma CanonicalTextDetermines(v: Json, w: Json, before: KeyOrder)
    requires StrictTotal(before)
    requires WellFormed(v) && WellFormed(w)
    requires CanonicalJson(v, before).Text? && CanonicalJson(w, before).Text?
    ensures Read(CanonicalJson(v, before).text) == Some(Canon(v, before))
    ensures CanonicalJson(v, before).text == CanonicalJson(w, before).text <==> Equivalent(v, w)
  {
    CanonPrintable(v, before);
    CanonPrintable(w, before);
    PrintIsInjective(Canon(v, before), Canon(v, before));
    if CanonicalJson(v, before).text == CanonicalJson(w, before).text {
      PrintIsInjective(Canon(v, before), Canon(w, before));
      CanonEquivalent(v, w, before);
    }
    if Equivalent(v, w) {
      EquivalentCanon(v, w, before);
    }
  }

  // ------------------------------------------------------------------ account version

  /** The value hashed into an account version; none of the four components may be missing. */
  function AccountVersionValue(balances: Option<Json>, positions: Option<Json>, orders: Option<Json>, mode: Option<Json>)
    : Option<Json>
  {
    if balances.None? || positions.None? || orders.None? || mode.None? then None
    else Some(Obj([Member("balances", balances.value), Member("positions", positions.value),
                   Member("open_orders", orders.value), Member("position_mode", mode.value)]))
  }

  /** Objects with one list of distinct keys are equivalent member by member. */
  lemma MemberwiseEquivalent(a: seq<Member>, b: seq<Member>)
    requires |a| == |b| && DistinctKeys(a) && forall i | 0 <= i < |a| :: a[i].key == b[i].key
    requires forall i | 0 <= i < |a| :: Equivalent(a[i].value, b[i].value)
    ensures Equivalent(Obj(a), Obj(b))
  {
    forall i | 0 <= i < |a| && !a[i].value.Null? ensures HasTwin(a[i], b) {
      assert b[i].key == a[i].key && Equivalent(a[i].value, b[i].value);
    }
    forall j | 0 <= j < |b| && !b[j].value.Null? ensures Keeps(a, b[j].key) {
      assert a[j].key == b[j].key && Equivalent(a[j].value, b[j].value);
    }
  }

  lemma EquivalentMemberwise(a: seq<Member>, b: seq<Member>, i: nat)
    requires |a| == |b| && DistinctKeys(a) && forall k | 0 <= k < |a| :: a[k].key == b[k].key
    requires i < |a| && Equivalent(Obj(a), Obj(b))
    ensures Equivalent(a[i].value, b[i].value)
  {
    assert b[i].value.Null? || Keeps(a, b[i].key);
    if !a[i].value.Null? {
      assert HasTwin(a[i], b);
      var j :| 0 <= j < |b| && b[j].key == a[i].key && Equivalent(a[i].value, b[j].value);
      assert a[j].key == a[i].key;
    }
  }

  lemma AccountMembers(a: seq<Json>, v: Json)
    requires |a| == 4 && AccountVersionValue(Some(a[0]), Some(a[1]), Some(a[2]), Some(a[3])) == Some(v)
    ensures v.Obj? && |v.members| == 4 && DistinctKeys(v.members)
    ensures forall i | 0 <= i < 4 :: v.members[i].value == a[i]
    ensures v.members[0].key == "balances" && v.members[1].key == "positions"
    ensures v.members[2].key == "open_orders" && v.members[3].key == "position_mode"
  {
    assert |"balances"| == 8 && |"positions"| == 9 && |"open_orders"| == 11 && |"position_mode"| == 13;
  }

  lemma AccountEquivalent(a: seq<Json>, b: seq<Json>, v: Json, w: Json)
    requires |a| == |b| == 4
    requires AccountVersionValue(Some(a[0]), Some(a[1]), Some(a[2]), Some(a[3])) == Some(v)
    requires AccountVersionValue(Some(b[0]), Some(b[1]), Some(b[2]), Some(b[3])) == Some(w)
    ensures Equivalent(v, w) <==> forall i | 0 <= i < 4 :: Equivalent(a[i], b[i])
  {
    AccountMembers(a, v);
    AccountMembers(b, w);
    if Equivalent(v, w) {
      forall i | 0 <= i < 4 ensures Equivalent(a[i], b[i]) {
        EquivalentMemberwise(v.members, w.members, i);
      }
    }
    if forall i | 0 <= i < 4 :: Equivalent(a[i], b[i]) {
      MemberwiseEquivalent(v.members, w.members);
    }
  }

  /** Account versions have one text exactly when every component is the same up to order and nulls. */
  lemma AccountVersionDetermines(a: seq<Json>, b: seq<Json>, v: Json, w: Json, before: KeyOrder)
    requires StrictTotal(before)
    requires |a| == |b| == 4 && forall i | 0 <= i < 4 :: WellFormed(a[i]) && WellFormed(b[i])
    requires AccountVersionValue(Some(a[0]), Some(a[1]), Some(a[2]), Some(a[3])) == Some(v)
    requires AccountVersionValue(Some(b[0]), Some(b[1]), Some(b[2]), Some(b[3])) == Some(w)
    requires CanonicalJson(v, before).Text? && CanonicalJson(w, before).Text?
    ensures CanonicalJson(v, before).text == CanonicalJson(w, before).text
       <==> forall i | 0 <= i < 4 :: Equivalent(a[i], b[i])
  {
    AccountMembers(a, v);
    AccountMembers(b, w);
    AccountEquivalent(a, b, v, w);
    CanonicalTextDetermines(v, w, before);
  }
}
