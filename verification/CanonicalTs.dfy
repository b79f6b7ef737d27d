/** The TypeScript canonicaliser, the member order of its objects, and when it agrees with Rust. */
module CanonicalTs {
  import opened Wrappers
  import opened Json
  import opened Canonical

  // ------------------------------------------------------------------ key orders in JavaScript

  /** `Array.sort` compares UTF-16 units: astral characters sort as surrogates, below U+E000. */
  function UnitRank(c: char): int {
    var n := c as int;
    if n < 0xD800 then n else if n >= 0x10000 then n - 0x10000 + 0xD800 else n + 0x100000
  }

  predicate UnitBelow(a: string, b: string) {
    b != [] && (a == [] || UnitRank(a[0]) < UnitRank(b[0]) || (a[0] == b[0] && UnitBelow(a[1..], b[1..])))
  }

  /** Array-index keys: the printed form of an integer below 2^32 - 1. */
  predicate IsIndex(key: string) {
    ReadDigits(key).Some? && ReadDigits(key).value < 0xFFFF_FFFF && Digits(ReadDigits(key).value) == key
  }

  /** Enumeration order of an object filled in sorted order: index keys by value, then the rest. */
  predicate JsBefore(a: string, b: string) {
    if IsIndex(a) && IsIndex(b) then ReadDigits(a).value < ReadDigits(b).value
    else if IsIndex(a) || IsIndex(b) then IsIndex(a)
    else UnitBelow(a, b)
  }

  const TS: KeyOrder := (a, b) => JsBefore(a, b)

  lemma {:induction false} UnitBelowTotal(a: string, b: string)
    ensures a == b || UnitBelow(a, b) || UnitBelow(b, a)
    ensures !UnitBelow(a, a)
  {
    if a != [] && b != [] {
      UnitBelowTotal(a[1..], b[1..]);
      assert a == [a[0]] + a[1..] && b == [b[0]] + b[1..];
    } else if a != [] {
      UnitBelowTotal(a[1..], []);
    }
  }

  lemma {:induction false} UnitBelowTransitive(a: string, b: string, c: string)
    requires UnitBelow(a, b) && UnitBelow(b, c)
    ensures UnitBelow(a, c)
  {
    if a != [] && a[0] == b[0] == c[0] {
      UnitBelowTransitive(a[1..], b[1..], c[1..]);
    }
  }

  lemma TsOrderIsTotal()
    ensures StrictTotal(TS)
  {
    forall a: string, b: string ensures !TS(a, a) && (a == b || TS(a, b) || TS(b, a)) {
      UnitBelowTotal(a, b);
    }
    forall a: string, b: string, c: string | TS(a, b) && TS(b, c) ensures TS(a, c) {
      if !IsIndex(a) && !IsIndex(b) && !IsIndex(c) {
        UnitBelowTransitive(a, b, c);
      }
    }
  }

  // ------------------------------------------------------------------ normalize

  ghost predicate UnitSorted(keys: seq<string>) {
    forall i, j | 0 <= i < j < |keys| :: UnitBelow(keys[i], keys[j])
  }

  /** `Object.keys(obj).sort()`. */
  method SortedKeys(ms: seq<Member>) returns (keys: seq<string>)
    requires DistinctKeys(ms)
    ensures UnitSorted(keys) && |keys| == |ms|
    ensures forall k :: k in keys <==> exists i | 0 <= i < |ms| :: ms[i].key == k
  {
    keys := [];
    for n := 0 to |ms|
      invariant UnitSorted(keys) && |keys| == n
      invariant forall k :: k in keys <==> exists i | 0 <= i < n :: ms[i].key == k
    {
      var key := ms[n].key;
      var at := 0;
      while at < |keys| && UnitBelow(keys[at], key)
        invariant at <= |keys| && forall i | 0 <= i < at :: UnitBelow(keys[i], key)
      {
        at := at + 1;
      }
      assert key !in keys;
      if at < |keys| {
        UnitBelowTotal(keys[at], key);
        forall i | at < i < |keys| ensures UnitBelow(key, keys[i]) {
          UnitBelowTransitive(key, keys[at], keys[i]);
        }
      }
      var before := keys;
      keys := keys[..at] + [key] + keys[at..];
      assert forall k :: k in keys <==> k in before || k == key;
    }
  }

  /** The key whose assignment calls the prototype setter of an ordinary object. */
  const PROTO: string := "__proto__"

  /** `out[key] = value` for a key not yet present: index keys find their place, others go last. */
  function JsSet(out: seq<Member>, key: string, value: Json): seq<Member> {
    if key == PROTO then out
    else if IsIndex(key) then Put(out, key, value, TS)
    else out + [Member(key, value)]
  }

  /** What survives the assignments: no object at any depth has a member named `__proto__`. */
  function WithoutProto(v: Json): Json
    decreases v, 1
  {
    match v
    case Arr(items) => Arr(ItemsWithoutProto(items))
    case Obj(ms) => Obj(MembersWithoutProto(ms))
    case _ => v
  }

  function ItemsWithoutProto(items: seq<Json>): (r: seq<Json>)
    ensures |r| == |items| && forall i | 0 <= i < |r| :: r[i] == WithoutProto(items[i])
    decreases items, 0
  {
    if items == [] then [] else ItemsWithoutProto(items[..|items| - 1]) + [WithoutProto(items[|items| - 1])]
  }

  function MembersWithoutProto(ms: seq<Member>): seq<Member>
    decreases ms, 0
  {
    if ms == [] then []
    else
      var m := ms[|ms| - 1];
      var r := MembersWithoutProto(ms[..|ms| - 1]);
      if m.key == PROTO then r else r + [Member(m.key, WithoutProto(m.value))]
  }

  lemma ItemsStep(items: seq<Json>, k: nat)
    requires k < |items|
    ensures CanonItems(ItemsWithoutProto(items[..k + 1]), TS)
         == CanonItems(ItemsWithoutProto(items[..k]), TS) + [Canon(WithoutProto(items[k]), TS)]
    ensures FloatInItems(items[..k + 1]).Some? <==> FloatInItems(items[..k]).Some? || FloatPath(items[k]).Some?
  {
    assert items[..k + 1][..k] == items[..k];
  }

  /** `canonicalJson`; None when it throws on a number that is no integer. */
  function TsText(v: Json): Option<string> {
    if FloatPath(v).Some? then None else Some(Print(Canon(WithoutProto(v), TS)))
  }

  /** The surviving members are the given ones with another key, in the same order. */
  lemma {:induction false} MemberSurvives(ms: seq<Member>, i: nat) returns (j: nat)
    requires i < |ms| && ms[i].key != PROTO
    ensures j < |MembersWithoutProto(ms)| && MembersWithoutProto(ms)[j] == Member(ms[i].key, WithoutProto(ms[i].value))
  {
    var n := |ms| - 1;
    if i == n {
      j := |MembersWithoutProto(ms)| - 1;
    } else {
      j := MemberSurvives(ms[..n], i);
    }
  }

  lemma {:induction false} SurvivorIsMember(ms: seq<Member>, j: nat) returns (i: nat)
    requires j < |MembersWithoutProto(ms)|
    ensures i < |ms| && ms[i].key != PROTO && MembersWithoutProto(ms)[j] == Member(ms[i].key, WithoutProto(ms[i].value))
  {
    var n := |ms| - 1;
    if j < |MembersWithoutProto(ms[..n])| {
      i := SurvivorIsMember(ms[..n], j);
    } else {
      i := n;
    }
  }

  lemma {:induction false} SurvivorsDistinct(ms: seq<Member>)
    requires DistinctKeys(ms)
    ensures DistinctKeys(MembersWithoutProto(ms))
  {
    if ms != [] {
      var init := ms[..|ms| - 1];
      SurvivorsDistinct(init);
      forall j | 0 <= j < |MembersWithoutProto(init)|
        ensures MembersWithoutProto(init)[j].key != ms[|ms| - 1].key
      {
        var i := SurvivorIsMember(init, j);
        assert ms[i].key == init[i].key;
      }
    }
  }

  lemma {:induction false} WithoutProtoWellFormed(v: Json)
    requires WellFormed(v)
    ensures WellFormed(WithoutProto(v))
  {
    match v
    case Arr(items) =>
      forall i | 0 <= i < |items| ensures WellFormed(ItemsWithoutProto(items)[i]) {
        WithoutProtoWellFormed(items[i]);
      }
    case Obj(ms) =>
      SurvivorsDistinct(ms);
      forall j | 0 <= j < |MembersWithoutProto(ms)| ensures WellFormed(MembersWithoutProto(ms)[j].value) {
        var i := SurvivorIsMember(ms, j);
        WithoutProtoWellFormed(ms[i].value);
      }
    case _ =>
  }

  /** Dropping members removes floats only. */
  lemma {:induction false} WithoutProtoNoFloat(v: Json)
    requires FloatPath(v).None?
    ensures FloatPath(WithoutProto(v)).None? && (WithoutProto(v).Null? <==> v.Null?)
  {
    match v
    case Arr(items) =>
      forall i | 0 <= i < |items| ensures FloatPath(ItemsWithoutProto(items)[i]).None? {
        NoFloatInItem(items, i);
        WithoutProtoNoFloat(items[i]);
      }
      NoFloatInItems(ItemsWithoutProto(items));
    case Obj(ms) =>
      forall j | 0 <= j < |MembersWithoutProto(ms)| ensures FloatPath(MembersWithoutProto(ms)[j].value).None? {
        var i := SurvivorIsMember(ms, j);
        if FloatPath(ms[i].value).Some? {
          FloatInMember(ms, i);
        }
        WithoutProtoNoFloat(ms[i].value);
      }
      NoFloatInMembers(MembersWithoutProto(ms));
    case _ =>
  }

  /** A key looked up in what survives, canonically. */
  lemma SurvivorFound(ms: seq<Member>, i: nat)
    requires StrictTotal(TS) && DistinctKeys(ms) && i < |ms| && !ms[i].value.Null? && ms[i].key != PROTO
    ensures Find(CanonMembers(MembersWithoutProto(ms), TS), ms[i].key) == Some(Canon(WithoutProto(ms[i].value), TS))
  {
    SurvivorsDistinct(ms);
    var j := MemberSurvives(ms, i);
    FindCanon(MembersWithoutProto(ms), j, TS);
  }

  lemma FoundSurvives(ms: seq<Member>, k: string) returns (i: nat)
    requires StrictTotal(TS) && DistinctKeys(ms) && Find(CanonMembers(MembersWithoutProto(ms), TS), k).Some?
    ensures i < |ms| && ms[i].key == k && k != PROTO && !ms[i].value.Null?
    ensures Find(CanonMembers(MembersWithoutProto(ms), TS), k) == Some(Canon(WithoutProto(ms[i].value), TS))
  {
    SurvivorsDistinct(ms);
    var j := FoundIsKept(MembersWithoutProto(ms), k, TS);
    i := SurvivorIsMember(ms, j);
  }

  /** Assigning in sorted order is insertion by enumeration order. */
  lemma JsSetIsPut(out: seq<Member>, key: string, value: Json)
    requires key != PROTO && forall i | 0 <= i < |out| :: !IsIndex(out[i].key) ==> UnitBelow(out[i].key, key)
    ensures JsSet(out, key, value) == Put(out, key, value, TS)
  {
    TsOrderIsTotal();
    if !IsIndex(key) {
      PutLast(out, key, value, TS);
    }
  }

  lemma SetKeepsLookups(out: seq<Member>, key: string, value: Json)
    requires StrictTotal(TS) && Sorted(out, TS) && JsSet(out, key, value) == Put(out, key, value, TS)
    ensures Sorted(JsSet(out, key, value), TS)
    ensures forall k: string :: Find(JsSet(out, key, value), k) == if k == key then Some(value) else Find(out, k)
    ensures forall i | 0 <= i < |JsSet(out, key, value)| ::
      JsSet(out, key, value)[i].key == key || JsSet(out, key, value)[i] in out
  {
    PutSorted(out, key, value, TS);
    forall k: string ensures Find(JsSet(out, key, value), k) == if k == key then Some(value) else Find(out, k) {
      PutFind(out, key, value, k, TS);
    }
  }

  datatype Normalized = Value(value: Json) | NotInteger

  class Normalizer {
    /** `canonicalJson`: the text of what `normalize` leaves. */
    method CanonicalText(v: Json) returns (r: Option<string>)
      requires WellFormed(v)
      ensures r == TsText(v)
    {
      var n := Normalize(v);
      r := if n.NotInteger? then None else Some(Print(n.value));
    }

    method Normalize(v: Json) returns (r: Normalized)
      requires WellFormed(v)
      ensures r.NotInteger? <==> FloatPath(v).Some?
      ensures r.Value? ==> r.value == Canon(WithoutProto(v), TS)
      decreases v, 1
    {
      match v
      case Arr(items) => r := NormalizeItems(items);
      case Obj(ms) => r := NormalizeObject(ms);
      case Float(_) => r := NotInteger;
      case _ => r := Value(v);
    }

    method NormalizeItems(items: seq<Json>) returns (r: Normalized)
      requires WellFormed(Arr(items))
      ensures r.NotInteger? <==> FloatInItems(items).Some?
      ensures r.Value? ==> r.value == Arr(CanonItems(ItemsWithoutProto(items), TS))
      decreases Arr(items), 0
    {
      var out: seq<Json> := [];
      for k := 0 to |items|
        invariant out == CanonItems(ItemsWithoutProto(items[..k]), TS) && FloatInItems(items[..k]).None?
      {
        ItemsStep(items, k);
        var child := Normalize(items[k]);
        if child.NotInteger? {
          FloatInItemsPrefix(items, k + 1);
          return NotInteger;
        }
        out := out + [child.value];
      }
      assert items[..|items|] == items;
      r := Value(Arr(out));
    }

    method NormalizeObject(ms: seq<Member>) returns (r: Normalized)
      requires WellFormed(Obj(ms))
      ensures r.NotInteger? <==> FloatInMembers(ms).Some?
      ensures r.Value? ==> r.value == Obj(CanonMembers(MembersWithoutProto(ms), TS))
      decreases Obj(ms), 0
    {
      var keys := SortedKeys(ms);
      var out: seq<Member> := [];
      for n := 0 to |keys|
        invariant Mirrors(out, ms, keys[..n])
        invariant NoFloatUnder(ms, keys[..n])
      {
        assert keys[n] in keys;
        var i := MemberOf(ms, keys[n]);
        assert keys[..n + 1] == keys[..n] + [keys[n]];
        if ms[i].value.Null? {
          MirrorsDropped(out, ms, keys[..n], i);
          NoFloatStep(ms, keys[..n], i);
        } else {
          var child := Normalize(ms[i].value);
          if child.NotInteger? {
            FloatInMember(ms, i);
            return NotInteger;
          }
          MirrorsSet(out, ms, keys[..n], i);
          NoFloatStep(ms, keys[..n], i);
          out := JsSet(out, keys[n], child.value);
        }
      }
      assert keys[..|keys|] == keys;
      NoFloatInMembers(ms);
      MirrorsAll(out, ms, keys);
      r := Value(Obj(out));
    }
  }

  ghost predicate NoFloatUnder(ms: seq<Member>, keys: seq<string>) {
    forall i | 0 <= i < |ms| && ms[i].key in keys :: FloatPath(ms[i].value).None?
  }

  lemma NoFloatStep(ms: seq<Member>, keys: seq<string>, i: nat)
    requires DistinctKeys(ms) && i < |ms| && NoFloatUnder(ms, keys) && FloatPath(ms[i].value).None?
    ensures NoFloatUnder(ms, keys + [ms[i].key])
  {
    var more := keys + [ms[i].key];
    forall j | 0 <= j < |ms| && ms[j].key in more ensures FloatPath(ms[j].value).None? {
      assert ms[j].key in keys || ms[j].key == ms[i].key;
    }
  }

  /** `out` holds, in enumeration order, what the canonical members hold under these keys. */
  ghost predicate Mirrors(out: seq<Member>, ms: seq<Member>, keys: seq<string>) {
    && Sorted(out, TS)
    && (forall i | 0 <= i < |out| :: out[i].key in keys)
    && (forall k: string :: Find(out, k) == if k in keys then Find(CanonMembers(MembersWithoutProto(ms), TS), k) else None)
  }

  lemma MirrorsDropped(out: seq<Member>, ms: seq<Member>, keys: seq<string>, i: nat)
    requires WellFormed(Obj(ms)) && i < |ms| && (ms[i].value.Null? || ms[i].key == PROTO) && Mirrors(out, ms, keys)
    ensures Mirrors(out, ms, keys + [ms[i].key])
  {
    TsOrderIsTotal();
    IsDropped(ms, i);
    var more := keys + [ms[i].key];
    forall k: string ensures Find(out, k) == if k in more then Find(CanonMembers(MembersWithoutProto(ms), TS), k) else None {
      assert k in more <==> k in keys || k == ms[i].key;
    }
  }

  lemma MirrorsSet(out: seq<Member>, ms: seq<Member>, keys: seq<string>, i: nat)
    requires WellFormed(Obj(ms)) && i < |ms| && !ms[i].value.Null? && FloatPath(ms[i].value).None?
    requires Mirrors(out, ms, keys) && forall k | 0 <= k < |keys| :: UnitBelow(keys[k], ms[i].key)
    ensures Mirrors(JsSet(out, ms[i].key, Canon(WithoutProto(ms[i].value), TS)), ms, keys + [ms[i].key])
  {
    if ms[i].key == PROTO {
      MirrorsDropped(out, ms, keys, i);
    } else {
      MirrorsAssigned(out, ms, keys, i);
    }
  }

  lemma MirrorsAssigned(out: seq<Member>, ms: seq<Member>, keys: seq<string>, i: nat)
    requires WellFormed(Obj(ms)) && i < |ms| && !ms[i].value.Null? && ms[i].key != PROTO
    requires Mirrors(out, ms, keys) && forall k | 0 <= k < |keys| :: UnitBelow(keys[k], ms[i].key)
    ensures Mirrors(JsSet(out, ms[i].key, Canon(WithoutProto(ms[i].value), TS)), ms, keys + [ms[i].key])
  {
    TsOrderIsTotal();
    var key, value := ms[i].key, Canon(WithoutProto(ms[i].value), TS);
    SurvivorFound(ms, i);
    JsSetIsPut(out, key, value);
    SetKeepsLookups(out, key, value);
    var after, more := JsSet(out, key, value), keys + [key];
    forall k: string ensures Find(after, k) == if k in more then Find(CanonMembers(MembersWithoutProto(ms), TS), k) else None {
      assert k in more <==> k in keys || k == key;
    }
    forall j | 0 <= j < |after| ensures after[j].key in more {
      assert after[j].key == key || after[j] in out;
    }
  }

  lemma MirrorsAll(out: seq<Member>, ms: seq<Member>, keys: seq<string>)
    requires WellFormed(Obj(ms)) && Mirrors(out, ms, keys)
    requires forall i | 0 <= i < |ms| :: ms[i].key in keys
    ensures out == CanonMembers(MembersWithoutProto(ms), TS)
  {
    TsOrderIsTotal();
    var c := CanonMembers(MembersWithoutProto(ms), TS);
    forall k: string ensures Find(out, k) == Find(c, k) {
      if Find(c, k).Some? {
        var i := FoundSurvives(ms, k);
      }
    }
    CanonMembersCanonical(MembersWithoutProto(ms), TS);
    SortedUnique(out, c, TS);
  }

  /** `obj[key]`. */
  method MemberOf(ms: seq<Member>, key: string) returns (i: nat)
    requires exists k | 0 <= k < |ms| :: ms[k].key == key
    ensures i < |ms| && ms[i].key == key
  {
    i := 0;
    while ms[i].key != key
      invariant i < |ms| && forall k | 0 <= k < i :: ms[k].key != key
      decreases |ms| - i
    {
      i := i + 1;
    }
  }

  lemma FoundIsThis(ms: seq<Member>, i: nat)
    requires StrictTotal(TS) && DistinctKeys(ms) && i < |ms|
    requires Find(CanonMembers(MembersWithoutProto(ms), TS), ms[i].key).Some?
    ensures ms[i].key != PROTO && !ms[i].value.Null?
    ensures Find(CanonMembers(MembersWithoutProto(ms), TS), ms[i].key) == Some(Canon(WithoutProto(ms[i].value), TS))
  {
    var j := FoundSurvives(ms, ms[i].key);
    assert i == j;
  }

  lemma IsDropped(ms: seq<Member>, i: nat)
    requires StrictTotal(TS) && DistinctKeys(ms) && i < |ms| && (ms[i].value.Null? || ms[i].key == PROTO)
    ensures Find(CanonMembers(MembersWithoutProto(ms), TS), ms[i].key).None?
  {
    if Find(CanonMembers(MembersWithoutProto(ms), TS), ms[i].key).Some? {
      FoundIsThis(ms, i);
    }
  }

  lemma FloatInMember(ms: seq<Member>, i: nat)
    requires i < |ms| && FloatPath(ms[i].value).Some?
    ensures FloatInMembers(ms).Some?
  {
    assert ms[..i + 1][..i] == ms[..i];
    FloatInMembersPrefix(ms, i + 1);
  }

  lemma {:induction false} NoFloatInMembers(ms: seq<Member>)
    requires forall i | 0 <= i < |ms| :: FloatPath(ms[i].value).None?
    ensures FloatInMembers(ms).None?
  {
    if ms != [] {
      NoFloatInMembers(ms[..|ms| - 1]);
    }
  }

  lemma {:induction false} NoFloatInItems(items: seq<Json>)
    requires forall i | 0 <= i < |items| :: FloatPath(items[i]).None?
    ensures FloatInItems(items).None?
  {
    if items != [] {
      NoFloatInItems(items[..|items| - 1]);
    }
  }

  // ------------------------------------------------------------------ the lost key

  /** No object at any depth keeps a member named `__proto__`. */
  ghost predicate NoProto(v: Json) {
    match v
    case Arr(items) => forall i | 0 <= i < |items| :: NoProto(items[i])
    case Obj(ms) => forall i | 0 <= i < |ms| && !ms[i].value.Null? :: ms[i].key != PROTO && NoProto(ms[i].value)
    case _ => true
  }

  lemma {:induction false} NoProtoSameCanon(v: Json)
    requires NoProto(v)
    ensures Canon(WithoutProto(v), TS) == Canon(v, TS)
    decreases v, 1
  {
    match v
    case Arr(items) =>
      forall i | 0 <= i < |items| ensures Canon(WithoutProto(items[i]), TS) == Canon(items[i], TS) {
        NoProtoSameCanon(items[i]);
      }
      assert CanonItems(ItemsWithoutProto(items), TS) == CanonItems(items, TS);
    case Obj(ms) => NoProtoSameMembers(ms);
    case _ =>
  }

  lemma {:induction false} NoProtoSameMembers(ms: seq<Member>)
    requires NoProto(Obj(ms))
    ensures CanonMembers(MembersWithoutProto(ms), TS) == CanonMembers(ms, TS)
    decreases ms, 0
  {
    if ms != [] {
      var init, m := ms[..|ms| - 1], ms[|ms| - 1];
      var r := MembersWithoutProto(init);
      NoProtoSameMembers(init);
      if m.key != PROTO {
        assert MembersWithoutProto(ms)[..|r|] == r;
        if !m.value.Null? {
          NoProtoSameCanon(m.value);
        }
      }
    }
  }

  // ------------------------------------------------------------------ agreement of the two sides

  /** On every two kept keys of one object, at any depth, both languages order them alike. */
  ghost predicate OrdersAgree(v: Json) {
    match v
    case Arr(items) => forall i | 0 <= i < |items| :: OrdersAgree(items[i])
    case Obj(ms) =>
      && (forall i | 0 <= i < |ms| && !ms[i].value.Null? :: OrdersAgree(ms[i].value))
      && (forall i, j | 0 <= i < |ms| && 0 <= j < |ms| && !ms[i].value.Null? && !ms[j].value.Null? ::
            JsBefore(ms[i].key, ms[j].key) <==> Below(ms[i].key, ms[j].key))
    case _ => true
  }

  lemma {:induction false} AgreeingOrdersSameCanon(v: Json)
    requires WellFormed(v) && OrdersAgree(v)
    ensures Canon(v, RUST) == Canon(v, TS)
    decreases v, 2
  {
    match v
    case Arr(items) =>
      forall i | 0 <= i < |items| ensures Canon(items[i], RUST) == Canon(items[i], TS) {
        AgreeingOrdersSameCanon(items[i]);
      }
      assert CanonItems(items, RUST) == CanonItems(items, TS);
    case Obj(ms) => AgreeingMembers(ms);
    case _ =>
  }

  lemma {:induction false} AgreeingMembers(ms: seq<Member>)
    requires WellFormed(Obj(ms)) && OrdersAgree(Obj(ms))
    ensures CanonMembers(ms, RUST) == CanonMembers(ms, TS)
    decreases Obj(ms), 1
  {
    RustOrderIsTotal();
    TsOrderIsTotal();
    var a, b := CanonMembers(ms, RUST), CanonMembers(ms, TS);
    CanonMembersCanonical(ms, RUST);
    CanonMembersCanonical(ms, TS);
    forall k: string ensures Find(a, k) == Find(b, k) {
      SameLookup(ms, k);
    }
    forall i, j | 0 <= i < j < |a| ensures TS(a[i].key, a[j].key) {
      var m := KeptAt(ms, i, RUST);
      var n := KeptAt(ms, j, RUST);
      assert RUST(ms[m].key, ms[n].key);
    }
    SortedUnique(a, b, TS);
  }

  /** Every canonical member stands for a kept member with its key. */
  lemma KeptAt(ms: seq<Member>, i: nat, before: KeyOrder) returns (m: nat)
    requires StrictTotal(before) && DistinctKeys(ms) && i < |CanonMembers(ms, before)|
    ensures m < |ms| && !ms[m].value.Null? && ms[m].key == CanonMembers(ms, before)[i].key
    ensures CanonMembers(ms, before)[i].value == Canon(ms[m].value, before)
  {
    var c := CanonMembers(ms, before);
    CanonMembersCanonical(ms, before);
    FindAt(c, i, before);
    m := FoundIsKept(ms, c[i].key, before);
  }

  lemma {:induction false} FindAt(ms: seq<Member>, i: nat, before: KeyOrder)
    requires StrictTotal(before) && Sorted(ms, before) && i < |ms|
    ensures Find(ms, ms[i].key) == Some(ms[i].value)
  {
    if i > 0 {
      assert before(ms[0].key, ms[i].key);
      FindAt(ms[1..], i - 1, before);
    }
  }

  lemma {:induction false} SameLookup(ms: seq<Member>, k: string)
    requires WellFormed(Obj(ms)) && OrdersAgree(Obj(ms)) && StrictTotal(RUST) && StrictTotal(TS)
    ensures Find(CanonMembers(ms, RUST), k) == Find(CanonMembers(ms, TS), k)
    decreases Obj(ms), 0
  {
    if Find(CanonMembers(ms, RUST), k).Some? {
      var i := FoundIsKept(ms, k, RUST);
      FindCanon(ms, i, TS);
      AgreeingOrdersSameCanon(ms[i].value);
    } else if Find(CanonMembers(ms, TS), k).Some? {
      var i := FoundIsKept(ms, k, TS);
      FindCanon(ms, i, RUST);
    }
  }

  lemma {:induction false} SameCanonOrdersAgree(v: Json)
    requires WellFormed(v) && Canon(v, RUST) == Canon(v, TS)
    ensures OrdersAgree(v)
  {
    match v
    case Arr(items) =>
      forall i | 0 <= i < |items| ensures OrdersAgree(items[i]) {
        assert CanonItems(items, RUST)[i] == CanonItems(items, TS)[i];
        SameCanonOrdersAgree(items[i]);
      }
    case Obj(ms) =>
      RustOrderIsTotal();
      TsOrderIsTotal();
      forall i | 0 <= i < |ms| && !ms[i].value.Null? ensures OrdersAgree(ms[i].value) {
        FindCanon(ms, i, RUST);
        FindCanon(ms, i, TS);
        SameCanonOrdersAgree(ms[i].value);
      }
      forall i, j | 0 <= i < |ms| && 0 <= j < |ms| && !ms[i].value.Null? && !ms[j].value.Null?
        ensures JsBefore(ms[i].key, ms[j].key) <==> Below(ms[i].key, ms[j].key)
      {
        SameOrderOnKept(ms, i, j);
      }
    case _ =>
  }

  /** In a list sorted both ways, both orders say which of two keys comes first. */
  lemma SortedBothWays(c: seq<Member>, a: string, b: string)
    requires StrictTotal(RUST) && StrictTotal(TS) && Sorted(c, RUST) && Sorted(c, TS)
    requires Find(c, a).Some? && Find(c, b).Some?
    ensures TS(a, b) <==> RUST(a, b)
  {
    FindIs(c, a);
    FindIs(c, b);
    var x :| 0 <= x < |c| && c[x].key == a;
    var y :| 0 <= y < |c| && c[y].key == b;
    if x < y {
      assert RUST(c[x].key, c[y].key) && TS(c[x].key, c[y].key);
    } else if y < x {
      assert RUST(c[y].key, c[x].key) && TS(c[y].key, c[x].key);
      assert RUST(a, b) ==> RUST(a, a);
      assert TS(a, b) ==> TS(a, a);
    }
  }

  lemma SameOrderOnKept(ms: seq<Member>, i: nat, j: nat)
    requires StrictTotal(RUST) && StrictTotal(TS) && DistinctKeys(ms) && CanonMembers(ms, RUST) == CanonMembers(ms, TS)
    requires i < |ms| && j < |ms| && !ms[i].value.Null? && !ms[j].value.Null?
    ensures TS(ms[i].key, ms[j].key) <==> RUST(ms[i].key, ms[j].key)
  {
    CanonMembersCanonical(ms, RUST);
    CanonMembersCanonical(ms, TS);
    FindCanon(ms, i, RUST);
    FindCanon(ms, j, RUST);
    SortedBothWays(CanonMembers(ms, RUST), ms[i].key, ms[j].key);
  }

  lemma SameMemberNoProto(ms: seq<Member>, i: nat)
    requires StrictTotal(RUST) && StrictTotal(TS) && DistinctKeys(ms) && i < |ms| && !ms[i].value.Null?
    requires CanonMembers(MembersWithoutProto(ms), TS) == CanonMembers(ms, RUST)
    ensures ms[i].key != PROTO && Canon(WithoutProto(ms[i].value), TS) == Canon(ms[i].value, RUST)
  {
    FindCanon(ms, i, RUST);
    FoundIsThis(ms, i);
  }

  /** If both sides print one value, nothing was lost on the way. */
  lemma {:induction false} SameCanonNoProto(v: Json)
    requires WellFormed(v) && Canon(WithoutProto(v), TS) == Canon(v, RUST)
    ensures NoProto(v)
  {
    match v
    case Arr(items) =>
      forall i | 0 <= i < |items| ensures NoProto(items[i]) {
        assert CanonItems(ItemsWithoutProto(items), TS)[i] == CanonItems(items, RUST)[i];
        SameCanonNoProto(items[i]);
      }
    case Obj(ms) =>
      RustOrderIsTotal();
      TsOrderIsTotal();
      forall i | 0 <= i < |ms| && !ms[i].value.Null? ensures ms[i].key != PROTO && NoProto(ms[i].value) {
        SameMemberNoProto(ms, i);
        SameCanonNoProto(ms[i].value);
      }
    case _ =>
  }

  /** Both sides fail, or both give the same text. */
  predicate SidesAgree(v: Json) {
    match CanonicalJson(v, RUST)
    case FloatNotAllowed(_) => TsText(v).None?
    case Text(text) => TsText(v) == Some(text)
  }

  /**
   * The Rust and TypeScript sides agree if and only if they fail on a float, or no object keeps a member
   * named `__proto__` and none holds two kept keys that the languages order differently.
   */
  lemma TextsAgreeExactly(v: Json)
    requires WellFormed(v)
    ensures SidesAgree(v) <==> FloatPath(v).Some? || (NoProto(v) && OrdersAgree(v))
  {
    if FloatPath(v).None? {
      RustOrderIsTotal();
      TsOrderIsTotal();
      WithoutProtoNoFloat(v);
      CanonPrintable(v, RUST);
      CanonPrintable(WithoutProto(v), TS);
      if SidesAgree(v) {
        PrintIsInjective(Canon(v, RUST), Canon(WithoutProto(v), TS));
        SameCanonNoProto(v);
        NoProtoSameCanon(v);
        SameCanonOrdersAgree(v);
      }
      if NoProto(v) && OrdersAgree(v) {
        NoProtoSameCanon(v);
        AgreeingOrdersSameCanon(v);
      }
    }
  }

  /**
   * Two values without floats have one TypeScript text if and only if they are the same up to member
   * order, null members and members named `__proto__`.
   */
  lemma TsTextDetermines(v: Json, w: Json)
    requires WellFormed(v) && WellFormed(w) && FloatPath(v).None? && FloatPath(w).None?
    ensures TsText(v) == TsText(w) <==> Equivalent(WithoutProto(v), WithoutProto(w))
  {
    TsOrderIsTotal();
    WithoutProtoWellFormed(v);
    WithoutProtoWellFormed(w);
    WithoutProtoNoFloat(v);
    WithoutProtoNoFloat(w);
    CanonicalTextDetermines(WithoutProto(v), WithoutProto(w), TS);
  }

  /** Where no member is lost, the TypeScript text determines the value as the Rust text does. */
  lemma NoProtoTextDetermines(v: Json, w: Json)
    requires WellFormed(v) && WellFormed(w) && FloatPath(v).None? && FloatPath(w).None? && NoProto(v) && NoProto(w)
    ensures TsText(v) == TsText(w) <==> Equivalent(v, w)
  {
    TsOrderIsTotal();
    NoProtoSameCanon(v);
    NoProtoSameCanon(w);
    CanonicalTextDetermines(v, w, TS);
  }

  // ------------------------------------------------------------------ plain keys

  /** Not a printed integer, not `__proto__`, and no character beyond U+FFFF. */
  predicate PlainKey(key: string) {
    !IsIndex(key) && key != PROTO && forall k | 0 <= k < |key| :: key[k] as int <= 0xFFFF
  }

  /** Every key an object keeps is plain, at any depth. */
  ghost predicate PlainKeys(v: Json) {
    match v
    case Arr(items) => forall i | 0 <= i < |items| :: PlainKeys(items[i])
    case Obj(ms) => forall i | 0 <= i < |ms| && !ms[i].value.Null? :: PlainKey(ms[i].key) && PlainKeys(ms[i].value)
    case _ => true
  }

  /** Values with plain keys have one outcome on both sides. */
  lemma PlainKeysAgree(v: Json)
    requires WellFormed(v) && PlainKeys(v)
    ensures SidesAgree(v)
  {
    PlainKeysOrdersAgree(v);
    TextsAgreeExactly(v);
  }

  lemma {:induction false} PlainKeysOrdersAgree(v: Json)
    requires PlainKeys(v)
    ensures NoProto(v) && OrdersAgree(v)
  {
    match v
    case Arr(items) =>
      forall i | 0 <= i < |items| ensures NoProto(items[i]) && OrdersAgree(items[i]) {
        PlainKeysOrdersAgree(items[i]);
      }
    case Obj(ms) =>
      forall i | 0 <= i < |ms| && !ms[i].value.Null?
        ensures ms[i].key != PROTO && NoProto(ms[i].value) && OrdersAgree(ms[i].value)
      {
        PlainKeysOrdersAgree(ms[i].value);
      }
      forall i, j | 0 <= i < |ms| && 0 <= j < |ms| && !ms[i].value.Null? && !ms[j].value.Null?
        ensures JsBefore(ms[i].key, ms[j].key) <==> Below(ms[i].key, ms[j].key)
      {
        UnitBelowIsBelow(ms[i].key, ms[j].key);
      }
    case _ =>
  }

  /** Up to U+FFFF the UTF-16 units of a string are its code points. */
  lemma {:induction false} UnitBelowIsBelow(a: string, b: string)
    requires forall k | 0 <= k < |a| :: a[k] as int <= 0xFFFF
    requires forall k | 0 <= k < |b| :: b[k] as int <= 0xFFFF
    ensures UnitBelow(a, b) <==> Below(a, b)
  {
    if a != [] && b != [] {
      UnitBelowIsBelow(a[1..], b[1..]);
    }
  }

  // ------------------------------------------------------------------ where the sides part

  /** Printed-integer keys: the object {"9":true,"10":true} has two different texts. */
  lemma IndexKeysDiffer(v: Json)
    requires v == Obj([Member("9", Bool(true)), Member("10", Bool(true))])
    ensures !SidesAgree(v)
  {
    assert "10"[..1] == "1" && ReadDigits("1") == Some(1);
    assert IsIndex("9") && IsIndex("10") && ReadDigits("9") == Some(9) && ReadDigits("10") == Some(10);
    DisorderedPairDiffers(v);
  }

  /** Characters beyond U+FFFF: keys U+1F600 and U+FFFD are ordered differently. */
  lemma AstralKeysDiffer(v: Json)
    requires v == Obj([Member("\U{1F600}", Bool(true)), Member("\U{FFFD}", Bool(true))])
    ensures !SidesAgree(v)
  {
    DisorderedPairDiffers(v);
  }

  lemma DisorderedPairDiffers(v: Json)
    requires v.Obj? && |v.members| == 2 && v.members[0].value == v.members[1].value == Bool(true)
    requires v.members[0].key != v.members[1].key
    requires JsBefore(v.members[0].key, v.members[1].key) && !Below(v.members[0].key, v.members[1].key)
    ensures !SidesAgree(v)
  {
    NoFloatInMembers(v.members);
    TextsAgreeExactly(v);
  }

  /**
   * The member `__proto__`: the object holding only it has the text of the empty object on the
   * TypeScript side and a text of its own on the Rust side, whatever its value.
   */
  lemma ProtoIsLost(v: Json, value: Json)
    requires v == Obj([Member(PROTO, value)]) && WellFormed(v) && FloatPath(v).None?
    ensures TsText(v) == TsText(Obj([])) == Some("{}")
    ensures SidesAgree(v) <==> value.Null?
  {
    var ms := v.members;
    assert ms[..0] == [];
    assert MembersWithoutProto(ms) == [];
    assert WithoutProto(v) == Obj([]) && Print(Obj([])) == "{}";
    assert FloatPath(Obj([])).None? && CanonMembers([], TS) == [];
    TextsAgreeExactly(v);
    assert ms[0].key == PROTO && ms[0].value == value;
  }
}
