/** Which float a refused value is refused for, and what the text of an account version says. */
module CanonicalLaws {
  import opened Wrappers
  import opened Json
  import opened Canonical

  // ------------------------------------------------------------------ the first float

  /** In the order of the walk, the place that `p` leads to in `v` is not after that of `q`. */
  ghost predicate NotAfter(v: Json, p: seq<string>, q: seq<string>)
    decreases |p|
  {
    p == [] || (q != [] && match v
      case Arr(items) =>
        exists i, j | 0 <= i <= j < |items| ::
          p[0] == Digits(i) && q[0] == Digits(j) && (i == j ==> NotAfter(items[i], p[1..], q[1..]))
      case Obj(ms) =>
        exists i, j | 0 <= i <= j < |ms| ::
          p[0] == ms[i].key && q[0] == ms[j].key && (i == j ==> NotAfter(ms[i].value, p[1..], q[1..]))
      case _ => false)
  }

  lemma {:induction false} FirstItem(items: seq<Json>) returns (i: nat)
    requires FloatInItems(items).Some?
    ensures i < |items| && FloatPath(items[i]).Some? && FloatInItems(items) == Some([Digits(i)] + FloatPath(items[i]).value)
    ensures forall k | 0 <= k < i :: FloatPath(items[k]).None?
    decreases |items|
  {
    var n := |items| - 1;
    if FloatInItems(items[..n]).Some? {
      i := FirstItem(items[..n]);
    } else {
      i := n;
      forall k | 0 <= k < n ensures FloatPath(items[k]).None? {
        NoFloatInItem(items[..n], k);
      }
    }
  }

  lemma {:induction false} FirstMember(ms: seq<Member>) returns (i: nat)
    requires FloatInMembers(ms).Some?
    ensures i < |ms| && FloatPath(ms[i].value).Some?
    ensures FloatInMembers(ms) == Some([ms[i].key] + FloatPath(ms[i].value).value)
    ensures forall k | 0 <= k < i :: FloatPath(ms[k].value).None?
    decreases |ms|
  {
    var n := |ms| - 1;
    if FloatInMembers(ms[..n]).Some? {
      i := FirstMember(ms[..n]);
    } else {
      i := n;
      forall k | 0 <= k < n ensures FloatPath(ms[k].value).None? {
        NoFloatInMember(ms[..n], k);
      }
    }
  }

  lemma NoFloatInMember(ms: seq<Member>, i: nat)
    requires FloatInMembers(ms).None? && i < |ms|
    ensures FloatPath(ms[i].value).None?
  {
    assert ms[..i + 1][..i] == ms[..i];
    if FloatInMembers(ms[..i + 1]).Some? {
      FloatInMembersPrefix(ms, i + 1);
    }
  }

  /** The path that a refusal reports leads to the first float in the order of the walk. */
  lemma {:induction false} ReportedIsFirst(v: Json, q: seq<string>)
    requires Leads(v, q)
    ensures FloatPath(v).Some? && Leads(v, FloatPath(v).value) && NotAfter(v, FloatPath(v).value, q)
    decreases |q|
  {
    FloatIsReported(v, q);
    ReportedPathLeads(v);
    var p := FloatPath(v).value;
    if p != [] {
      match v
      case Arr(items) =>
        var j :| 0 <= j < |items| && q[0] == Digits(j) && Leads(items[j], q[1..]);
        var i := FirstItem(items);
        FloatIsReported(items[j], q[1..]);
        if i == j {
          ReportedIsFirst(items[i], q[1..]);
          assert p[1..] == FloatPath(items[i]).value;
        }
        assert i <= j && p[0] == Digits(i) && (i == j ==> NotAfter(items[i], p[1..], q[1..]));
      case Obj(ms) =>
        var j :| 0 <= j < |ms| && q[0] == ms[j].key && Leads(ms[j].value, q[1..]);
        var i := FirstMember(ms);
        FloatIsReported(ms[j].value, q[1..]);
        if i == j {
          ReportedIsFirst(ms[i].value, q[1..]);
          assert p[1..] == FloatPath(ms[i].value).value;
        }
        assert i <= j && p[0] == ms[i].key && (i == j ==> NotAfter(ms[i].value, p[1..], q[1..]));
    }
  }

  // ------------------------------------------------------------------ the text of an account version

  /** The member of this name, absent when it was null. */
  function Kept(v: Json, before: KeyOrder): Option<Json> {
    if v.Null? then None else Some(Canon(v, before))
  }

  lemma {:induction false} NullIsDropped(ms: seq<Member>, i: nat, before: KeyOrder)
    requires StrictTotal(before) && DistinctKeys(ms) && i < |ms|
    ensures Find(CanonMembers(ms, before), ms[i].key) == Kept(ms[i].value, before)
  {
    if !ms[i].value.Null? {
      FindCanon(ms, i, before);
    } else if Find(CanonMembers(ms, before), ms[i].key).Some? {
      var j := FoundIsKept(ms, ms[i].key, before);
    }
  }

  /** No key but these four is found. */
  ghost predicate OnlyAccountKeys(ms: seq<Member>) {
    forall k: string :: Find(ms, k).Some? ==> k in {"balances", "positions", "open_orders", "position_mode"}
  }

  lemma NoOtherKey(ms: seq<Member>, before: KeyOrder)
    requires StrictTotal(before) && DistinctKeys(ms)
    requires forall i | 0 <= i < |ms| :: ms[i].key in {"balances", "positions", "open_orders", "position_mode"}
    ensures OnlyAccountKeys(CanonMembers(ms, before))
  {
    forall k: string | Find(CanonMembers(ms, before), k).Some?
      ensures k in {"balances", "positions", "open_orders", "position_mode"}
    {
      var j := FoundIsKept(ms, k, before);
    }
  }

  /**
   * The text hashed into an account version reads back as an object of the four components under their
   * names, each canonical and absent if it was null, and of nothing else.
   */
  lemma AccountVersionReadsBack(a: seq<Json>, v: Json, before: KeyOrder, ms: seq<Member>)
    requires StrictTotal(before) && |a| == 4 && forall i | 0 <= i < 4 :: WellFormed(a[i])
    requires AccountVersionValue(Some(a[0]), Some(a[1]), Some(a[2]), Some(a[3])) == Some(v)
    requires CanonicalJson(v, before).Text? && ms == CanonMembers(v.members, before)
    ensures Read(CanonicalJson(v, before).text) == Some(Obj(ms))
    ensures Find(ms, "balances") == Kept(a[0], before) && Find(ms, "positions") == Kept(a[1], before)
    ensures Find(ms, "open_orders") == Kept(a[2], before) && Find(ms, "position_mode") == Kept(a[3], before)
    ensures OnlyAccountKeys(ms)
  {
    AccountMembers(a, v);
    CanonicalTextDetermines(v, v, before);
    NullIsDropped(v.members, 0, before);
    NullIsDropped(v.members, 1, before);
    NullIsDropped(v.members, 2, before);
    NullIsDropped(v.members, 3, before);
    NoOtherKey(v.members, before);
  }
}
