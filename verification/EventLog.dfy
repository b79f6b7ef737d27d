/** The append-only event table of execd and the paged query over it. */
module EventLog {
  /** One row: the number assigned by the insert, and everything else the event carries. */
  datatype Event<+B> = Event(number: nat, body: B)

  /** Rows are numbered 1, 2, 3, ... in insertion order. */
  ghost predicate WellNumbered<B>(log: seq<Event<B>>) {
    forall i | 0 <= i < |log| :: log[i].number == i + 1
  }

  /** `e` is the logged event of its number. */
  ghost predicate Logged<B>(log: seq<Event<B>>, e: Event<B>) {
    0 < e.number <= |log| && log[e.number - 1] == e
  }

  /** The entries numbered `after + 1 .. upTo`, or nothing when there are none. */
  function Slice<B>(log: seq<Event<B>>, after: nat, upTo: nat): seq<Event<B>> {
    if after <= upTo <= |log| then log[after..upTo] else []
  }

  function Min(a: nat, b: nat): nat { if a <= b then a else b }

  function Max(a: nat, b: nat): nat { if a <= b then b else a }

  /** `WHERE seq > since ORDER BY seq LIMIT limit`, as a scan over the rows. */
  function EventsSince<B>(log: seq<Event<B>>, since: nat, limit: nat): seq<Event<B>> {
    if log == [] || limit == 0 then []
    else if log[0].number > since then [log[0]] + EventsSince(log[1..], since, limit - 1)
    else EventsSince(log[1..], since, limit)
  }

  /** From the first wanted row on, the scan takes rows up to the limit. */
  lemma {:induction false} ScanTakes<B>(log: seq<Event<B>>, i: nat, since: nat, limit: nat)
    requires WellNumbered(log) && since <= i <= |log|
    ensures EventsSince(log[i..], since, limit) == log[i..Min(i + limit, |log|)]
    decreases |log| - i
  {
    if i < |log| && limit > 0 {
      assert log[i..][1..] == log[i + 1..];
      ScanTakes(log, i + 1, since, limit - 1);
    }
  }

  /** Before the first wanted row the scan only skips. */
  lemma {:induction false} ScanSkips<B>(log: seq<Event<B>>, i: nat, since: nat, limit: nat)
    requires WellNumbered(log) && i <= since <= |log|
    ensures EventsSince(log[i..], since, limit) == EventsSince(log[since..], since, limit)
    decreases since - i
  {
    if i < since && limit > 0 {
      assert log[i..][1..] == log[i + 1..];
      ScanSkips(log, i + 1, since, limit);
    }
  }

  lemma {:induction false} ScanFindsNone<B>(log: seq<Event<B>>, i: nat, since: nat, limit: nat)
    requires WellNumbered(log) && i <= |log| <= since
    ensures EventsSince(log[i..], since, limit) == []
    decreases |log| - i
  {
    if i < |log| && limit > 0 {
      assert log[i..][1..] == log[i + 1..];
      ScanFindsNone(log, i + 1, since, limit);
    }
  }

  /** On a well-numbered log the page is the slice right after `since`. */
  lemma EventsSinceIsSlice<B>(log: seq<Event<B>>, since: nat, limit: nat)
    requires WellNumbered(log)
    ensures EventsSince(log, since, limit) == Slice(log, since, Min(since + limit, |log|))
  {
    assert log[0..] == log;
    if since < |log| {
      ScanSkips(log, 0, since, limit);
      ScanTakes(log, since, since, limit);
    } else {
      ScanFindsNone(log, 0, since, limit);
    }
  }

  lemma SliceExtends<B>(log: seq<Event<B>>, more: seq<Event<B>>, after: nat, upTo: nat)
    requires upTo <= |log| || upTo <= after
    ensures Slice(log + more, after, upTo) == Slice(log, after, upTo)
  {
  }
}
