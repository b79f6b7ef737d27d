/** A run from the start in which one number too many waits for publication and an event is lost for good. */
module DeliveryLoss {
  import opened EventLog
  import opened Delivery
  import opened DeliveryBounds

  // ------------------------------------------------------------------ joining runs

  lemma {:induction false} RunsJoin<B>(s: System<B>, a: seq<Step<B>>, u: System<B>, b: seq<Step<B>>, t: System<B>)
    requires Runs(s, a, u) && Runs(u, b, t)
    ensures Runs(s, a + b, t)
    decreases |a|
  {
    if a == [] {
      assert a + b == b;
    } else {
      RunsJoin(Next(s, a[0]), a[1..], u, b, t);
      assert (a + b)[1..] == a[1..] + b;
    }
  }

  lemma RunsOne<B>(s: System<B>, step: Step<B>)
    requires Enabled(s, step)
    ensures Runs(s, [step], Next(s, step))
  {
    assert [step][1..] == [];
  }

  ghost predicate Quiet<B>(steps: seq<Step<B>>) {
    forall k | 0 <= k < |steps| :: !steps[k].Commit?
  }

  lemma NextShrinks<B>(s: System<B>, step: Step<B>)
    requires Enabled(s, step) && !step.Commit?
    ensures |Next(s, step).unpublished| <= |s.unpublished|
  {
    SmallerSet(Next(s, step).unpublished, s.unpublished);
  }

  /** Without commits the backlog only shrinks. */
  lemma {:induction false} QuietBacklog<B>(s: System<B>, steps: seq<Step<B>>, c: nat)
    requires Quiet(steps) && |s.unpublished| <= c
    ensures Backlog(s, steps, c)
    decreases |steps|
  {
    if steps != [] && Enabled(s, steps[0]) {
      NextShrinks(s, steps[0]);
      QuietBacklog(Next(s, steps[0]), steps[1..], c);
    }
  }

  lemma {:induction false} BacklogJoin<B>(s: System<B>, a: seq<Step<B>>, u: System<B>, b: seq<Step<B>>, c: nat)
    requires Runs(s, a, u) && Backlog(s, a, c) && Backlog(u, b, c)
    ensures Backlog(s, a + b, c)
    decreases |a|
  {
    if a == [] {
      assert a + b == b;
    } else {
      BacklogJoin(Next(s, a[0]), a[1..], u, b, c);
      assert (a + b)[1..] == a[1..] + b;
    }
  }

  // ------------------------------------------------------------------ the run

  /** The numbers after one up to another. */
  function Range(after: nat, upTo: nat): (r: set<nat>)
    ensures forall m :: m in r <==> after < m <= upTo
    ensures |r| == if after <= upTo then upTo - after else 0
    decreases upTo - after
  {
    if after < upTo then {after + 1} + Range(after + 1, upTo) else {}
  }

  /** One live forwarder on an idle connection. */
  function Idle<B>(log: seq<Event<B>>, unpublished: set<nat>, f: Forwarder<B>): System<B> {
    System(log, unpublished, [f], [], Up, [], [], Subscription(0, 0, [], 0, 0))
  }

  /** Publishing one entry: the forwarder hears it. */
  lemma PublishOne<B>(log: seq<Event<B>>, unpublished: set<nat>, f: Forwarder<B>, m: nat)
    requires m in unpublished && 0 < m <= |log|
    ensures Runs(Idle(log, unpublished, f), [Publish(m)], Idle(log, unpublished - {m}, Hear(f, log[m - 1])))
  {
    var s := Idle(log, unpublished, f);
    assert Next(s, Publish(m)).forwarders == [Hear(f, log[m - 1])];
    RunsOne(s, Publish(m));
  }

  lemma QueueOneMore<B>(log: seq<Event<B>>, head: Event<B>, k: nat)
    requires k < |log|
    ensures [head] + log[..k] + [log[k]] == [head] + log[..k + 1]
  {
  }

  lemma RangeOneLess(k: nat, top: nat)
    requires k < top
    ensures Range(k, top) - {k + 1} == Range(k + 1, top)
  {
  }

  /** Publishing the next number in order into a queue with room. */
  lemma PublishNext<B>(log: seq<Event<B>>, f: Forwarder<B>, g: Forwarder<B>, head: Event<B>, k: nat, top: nat)
    requires k < top <= |log| && 1 + k < BUS_CAPACITY
    requires f.queue == [head] + log[..k] && g == f.(queue := [head] + log[..k + 1])
    ensures Runs(Idle(log, Range(k, top), f), [Publish(k + 1)], Idle(log, Range(k + 1, top), g))
  {
    QueueOneMore(log, head, k);
    RangeOneLess(k, top);
    PublishOne(log, Range(k, top), f, k + 1);
  }

  /** Publishing the numbers after `k` up to `m`, one by one, into a queue with room. */
  lemma {:induction false} PublishUpTo<B>(log: seq<Event<B>>, f: Forwarder<B>, head: Event<B>, k: nat, m: nat, top: nat)
    returns (steps: seq<Step<B>>)
    requires k <= m <= top <= |log| && 1 + m <= BUS_CAPACITY && f.queue == [head] + log[..k]
    ensures Quiet(steps)
    ensures Runs(Idle(log, Range(k, top), f), steps, Idle(log, Range(m, top), f.(queue := [head] + log[..m])))
    decreases m - k
  {
    if k == m {
      steps := [];
    } else {
      var step: Step<B> := Publish(k + 1);
      var g := f.(queue := [head] + log[..k + 1]);
      PublishNext(log, f, g, head, k, top);
      var rest := PublishUpTo(log, g, head, k + 1, m, top);
      RunsJoin(Idle(log, Range(k, top), f), [step], Idle(log, Range(k + 1, top), g), rest,
               Idle(log, Range(m, top), f.(queue := [head] + log[..m])));
      steps := [step] + rest;
    }
  }

  /** Sending a queue of consecutive numbers. */
  lemma {:induction false} ForwardAll<B>(log: seq<Event<B>>, f: Forwarder<B>) returns (steps: seq<Step<B>>)
    requires f.phase == Live && forall k | 0 <= k < |f.queue| :: f.queue[k].number == f.last + k + 1
    ensures Quiet(steps)
    ensures Runs(Idle(log, {}, f), steps, Idle(log, {}, SentAll(f, f.queue)))
    decreases |f.queue|
  {
    var s := Idle(log, {}, f);
    if f.queue == [] {
      assert f.sent + [] == f.sent && f.outbox + [] == f.outbox;
      steps := [];
    } else {
      var step: Step<B> := ForwardLive(0, true);
      var e, rest := f.queue[0], f.queue[1..];
      var g := Emit(f.(queue := rest), e);
      ForwardsNext(log, f);
      assert Next(s, step) == Idle(log, {}, g);
      RunsOne(s, step);
      var more := ForwardAll(log, g);
      SentOneMore(f, e, rest);
      assert f.queue == [e] + rest;
      RunsJoin(s, [step], Idle(log, {}, g), more, Idle(log, {}, SentAll(f, f.queue)));
      steps := [step] + more;
    }
  }

  /** The live loop on the next entry in order. */
  lemma ForwardsNext<B>(log: seq<Event<B>>, f: Forwarder<B>)
    requires f.queue != [] && f.queue[0].number == f.last + 1
    ensures Forward(f, log, true) == Emit(f.(queue := f.queue[1..]), f.queue[0])
  {
  }

  /** What sending consecutive entries leaves, the queue empty. */
  function SentAll<B>(f: Forwarder<B>, es: seq<Event<B>>): Forwarder<B> {
    f.(last := f.last + |es|, queue := [], sent := f.sent + es, outbox := f.outbox + es)
  }

  lemma SentOneMore<B>(f: Forwarder<B>, e: Event<B>, rest: seq<Event<B>>)
    requires e.number == f.last + 1
    ensures SentAll(Emit(f.(queue := rest), e), rest) == SentAll(f, [e] + rest)
  {
    assert f.sent + [e] + rest == f.sent + ([e] + rest);
    assert f.outbox + [e] + rest == f.outbox + ([e] + rest);
  }

  /** A fresh client on an open connection to an empty log. */
  function Fresh<B>(): System<B> {
    System([], {}, [], [], Up, [0], [], Subscription(0, 0, [], 0, 0))
  }

  /** On the empty log the forwarder goes live at once. */
  lemma StartLive<B>() returns (steps: seq<Step<B>>)
    ensures Quiet(steps)
    ensures Runs(Fresh<B>(), steps, Idle([], {}, NewForwarder<B>(0).(phase := Live)))
  {
    var s0 := Fresh<B>();
    var s1 := Next(s0, Serve);
    var s2 := Next(s1, ReadPage(0, true));
    assert s2.forwarders == [NewForwarder<B>(0).(phase := Live)];
    RunsOne(s0, Serve);
    RunsOne(s1, ReadPage(0, true));
    RunsJoin(s0, [Serve], s1, [ReadPage(0, true)], s2);
    steps := [Serve] + [ReadPage(0, true)];
  }

  /** Every commit adds at most `size` entries. */
  ghost predicate SmallCommits<B>(steps: seq<Step<B>>, size: nat) {
    forall k | 0 <= k < |steps| && steps[k].Commit? :: |steps[k].bodies| <= size
  }

  lemma SmallJoin<B>(a: seq<Step<B>>, b: seq<Step<B>>, size: nat)
    requires SmallCommits(a, size) && SmallCommits(b, size)
    ensures SmallCommits(a + b, size)
  {
  }

  /** One more entry is committed and waits for publication. */
  lemma CommitLeaves<B>(f: Forwarder<B>, bodies: seq<B>, n: nat, body: B)
    requires |bodies| == n
    ensures Next(Idle(Numbered(0, bodies), Range(0, n), f), Commit([body]))
         == Idle(Numbered(0, bodies + [body]), Range(0, n + 1), f)
  {
    NumberedOneMore(bodies, body);
    NumbersOfOne(Numbered(n, [body]));
    RangeOneMore(n);
  }

  lemma NumberedOneMore<B>(bodies: seq<B>, body: B)
    ensures Numbered(0, bodies) + Numbered(|bodies|, [body]) == Numbered(0, bodies + [body])
  {
  }

  lemma NumbersOfOne<B>(added: seq<Event<B>>)
    requires |added| == 1
    ensures (set k | 0 <= k < |added| :: added[k].number) == {added[0].number}
  {
  }

  lemma RangeOneMore(n: nat)
    ensures Range(0, n) + {n + 1} == Range(0, n + 1)
  {
  }

  lemma CommitOne<B>(f: Forwarder<B>, bodies: seq<B>, n: nat, body: B, c: nat)
    requires |bodies| == n && c > n
    ensures
      Runs(Idle(Numbered(0, bodies), Range(0, n), f), [Commit([body])],
           Idle(Numbered(0, bodies + [body]), Range(0, n + 1), f))
    ensures Backlog(Idle(Numbered(0, bodies), Range(0, n), f), [Commit([body])], c)
  {
    var s := Idle(Numbered(0, bodies), Range(0, n), f);
    CommitLeaves(f, bodies, n, body);
    RunsOne(s, Commit([body]));
    assert [Commit([body])][1..] == [];
    assert Backlog(Next(s, Commit([body])), [], c);
  }

  /** On the empty log `n` entries are committed one by one. */
  lemma {:induction false} CommitEach<B>(f: Forwarder<B>, bodies: seq<B>, n: nat, c: nat) returns (steps: seq<Step<B>>)
    requires |bodies| == n && c >= n
    ensures SmallCommits(steps, 1)
    ensures Runs(Idle([], {}, f), steps, Idle(Numbered(0, bodies), Range(0, n), f))
    ensures Backlog(Idle([], {}, f), steps, c)
    decreases n
  {
    if n == 0 {
      steps := [];
      assert Numbered(0, bodies) == [];
    } else {
      var init, body := bodies[..n - 1], bodies[n - 1];
      assert bodies == init + [body];
      var before := CommitEach(f, init, n - 1, c);
      CommitOne(f, init, n - 1, body, c);
      var s, t := Idle(Numbered(0, init), Range(0, n - 1), f), Idle(Numbered(0, bodies), Range(0, n), f);
      RunsJoin(Idle([], {}, f), before, s, [Commit([body])], t);
      BacklogJoin(Idle([], {}, f), before, s, [Commit([body])], c);
      steps := before + [Commit([body])];
    }
  }

  /** The forwarder starts on the empty log, then `n` entries are committed one by one. */
  lemma CommitTooMany<B>(bodies: seq<B>, n: nat, c: nat) returns (steps: seq<Step<B>>)
    requires |bodies| == n && c >= n
    ensures SmallCommits(steps, 1)
    ensures Runs(Fresh<B>(), steps, Idle(Numbered(0, bodies), Range(0, n), NewForwarder<B>(0).(phase := Live)))
    ensures Backlog(Fresh<B>(), steps, c)
  {
    var f := NewForwarder<B>(0).(phase := Live);
    var begin := StartLive<B>();
    var commits := CommitEach(f, bodies, n, c);
    RunsJoin(Fresh<B>(), begin, Idle([], {}, f), commits, Idle(Numbered(0, bodies), Range(0, n), f));
    QuietBacklog(Fresh<B>(), begin, c);
    BacklogJoin(Fresh<B>(), begin, Idle([], {}, f), commits, c);
    SmallJoin(begin, commits, 1);
    steps := begin + commits;
  }

  /** Publishing the last entry into an empty queue. */
  lemma PublishLast<B>(log: seq<Event<B>>, f: Forwarder<B>, n: nat)
    requires WellNumbered(log) && |log| == n + 1 && f.queue == []
    ensures
      Runs(Idle(log, Range(0, n + 1), f), [Publish(n + 1)], Idle(log, Range(0, n), f.(queue := [log[n]] + log[..0])))
  {
    assert [] + [log[n]] == [log[n]] + log[..0];
    assert Range(0, n + 1) - {n + 1} == Range(0, n);
    PublishOne(log, Range(0, n + 1), f, n + 1);
  }

  /** Publishing one more into the full queue drops that entry. */
  lemma Overflow<B>(log: seq<Event<B>>, f: Forwarder<B>, n: nat)
    requires n == BUS_CAPACITY && WellNumbered(log) && |log| == n + 1 && f.queue == [log[n]] + log[..n - 1]
    ensures Runs(Idle(log, Range(n - 1, n), f), [Publish(n)], Idle(log, {}, f.(queue := log[..n], heard := false)))
  {
    assert f.queue[1..] + [log[n - 1]] == log[..n];
    assert Range(n - 1, n) - {n} == {};
    PublishOne(log, Range(n - 1, n), f, n);
  }

  /** The last entry is published first, then the others in order, until the queue is full. */
  lemma FillTheQueue<B>(log: seq<Event<B>>, f: Forwarder<B>, n: nat) returns (steps: seq<Step<B>>)
    requires 0 < n <= BUS_CAPACITY && WellNumbered(log) && |log| == n + 1 && f.queue == []
    ensures Quiet(steps)
    ensures
      Runs(Idle(log, Range(0, n + 1), f), steps,
           Idle(log, Range(n - 1, n), f.(queue := [log[n]] + log[..n - 1])))
  {
    var g, full := f.(queue := [log[n]] + log[..0]), f.(queue := [log[n]] + log[..n - 1]);
    PublishLast(log, f, n);
    var middle := PublishUpTo(log, g, log[n], 0, n - 1, n);
    assert g.(queue := full.queue) == full;
    RunsJoin(Idle(log, Range(0, n + 1), f), [Publish(n + 1)], Idle(log, Range(0, n), g), middle,
             Idle(log, Range(n - 1, n), full));
    steps := [Publish(n + 1)] + middle;
  }

  /** One entry more, and the full queue drops the last entry of the log. */
  lemma PublishOutOfOrder<B>(log: seq<Event<B>>, f: Forwarder<B>, n: nat) returns (steps: seq<Step<B>>)
    requires n == BUS_CAPACITY && WellNumbered(log) && |log| == n + 1 && f.queue == []
    ensures Quiet(steps)
    ensures Runs(Idle(log, Range(0, n + 1), f), steps, Idle(log, {}, f.(queue := log[..n], heard := false)))
  {
    var full := f.(queue := [log[n]] + log[..n - 1]);
    var t := Idle(log, {}, f.(queue := log[..n], heard := false));
    var fill := FillTheQueue(log, f, n);
    Overflow(log, full, n);
    assert full.(queue := log[..n], heard := false) == f.(queue := log[..n], heard := false);
    RunsJoin(Idle(log, Range(0, n + 1), f), fill, Idle(log, Range(n - 1, n), full), [Publish(n)], t);
    steps := fill + [Publish(n)];
  }

  /**
   * Entries are committed one by one; all is published, the queue is drained without a hole and every read
   * succeeds, yet the last entry is never sent.
   */
  lemma LosingRun<B>(bodies: seq<B>, n: nat, c: nat) returns (steps: seq<Step<B>>, t: System<B>)
    requires n == BUS_CAPACITY && |bodies| == n + 1 && c > n
    ensures Runs(Fresh<B>(), steps, t) && Backlog(Fresh<B>(), steps, c) && SmallCommits(steps, 1)
    ensures |t.forwarders| == 1 && t.forwarders[0].phase == Live && t.forwarders[0].queue == [] && t.unpublished == {}
    ensures t.forwarders[0].last == n && |t.log| == n + 1
    ensures t.forwarders[0].start == 0 && t.forwarders[0].sent == t.log[..n]
  {
    var log := Numbered(0, bodies);
    var f := NewForwarder<B>(0).(phase := Live);
    var h := f.(queue := log[..n], heard := false);
    var s3 := Idle(log, Range(0, n + 1), f);
    var begin := CommitTooMany(bodies, n + 1, c);
    var publish := PublishOutOfOrder(log, f, n);
    var drain := ForwardAll(log, h);
    t := Idle(log, {}, SentAll(h, h.queue));
    assert [] + log[..n] == log[..n];
    RunsJoin(s3, publish, Idle(log, {}, h), drain, t);
    RunsJoin(Fresh<B>(), begin, s3, publish + drain, t);
    steps := begin + (publish + drain);
    QuietBacklog(s3, publish + drain, c);
    BacklogJoin(Fresh<B>(), begin, s3, publish + drain, c);
    SmallJoin(begin, publish + drain, 1);
  }
}
