/** What a hole in a forwarder's output does to the client: it stays behind until the next subscribe is served. */
module DeliveryHoles {
  import opened EventLog
  import opened Delivery
  import opened DeliveryBounds
  import opened DeliveryRuns

  ghost predicate Absent<B>(es: seq<Event<B>>, m: nat) {
    forall k | 0 <= k < |es| :: es[k].number != m
  }

  /** A number the forwarder has passed without sending it. */
  ghost predicate Hole<B>(f: Forwarder<B>, m: nat) {
    f.start < m <= f.last && Absent(f.sent, m)
  }

  ghost predicate PassedBy<B>(f: Forwarder<B>, m: nat) {
    f.last >= m && Absent(f.outbox, m)
  }

  /** The client has not reached `m`, every forwarder has passed it, and no frame under way carries it. */
  ghost predicate Missed<B>(s: System<B>, m: nat) {
    && s.client.last < m
    && (forall i | 0 <= i < |s.forwarders| :: PassedBy(s.forwarders[i], m))
    && (forall k | 0 <= k < |s.wire| :: s.wire[k].event.number != m)
  }

  // ------------------------------------------------------------------ a forwarder never goes back

  /** `g` is `f` after sending entries later than what `f` sent last. */
  ghost predicate Onward<B>(f: Forwarder<B>, g: Forwarder<B>) {
    && Grown(f, g) && g.last >= f.last
    && forall k | |f.sent| <= k < |g.sent| :: g.sent[k].number > f.last
  }

  lemma OnwardPassesBy<B>(f: Forwarder<B>, g: Forwarder<B>, m: nat)
    requires Onward(f, g) && PassedBy(f, m)
    ensures PassedBy(g, m)
  {
    forall k | 0 <= k < |g.outbox| ensures g.outbox[k].number != m {
      if k >= |f.outbox| {
        assert g.outbox[k] == g.sent[|f.sent| + k - |f.outbox|];
      }
    }
  }

  lemma ReadHistoryIsOnward<B>(log: seq<Event<B>>, f: Forwarder<B>, ok: bool)
    requires WellNumbered(log) && Sound(log, f) && f.phase == History
    ensures Onward(f, ReadHistory(f, log, ok))
  {
    ReadHistoryKeeps(log, {}, f, ok);
    EventsSinceIsSlice(log, f.last, PAGE);
    var page := EventsSince(log, f.last, PAGE);
    ReplaySends(f, page);
    assert forall k | 0 <= k < |page| :: page[k].number > f.last;
  }

  lemma {:induction false} BackfillSendsAbove<B>(f: Forwarder<B>, page: seq<Event<B>>)
    ensures
      (var g := Backfill(f, page);
        && g.last >= f.last && |g.sent| >= |f.sent|
        && forall k | |f.sent| <= k < |g.sent| :: g.sent[k].number > f.last)
  {
    if page != [] {
      BackfillSendsAbove(f, page[..|page| - 1]);
    }
  }

  lemma ForwardIsOnward<B>(log: seq<Event<B>>, f: Forwarder<B>, ok: bool)
    requires WellNumbered(log) && Sound(log, f) && f.queue != []
    ensures Onward(f, Forward(f, log, ok))
  {
    ForwardSends(log, f, ok);
    BackfillSendsAbove(f.(queue := f.queue[1..], gapless := f.gapless && NoHole(f, ok)), EventsSince(log, f.last, PAGE));
  }

  // ------------------------------------------------------------------ what is missed stays missed

  lemma StepKeepsMissed<B>(s: System<B>, i: nat, g: Forwarder<B>, m: nat)
    requires i < |s.forwarders| && Missed(s, m) && PassedBy(g, m)
    ensures Missed(s.(forwarders := s.forwarders[i := g]), m)
  {
  }

  lemma TransferKeepsMissed<B>(s: System<B>, i: nat, m: nat)
    requires Enabled(s, Transfer(i)) && Missed(s, m)
    ensures Missed(Next(s, Transfer(i)), m)
  {
    var f := s.forwarders[i];
    assert PassedBy(f, m);
    assert PassedBy(f.(outbox := f.outbox[1..]), m);
  }

  lemma PublishKeepsMissed<B>(s: System<B>, n: nat, m: nat)
    requires Enabled(s, Publish(n)) && Missed(s, m)
    ensures Missed(Next(s, Publish(n)), m)
  {
    var t := Next(s, Publish(n));
    forall i | 0 <= i < |t.forwarders| ensures PassedBy(t.forwarders[i], m) {
      assert PassedBy(s.forwarders[i], m);
    }
  }

  lemma NextKeepsMissed<B>(s: System<B>, step: Step<B>, m: nat)
    requires Inv(s) && Enabled(s, step) && !step.Serve? && Missed(s, m)
    ensures Missed(Next(s, step), m)
  {
    match step
    case ReadPage(i, ok) =>
      assert ForwarderInv(s, i) && PassedBy(s.forwarders[i], m);
      ReadHistoryIsOnward(s.log, s.forwarders[i], ok);
      OnwardPassesBy(s.forwarders[i], ReadHistory(s.forwarders[i], s.log, ok), m);
      StepKeepsMissed(s, i, ReadHistory(s.forwarders[i], s.log, ok), m);
    case ForwardLive(i, ok) =>
      assert ForwarderInv(s, i) && PassedBy(s.forwarders[i], m);
      ForwardIsOnward(s.log, s.forwarders[i], ok);
      OnwardPassesBy(s.forwarders[i], Forward(s.forwarders[i], s.log, ok), m);
      StepKeepsMissed(s, i, Forward(s.forwarders[i], s.log, ok), m);
    case Die(i) =>
      assert PassedBy(s.forwarders[i], m);
      StepKeepsMissed(s, i, s.forwarders[i].(phase := Dead), m);
    case Transfer(i) => TransferKeepsMissed(s, i, m);
    case Publish(n) => PublishKeepsMissed(s, n, m);
    case _ =>
  }

  ghost predicate NoServe<B>(steps: seq<Step<B>>) {
    forall k | 0 <= k < |steps| :: !steps[k].Serve?
  }

  /** However the run goes on, until a subscribe is served the client does not reach a number all have missed. */
  lemma {:induction false} RunKeepsMissed<B>(s: System<B>, steps: seq<Step<B>>, t: System<B>, m: nat)
    requires Inv(s) && Runs(s, steps, t) && NoServe(steps) && Missed(s, m)
    ensures Missed(t, m)
    decreases |steps|
  {
    if steps != [] {
      NextKeepsInv(s, steps[0]);
      NextKeepsMissed(s, steps[0], m);
      RunKeepsMissed(Next(s, steps[0]), steps[1..], t, m);
    }
  }

  // ------------------------------------------------------------------ the only forwarder of a connection

  lemma {:induction false} FramesOfHas<B>(wire: seq<Frame<B>>, i: nat, k: nat)
    requires k < |wire| && wire[k].from == i
    ensures wire[k].event in FramesOf(wire, i)
  {
    if k > 0 {
      FramesOfHas(wire[1..], i, k - 1);
    }
  }

  lemma UnderWayIsSent<B>(s: System<B>, m: nat)
    requires Inv(s) && |s.forwarders| == 1 && Absent(s.forwarders[0].sent, m)
    ensures Absent(s.forwarders[0].outbox, m) && forall k | 0 <= k < |s.wire| :: s.wire[k].event.number != m
  {
    assert ForwarderInv(s, 0);
    var f := s.forwarders[0];
    var frames := FramesOf(s.wire, 0);
    var flight := frames + f.outbox;
    assert forall e | e in flight :: e in f.sent;
    forall k | 0 <= k < |f.outbox| ensures f.outbox[k].number != m {
      assert f.outbox[k] in flight;
    }
    forall k | 0 <= k < |s.wire| ensures s.wire[k].event.number != m {
      FramesOfHas(s.wire, 0, k);
      assert s.wire[k].event in flight;
    }
  }

  lemma HoleIsMissed<B>(s: System<B>, m: nat)
    requires Inv(s) && |s.forwarders| == 1 && Hole(s.forwarders[0], m) && s.client.last < m
    ensures Missed(s, m)
  {
    UnderWayIsSent(s, m);
    assert PassedBy(s.forwarders[0], m);
  }

  /**
   * A hole above the client's last number in the only forwarder of the connection holds the client below
   * it, through everything that may come, until a new subscribe is served.
   */
  lemma HoleStrandsTheClient<B>(
    s: System<B>, since: nat, steps: seq<Step<B>>, t: System<B>, m: nat, more: seq<Step<B>>, u: System<B>)
    requires Init(s, since) && Runs(s, steps, t) && |t.forwarders| == 1
    requires Hole(t.forwarders[0], m) && t.client.last < m
    requires Runs(t, more, u) && NoServe(more)
    ensures u.client.last < m
    ensures forall k | 0 <= k < |u.client.delivered| :: u.client.delivered[k].number < m
  {
    RunKeepsInv(s, steps, t);
    HoleIsMissed(t, m);
    RunKeepsMissed(t, more, u, m);
    RunKeepsInv(t, more, u);
    DeliveredBelow(u.log, u.client, m);
  }

  lemma DeliveredBelow<B>(log: seq<Event<B>>, c: Subscription<B>, m: nat)
    requires WellNumbered(log) && ClientSound(log, c) && c.last < m
    ensures forall k | 0 <= k < |c.delivered| :: c.delivered[k].number < m
  {
  }

  /** What the only forwarder sent and is no longer under way is never what the client waits for. */
  ghost predicate Seen<B>(s: System<B>) {
    |s.forwarders| == 1 ==>
      var f := s.forwarders[0];
      f.start <= s.client.last && SeenOf(f, |FramesOf(s.wire, 0)| + |f.outbox|, s.client.last)
  }

  /** All that `f` sent but the last `flight` entries. */
  ghost predicate SeenOf<B>(f: Forwarder<B>, flight: nat, last: nat) {
    forall k | 0 <= k < |f.sent| - flight :: f.sent[k].number != last + 1
  }

  lemma StepKeepsSeen<B>(s: System<B>, i: nat, g: Forwarder<B>)
    requires Inv(s) && Seen(s) && i < |s.forwarders| && Grown(s.forwarders[i], g)
    ensures Seen(s.(forwarders := s.forwarders[i := g]))
  {
  }

  lemma TransferKeepsSeen<B>(s: System<B>, i: nat)
    requires Inv(s) && Seen(s) && Enabled(s, Transfer(i))
    ensures Seen(Next(s, Transfer(i)))
  {
    FramesAppend(s.wire, Frame(i, s.forwarders[i].outbox[0]), 0);
  }

  lemma DeliverKeepsSeen<B>(s: System<B>)
    requires Inv(s) && Seen(s) && Enabled(s, Deliver)
    ensures Seen(Next(s, Deliver))
  {
    if |s.forwarders| == 1 {
      assert ForwarderInv(s, 0);
      var f, e := s.forwarders[0], s.wire[0].event;
      assert s.wire[0].from == 0;
      var flight := FramesOf(s.wire, 0) + f.outbox;
      var rest := FramesOf(s.wire[1..], 0);
      assert FramesOf(s.wire, 0) == [e] + rest;
      assert e == flight[0] == f.sent[|f.sent| - |flight|];
      AcceptSeen(f, s.client, |flight|, e);
    }
  }

  lemma AcceptSeen<B>(f: Forwarder<B>, c: Subscription<B>, flight: nat, e: Event<B>)
    requires Increasing(f.sent) && 0 < flight <= |f.sent| && e == f.sent[|f.sent| - flight]
    requires f.start <= c.last && SeenOf(f, flight, c.last)
    ensures f.start <= Accept(c, e).last && SeenOf(f, flight - 1, Accept(c, e).last)
  {
    var last := Accept(c, e).last;
    forall k | 0 <= k < |f.sent| - flight + 1 ensures f.sent[k].number != last + 1 {
      if e.number == c.last + 1 {
        assert k < |f.sent| - flight ==> f.sent[k].number < e.number;
      }
    }
  }

  lemma NextKeepsSeen<B>(s: System<B>, step: Step<B>)
    requires Inv(s) && Seen(s) && Enabled(s, step)
    ensures Seen(Next(s, step))
  {
    match step
    case ReadPage(i, ok) =>
      assert ForwarderInv(s, i);
      ReadHistoryKeeps(s.log, s.unpublished, s.forwarders[i], ok);
      StepKeepsSeen(s, i, ReadHistory(s.forwarders[i], s.log, ok));
    case ForwardLive(i, ok) =>
      assert ForwarderInv(s, i);
      ForwardSends(s.log, s.forwarders[i], ok);
      StepKeepsSeen(s, i, Forward(s.forwarders[i], s.log, ok));
    case Transfer(i) => TransferKeepsSeen(s, i);
    case Deliver => DeliverKeepsSeen(s);
    case _ =>
  }

  lemma {:induction false} RunKeepsSeen<B>(s: System<B>, steps: seq<Step<B>>, t: System<B>)
    requires Inv(s) && Seen(s) && Runs(s, steps, t)
    ensures Seen(t)
    decreases |steps|
  {
    if steps != [] {
      NextKeepsInv(s, steps[0]);
      NextKeepsSeen(s, steps[0]);
      RunKeepsSeen(Next(s, steps[0]), steps[1..], t);
    }
  }

  lemma AwaitedIsHole<B>(log: seq<Event<B>>, c: Subscription<B>, f: Forwarder<B>)
    requires f.start <= c.last < |log| <= f.last && SeenOf(f, 0, c.last)
    ensures Hole(f, c.last + 1)
  {
  }

  /**
   * With all published within the bound or in order, and the only forwarder of the connection settled and
   * nothing of it under way, the client has the whole log if and only if the forwarder left no hole above
   * the client's last number.
   */
  lemma CaughtUpExactly<B>(s: System<B>, since: nat, steps: seq<Step<B>>, t: System<B>)
    requires Init(s, since) && Runs(s, steps, t) && |t.forwarders| == 1 && Settled(t, 0)
    requires Backlog(s, steps, BUS_CAPACITY) || PublishesInOrder(s, steps)
    requires t.forwarders[0].outbox == [] && FramesOf(t.wire, 0) == []
    ensures t.client.delivered == Slice(t.log, since, |t.log|)
      <==> !exists m: nat :: m > t.client.last && Hole(t.forwarders[0], m)
  {
    RunKeepsInv(s, steps, t);
    RunKeepsSeen(s, steps, t);
    if Backlog(s, steps, BUS_CAPACITY) {
      ForwarderIsComplete(s, since, steps, t, 0);
    } else {
      OrderedRunsAreComplete(s, since, steps, t, 0);
    }
    assert ForwarderInv(t, 0);
    CaughtUpIff(t.log, t.client, t.forwarders[0]);
  }

  lemma CaughtUpIff<B>(log: seq<Event<B>>, c: Subscription<B>, f: Forwarder<B>)
    requires ClientSound(log, c) && f.start <= c.last && SeenOf(f, 0, c.last)
    requires f.last >= |log| && (f.last <= |log| || f.last == f.start)
    ensures c.delivered == Slice(log, c.since, |log|) <==> !exists m: nat :: m > c.last && Hole(f, m)
  {
    if c.last < |log| {
      AwaitedIsHole(log, c, f);
    }
  }
}
