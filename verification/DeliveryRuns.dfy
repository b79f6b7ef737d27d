/** What every run of the delivery machine guarantees, to the client and of each forwarder. */
module DeliveryRuns {
  import opened EventLog
  import opened Delivery
  import opened DeliveryBounds
  import opened DeliveryLoss

  lemma {:induction false} RunKeepsInv<B>(s: System<B>, steps: seq<Step<B>>, t: System<B>)
    requires Inv(s) && Runs(s, steps, t)
    ensures Inv(t) && t.client.since == s.client.since
    decreases |steps|
  {
    if steps != [] {
      NextKeepsInv(s, steps[0]);
      RunKeepsInv(Next(s, steps[0]), steps[1..], t);
    }
  }

  // ------------------------------------------------------------------ what runs guarantee

  /**
   * Safety: in every run the client has handed over exactly the entries after `since`, in order,
   * each once, with the logged content.
   */
  lemma ClientDeliversTheLog<B>(s: System<B>, since: nat, steps: seq<Step<B>>, t: System<B>)
    requires Init(s, since) && Runs(s, steps, t)
    ensures since <= t.client.last && (t.client.last <= |t.log| || t.client.delivered == [])
    ensures |t.client.delivered| == t.client.last - since
    ensures forall k | 0 <= k < |t.client.delivered| ::
      since + k < |t.log| && t.client.delivered[k] == t.log[since + k] && t.client.delivered[k].number == since + k + 1
  {
    RunKeepsInv(s, steps, t);
  }

  /** Every forwarder's output is strictly increasing and made of logged events after its start, in every run. */
  lemma ForwarderOutputIncreases<B>(s: System<B>, since: nat, steps: seq<Step<B>>, t: System<B>, i: nat)
    requires Init(s, since) && Runs(s, steps, t) && i < |t.forwarders|
    ensures (var f := t.forwarders[i];
      && Increasing(f.sent)
      && forall k | 0 <= k < |f.sent| :: Logged(t.log, f.sent[k]) && f.start < f.sent[k].number <= f.last)
  {
    RunKeepsInv(s, steps, t);
    assert ForwarderInv(t, i);
  }

  /**
   * In every run a forwarder's output is the whole log between its start and `last` exactly while every
   * live round so far met NoHole.
   */
  lemma GaplessIsExact<B>(s: System<B>, since: nat, steps: seq<Step<B>>, t: System<B>, i: nat)
    requires Init(s, since) && Runs(s, steps, t) && i < |t.forwarders|
    ensures (var f := t.forwarders[i]; f.gapless <==> f.sent == Slice(t.log, f.start, f.last))
  {
    RunKeepsInv(s, steps, t);
    RunKeepsCounted(s, steps, t);
    assert ForwarderInv(t, i);
    GaplessIsSlice(t.log, t.forwarders[i]);
  }

  /**
   * The bound on a live event's lead is exact: one round keeps the output gap-free if and only if
   * NoHole holds, that is unless the read fails on an event ahead of `last + 1`, or the event is
   * more than PAGE + 1 ahead.
   */
  lemma HoleBoundIsExact<B>(log: seq<Event<B>>, f: Forwarder<B>, ok: bool)
    requires WellNumbered(log) && Sound(log, f) && f.gapless && |f.sent| <= f.last - f.start && f.queue != []
    ensures (var g := Forward(f, log, ok); g.sent == Slice(log, g.start, g.last) <==> NoHole(f, ok))
  {
    ForwardCounts(log, f, ok);
    ForwardFrame(log, f, ok);
    ForwardSends(log, f, ok);
    GaplessIsSlice(log, Forward(f, log, ok));
  }

  // ------------------------------------------------------------------ completeness

  /** Live, with everything published and heard, and its queue drained. */
  predicate Settled<B>(t: System<B>, i: nat) {
    && i < |t.forwarders|
    && t.forwarders[i].phase == Live
    && t.forwarders[i].queue == []
    && t.unpublished == {}
  }

  lemma HeardIsComplete<B>(t: System<B>, i: nat)
    requires Inv(t) && AllCounted(t) && Settled(t, i) && t.forwarders[i].heard
    ensures (var f := t.forwarders[i];
      f.last >= |t.log| && (f.gapless <==> f.sent == Slice(t.log, f.start, |t.log|)))
  {
    assert ForwarderInv(t, i);
    var f := t.forwarders[i];
    assert !Awaits(f.queue, |t.log|);
    GaplessIsSlice(t.log, f);
  }

  /**
   * Completeness: in every run in which never more than a bus queue's capacity of numbers waits to be
   * published, whatever the order, a settled forwarder has passed the whole log, and has sent all of it
   * after its start exactly if no hole opened.
   */
  lemma ForwarderIsComplete<B>(s: System<B>, since: nat, steps: seq<Step<B>>, t: System<B>, i: nat)
    requires Init(s, since) && Runs(s, steps, t) && Backlog(s, steps, BUS_CAPACITY) && Settled(t, i)
    ensures (var f := t.forwarders[i];
      f.last >= |t.log| && (f.gapless <==> f.sent == Slice(t.log, f.start, |t.log|)))
  {
    RunKeepsInv(s, steps, t);
    RunKeepsCounted(s, steps, t);
    BacklogIsHeard(s, steps, t, BUS_CAPACITY);
    assert Heeded(t.forwarders[i], t.unpublished, BUS_CAPACITY);
    HeardIsComplete(t, i);
  }

  /** The same for every run that publishes in commit order, whatever its backlog. */
  lemma OrderedRunsAreComplete<B>(s: System<B>, since: nat, steps: seq<Step<B>>, t: System<B>, i: nat)
    requires Init(s, since) && Runs(s, steps, t) && PublishesInOrder(s, steps) && Settled(t, i)
    ensures (var f := t.forwarders[i];
      f.last >= |t.log| && (f.gapless <==> f.sent == Slice(t.log, f.start, |t.log|)))
  {
    RunKeepsInv(s, steps, t);
    RunKeepsCounted(s, steps, t);
    OrderIsHeard(s, steps, t);
    assert Queued(t.forwarders[i], t.unpublished);
    HeardIsComplete(t, i);
  }

  /**
   * A run with at most `c` numbers waiting at a time and at most `size` entries a commit that ends with a
   * settled forwarder on which no hole opened.
   */
  ghost predicate SettlesWithin<B>(
    s: System<B>, since: nat, steps: seq<Step<B>>, t: System<B>, i: nat, c: nat, size: nat)
  {
    && Init(s, since) && Runs(s, steps, t) && Backlog(s, steps, c) && SmallCommits(steps, size) && Settled(t, i)
    && t.forwarders[i].sent == Slice(t.log, t.forwarders[i].start, t.forwarders[i].last)
  }

  /** Every such forwarder has passed the whole log. */
  ghost predicate AlwaysComplete<B(!new)>(c: nat, size: nat) {
    forall s: System<B>, since: nat, steps: seq<Step<B>>, t: System<B>, i: nat ::
      SettlesWithin(s, since, steps, t, i, c, size) ==> t.forwarders[i].last >= |t.log|
  }

  lemma {:induction false} SmallerBacklog<B>(s: System<B>, steps: seq<Step<B>>, c: nat, d: nat)
    requires Backlog(s, steps, c) && c <= d
    ensures Backlog(s, steps, d)
    decreases |steps|
  {
    if steps != [] && Enabled(s, steps[0]) {
      SmallerBacklog(Next(s, steps[0]), steps[1..], c, d);
    }
  }

  /**
   * The bound is exact, however few entries a commit adds: one waiting number more than a queue holds and
   * an event can be lost for good.
   */
  lemma CompleteIffBacklogFits<B(!new)>(c: nat, size: nat, body: B)
    requires size >= 1
    ensures AlwaysComplete<B>(c, size) <==> c <= BUS_CAPACITY
  {
    if c <= BUS_CAPACITY {
      forall s: System<B>, since: nat, steps: seq<Step<B>>, t: System<B>, i: nat
        | SettlesWithin(s, since, steps, t, i, c, size)
        ensures t.forwarders[i].last >= |t.log|
      {
        SmallerBacklog(s, steps, c, BUS_CAPACITY);
        ForwarderIsComplete(s, since, steps, t, i);
      }
    } else {
      var n := BUS_CAPACITY;
      var steps, t := LosingRun(seq(n + 1, _ => body), n, c);
      assert Slice(t.log, 0, n) == t.log[..n];
      assert SettlesWithin(Fresh<B>(), 0, steps, t, 0, c, size);
    }
  }

  // ------------------------------------------------------------------ end to end

  /**
   * Whatever connections, holes and losses came before, once one settled forwarder of the current
   * connection without a hole has nothing under way, the client has been given the whole log.
   */
  lemma ClientCatchesUp<B>(s: System<B>, since: nat, steps: seq<Step<B>>, t: System<B>, i: nat)
    requires Init(s, since) && Runs(s, steps, t) && Settled(t, i)
    requires Backlog(s, steps, BUS_CAPACITY) || PublishesInOrder(s, steps)
    requires (var f := t.forwarders[i]; f.sent == Slice(t.log, f.start, f.last) && f.outbox == [])
    requires FramesOf(t.wire, i) == []
    ensures t.client.delivered == Slice(t.log, since, |t.log|)
  {
    RunKeepsInv(s, steps, t);
    if Backlog(s, steps, BUS_CAPACITY) {
      ForwarderIsComplete(s, since, steps, t, i);
    } else {
      OrderedRunsAreComplete(s, since, steps, t, i);
    }
    GaplessIsExact(s, since, steps, t, i);
    assert ForwarderInv(t, i);
    NothingUnderWay(t.log, t.client, t.wire, t.forwarders[i], i);
  }

  lemma NothingUnderWay<B>(log: seq<Event<B>>, c: Subscription<B>, wire: seq<Frame<B>>, f: Forwarder<B>, i: nat)
    requires ClientSound(log, c) && Linked(wire, c.last, f, i) && f.gapless
    requires f.outbox == [] && FramesOf(wire, i) == []
    requires f.sent == Slice(log, f.start, |log|)
    ensures c.last >= |log| && c.delivered == Slice(log, c.since, |log|)
  {
    assert FramesOf(wire, i) + f.outbox == [];
    assert f.start + |f.sent| <= c.last;
  }
}
