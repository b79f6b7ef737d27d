/** When a forwarder's output has no hole, and when a bounded bus queue loses nothing. */
module DeliveryBounds {
  import opened EventLog
  import opened Delivery

  // ------------------------------------------------------------------ holes can be counted

  /** No more was sent than the numbers passed, and less once a hole has opened. */
  ghost predicate Counted<B>(f: Forwarder<B>) {
    |f.sent| <= f.last - f.start && (!f.gapless ==> |f.sent| < f.last - f.start)
  }

  /** So `gapless` can be read off the output: it holds exactly while everything passed was sent. */
  lemma GaplessIsSlice<B>(log: seq<Event<B>>, f: Forwarder<B>)
    requires Sound(log, f) && Counted(f)
    ensures f.gapless <==> f.sent == Slice(log, f.start, f.last)
  {
    if f.last > |log| {
      assert f.last == f.start && f.gapless;
    }
  }

  lemma {:induction false} BackfillCounts<B>(f: Forwarder<B>, page: seq<Event<B>>)
    ensures
      (var g := Backfill(f, page);
        g.start == f.start && g.last >= f.last && |g.sent| - |f.sent| <= g.last - f.last)
  {
    if page != [] {
      BackfillCounts(f, page[..|page| - 1]);
    }
  }

  /** A round that breaks NoHole passes a number without sending it. */
  lemma HoleOpens<B>(log: seq<Event<B>>, f: Forwarder<B>, ok: bool)
    requires WellNumbered(log) && Sound(log, f) && |f.sent| <= f.last - f.start && f.queue != [] && !NoHole(f, ok)
    ensures (var g := Forward(f, log, ok); |g.sent| < g.last - g.start)
  {
    if ok {
      EventsSinceIsSlice(log, f.last, PAGE);
      PageIsSent(log, f.(queue := f.queue[1..], gapless := false), f.last + PAGE);
    }
  }

  lemma ForwardCounts<B>(log: seq<Event<B>>, f: Forwarder<B>, ok: bool)
    requires WellNumbered(log) && Sound(log, f) && Counted(f) && f.queue != []
    ensures Counted(Forward(f, log, ok))
  {
    ForwardFrame(log, f, ok);
    ForwardSends(log, f, ok);
    if NoHole(f, ok) {
      BackfillCounts(f.(queue := f.queue[1..], gapless := f.gapless), EventsSince(log, f.last, PAGE));
    } else {
      HoleOpens(log, f, ok);
    }
  }

  lemma ReadHistoryCounts<B>(log: seq<Event<B>>, f: Forwarder<B>, ok: bool)
    requires WellNumbered(log) && Sound(log, f) && Counted(f)
    ensures Counted(ReadHistory(f, log, ok))
  {
    EventsSinceIsSlice(log, f.last, PAGE);
    if f.last < |log| {
      PageIsSent(log, f, Min(f.last + PAGE, |log|));
    }
  }

  ghost predicate AllCounted<B>(s: System<B>) {
    forall i | 0 <= i < |s.forwarders| :: Counted(s.forwarders[i])
  }

  lemma NextKeepsCounted<B>(s: System<B>, step: Step<B>)
    requires Inv(s) && Enabled(s, step) && AllCounted(s)
    ensures AllCounted(Next(s, step))
  {
    match step {
      case ReadPage(i, ok) =>
        assert ForwarderInv(s, i);
        ReadHistoryCounts(s.log, s.forwarders[i], ok);
      case ForwardLive(i, ok) =>
        assert ForwarderInv(s, i);
        ForwardCounts(s.log, s.forwarders[i], ok);
      case _ =>
    }
  }

  lemma {:induction false} RunKeepsCounted<B>(s: System<B>, steps: seq<Step<B>>, t: System<B>)
    requires Inv(s) && AllCounted(s) && Runs(s, steps, t)
    ensures AllCounted(t)
    decreases |steps|
  {
    if steps != [] {
      NextKeepsInv(s, steps[0]);
      NextKeepsCounted(s, steps[0]);
      RunKeepsCounted(Next(s, steps[0]), steps[1..], t);
    }
  }

  // ------------------------------------------------------------------ a bounded backlog

  /** At every state of the run at most `c` committed numbers wait to be published. */
  ghost predicate Backlog<B>(s: System<B>, steps: seq<Step<B>>, c: nat)
    decreases |steps|
  {
    |s.unpublished| <= c && (steps != [] && Enabled(s, steps[0]) ==> Backlog(Next(s, steps[0]), steps[1..], c))
  }

  /** How many of these events are numbered below `n`. */
  function Lower<B>(es: seq<Event<B>>, n: nat): nat {
    if es == [] then 0 else Lower(es[..|es| - 1], n) + if es[|es| - 1].number < n then 1 else 0
  }

  function Below(numbers: set<nat>, n: nat): set<nat> {
    set m | m in numbers && m < n
  }

  /**
   * Of every queued event fewer than `c` lower numbers come later: queued behind it or not published yet.
   */
  ghost predicate Crowded<B>(queue: seq<Event<B>>, unpublished: set<nat>, c: nat) {
    forall p | 0 <= p < |queue| :: Lower(queue[p + 1..], queue[p].number) + |Below(unpublished, queue[p].number)| < c
  }

  lemma {:induction false} AllLower<B>(es: seq<Event<B>>, n: nat)
    requires forall k | 0 <= k < |es| :: es[k].number < n
    ensures Lower(es, n) == |es|
  {
    if es != [] {
      AllLower(es[..|es| - 1], n);
    }
  }

  lemma LowerAppend<B>(es: seq<Event<B>>, e: Event<B>, n: nat)
    ensures Lower(es + [e], n) == Lower(es, n) + if e.number < n then 1 else 0
  {
    assert (es + [e])[..|es|] == es;
  }

  lemma BelowWithout(numbers: set<nat>, m: nat, n: nat)
    requires m in numbers
    ensures |Below(numbers - {m}, n)| == |Below(numbers, n)| - if m < n then 1 else 0
  {
    if m < n {
      assert Below(numbers - {m}, n) == Below(numbers, n) - {m};
    } else {
      assert Below(numbers - {m}, n) == Below(numbers, n);
    }
  }

  lemma {:induction false} SmallerSet(a: set<nat>, b: set<nat>)
    requires a <= b
    ensures |a| <= |b|
  {
    if a != {} {
      var x :| x in a;
      SmallerSet(a - {x}, b - {x});
    }
  }

  /** Publishing moves a number from the backlog to the end of the queue. */
  lemma CrowdedAppend<B>(queue: seq<Event<B>>, unpublished: set<nat>, e: Event<B>, c: nat)
    requires Crowded(queue, unpublished, c) && e.number in unpublished && |unpublished| <= c
    ensures Crowded(queue + [e], unpublished - {e.number}, c)
  {
    var longer, left := queue + [e], unpublished - {e.number};
    forall p | 0 <= p < |longer| ensures Lower(longer[p + 1..], longer[p].number) + |Below(left, longer[p].number)| < c {
      if p < |queue| {
        assert longer[p + 1..] == queue[p + 1..] + [e] && longer[p] == queue[p];
        LowerAppend(queue[p + 1..], e, queue[p].number);
        BelowWithout(unpublished, e.number, queue[p].number);
      } else {
        assert longer[p + 1..] == [];
        SmallerSet(Below(left, e.number), left);
      }
    }
  }

  lemma CrowdedTail<B>(queue: seq<Event<B>>, unpublished: set<nat>, c: nat)
    requires Crowded(queue, unpublished, c) && queue != []
    ensures Crowded(queue[1..], unpublished, c)
  {
    var rest := queue[1..];
    forall p | 0 <= p < |rest| ensures Lower(rest[p + 1..], rest[p].number) + |Below(unpublished, rest[p].number)| < c {
      assert rest[p + 1..] == queue[p + 2..] && rest[p] == queue[p + 1];
      assert Lower(queue[p + 1 + 1..], queue[p + 1].number) + |Below(unpublished, queue[p + 1].number)| < c;
    }
  }

  /** A full queue that is crowded below its capacity drops nothing that a later event does not cover. */
  lemma CrowdedLosesNothing<B>(queue: seq<Event<B>>, unpublished: set<nat>, e: Event<B>, c: nat)
    requires Crowded(queue + [e], unpublished, c) && c <= BUS_CAPACITY
    ensures NoLoss(queue, e)
  {
    if |queue| >= BUS_CAPACITY {
      var longer := queue + [e];
      var kept, n := queue[1..] + [e], queue[0].number;
      assert longer[0 + 1..] == kept && longer[0].number == n;
      assert Lower(kept, n) < c;
      if !Awaits(kept, n) {
        AllLower(kept, n);
        assert false;
      }
    }
  }

  ghost predicate Heeded<B>(f: Forwarder<B>, unpublished: set<nat>, c: nat) {
    f.heard && Crowded(f.queue, unpublished, c)
  }

  ghost predicate AllHeeded<B>(s: System<B>, c: nat) {
    forall i | 0 <= i < |s.forwarders| :: Heeded(s.forwarders[i], s.unpublished, c)
  }

  lemma HearHeeds<B>(f: Forwarder<B>, unpublished: set<nat>, e: Event<B>, c: nat)
    requires Heeded(f, unpublished, c) && e.number in unpublished && |unpublished| <= c <= BUS_CAPACITY
    ensures Heeded(Hear(f, e), unpublished - {e.number}, c)
  {
    CrowdedAppend(f.queue, unpublished, e, c);
    CrowdedLosesNothing(f.queue, unpublished - {e.number}, e, c);
    if |f.queue| >= BUS_CAPACITY {
      CrowdedTail(f.queue + [e], unpublished - {e.number}, c);
      assert (f.queue + [e])[1..] == f.queue[1..] + [e];
    }
  }

  /** New numbers are above every queued one. */
  lemma CommitHeeds<B>(s: System<B>, bodies: seq<B>, i: nat, c: nat)
    requires Inv(s) && i < |s.forwarders| && Heeded(s.forwarders[i], s.unpublished, c)
    ensures Heeded(s.forwarders[i], Next(s, Commit(bodies)).unpublished, c)
  {
    assert ForwarderInv(s, i);
    var queue, more := s.forwarders[i].queue, Next(s, Commit(bodies)).unpublished;
    forall p | 0 <= p < |queue| ensures Below(more, queue[p].number) == Below(s.unpublished, queue[p].number) {
      assert Logged(s.log, queue[p]);
    }
  }

  lemma NextHeeds<B>(s: System<B>, step: Step<B>, c: nat)
    requires Inv(s) && Enabled(s, step) && AllHeeded(s, c) && |s.unpublished| <= c <= BUS_CAPACITY
    ensures AllHeeded(Next(s, step), c)
  {
    var t := Next(s, step);
    forall i | 0 <= i < |t.forwarders| ensures Heeded(t.forwarders[i], t.unpublished, c) {
      if i < |s.forwarders| {
        var f := s.forwarders[i];
        match step {
          case Commit(bodies) => CommitHeeds(s, bodies, i, c);
          case Publish(n) => HearHeeds(f, s.unpublished, s.log[n - 1], c);
          case ReadPage(j, ok) => ReplaySends(f, EventsSince(s.log, f.last, PAGE));
          case ForwardLive(j, ok) =>
            if i == j {
              ForwardFrame(s.log, f, ok);
              CrowdedTail(f.queue, s.unpublished, c);
            }
          case _ =>
        }
      }
    }
  }

  /** In a run whose backlog never exceeds the capacity of a bus queue, every forwarder hears all it needs. */
  lemma {:induction false} BacklogIsHeard<B>(s: System<B>, steps: seq<Step<B>>, t: System<B>, c: nat)
    requires Inv(s) && AllHeeded(s, c) && Runs(s, steps, t) && Backlog(s, steps, c) && c <= BUS_CAPACITY
    ensures AllHeeded(t, c)
    decreases |steps|
  {
    if steps != [] {
      NextKeepsInv(s, steps[0]);
      NextHeeds(s, steps[0], c);
      BacklogIsHeard(Next(s, steps[0]), steps[1..], t, c);
    }
  }

  // ------------------------------------------------------------------ publication in order

  /** Every publication in the run is of the lowest number still waiting. */
  ghost predicate PublishesInOrder<B>(s: System<B>, steps: seq<Step<B>>)
    decreases |steps|
  {
    steps != [] && Enabled(s, steps[0]) ==>
      && (steps[0].Publish? ==> forall m | m in s.unpublished :: steps[0].number <= m)
      && PublishesInOrder(Next(s, steps[0]), steps[1..])
  }

  /** The queue is in order and below everything unpublished. */
  ghost predicate Queued<B>(f: Forwarder<B>, unpublished: set<nat>) {
    && f.heard
    && (forall j, k | 0 <= j < k < |f.queue| :: f.queue[j].number < f.queue[k].number)
    && (forall k, m | 0 <= k < |f.queue| && m in unpublished :: f.queue[k].number < m)
  }

  ghost predicate AllQueued<B>(s: System<B>) {
    forall i | 0 <= i < |s.forwarders| :: Queued(s.forwarders[i], s.unpublished)
  }

  lemma HearQueues<B>(f: Forwarder<B>, unpublished: set<nat>, e: Event<B>)
    requires Queued(f, unpublished) && e.number in unpublished && forall m | m in unpublished :: e.number <= m
    ensures Queued(Hear(f, e), unpublished - {e.number})
  {
    if |f.queue| >= BUS_CAPACITY {
      var kept := f.queue[1..] + [e];
      assert kept[|kept| - 1].number >= f.queue[0].number;
      assert Awaits(kept, f.queue[0].number);
    }
  }

  lemma CommitQueues<B>(s: System<B>, bodies: seq<B>, i: nat)
    requires Inv(s) && i < |s.forwarders| && Queued(s.forwarders[i], s.unpublished)
    ensures Queued(s.forwarders[i], Next(s, Commit(bodies)).unpublished)
  {
    assert ForwarderInv(s, i);
    var queue, more := s.forwarders[i].queue, Next(s, Commit(bodies)).unpublished;
    forall k, m | 0 <= k < |queue| && m in more ensures queue[k].number < m {
      assert Logged(s.log, queue[k]);
      assert m in s.unpublished || m > |s.log|;
    }
  }

  lemma ForwardQueues<B>(log: seq<Event<B>>, f: Forwarder<B>, unpublished: set<nat>, ok: bool)
    requires Queued(f, unpublished) && f.queue != []
    ensures Queued(Forward(f, log, ok), unpublished)
  {
    ForwardFrame(log, f, ok);
  }

  lemma NextQueuesOne<B>(s: System<B>, step: Step<B>, i: nat)
    requires Inv(s) && Enabled(s, step) && i < |s.forwarders| && Queued(s.forwarders[i], s.unpublished)
    requires step.Publish? ==> forall m | m in s.unpublished :: step.number <= m
    ensures (var t := Next(s, step); i < |t.forwarders| ==> Queued(t.forwarders[i], t.unpublished))
  {
    var f := s.forwarders[i];
    match step {
      case Commit(bodies) => CommitQueues(s, bodies, i);
      case Publish(n) => HearQueues(f, s.unpublished, s.log[n - 1]);
      case ReadPage(_, _) => ReplaySends(f, EventsSince(s.log, f.last, PAGE));
      case ForwardLive(j, ok) =>
        if i == j {
          ForwardQueues(s.log, f, s.unpublished, ok);
        }
      case _ =>
    }
  }

  lemma NextQueues<B>(s: System<B>, step: Step<B>)
    requires Inv(s) && Enabled(s, step) && AllQueued(s)
    requires step.Publish? ==> forall m | m in s.unpublished :: step.number <= m
    ensures AllQueued(Next(s, step))
  {
    var t := Next(s, step);
    forall i | 0 <= i < |t.forwarders| ensures Queued(t.forwarders[i], t.unpublished) {
      if i < |s.forwarders| {
        NextQueuesOne(s, step, i);
      }
    }
  }

  /** In a run that publishes in commit order, however large its backlog, every forwarder hears all it needs. */
  lemma {:induction false} OrderIsHeard<B>(s: System<B>, steps: seq<Step<B>>, t: System<B>)
    requires Inv(s) && AllQueued(s) && Runs(s, steps, t) && PublishesInOrder(s, steps)
    ensures AllQueued(t)
    decreases |steps|
  {
    if steps != [] {
      NextKeepsInv(s, steps[0]);
      NextQueues(s, steps[0]);
      OrderIsHeard(Next(s, steps[0]), steps[1..], t);
    }
  }
}
