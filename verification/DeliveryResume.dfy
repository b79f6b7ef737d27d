/** What a reconnecting client is sent: nothing again that it already had. */
module DeliveryResume {
  import opened EventLog
  import opened Delivery
  import opened DeliveryBounds
  import opened DeliveryRuns
  import opened DeliveryHoles

  ghost predicate AllAbove<B>(es: seq<Event<B>>, last: nat) {
    forall k | 0 <= k < |es| :: es[k].number > last
  }

  /** What forwarder 0 has under way, on the wire and before it. */
  ghost function UnderWay<B>(s: System<B>): seq<Event<B>>
    requires s.forwarders != []
  {
    FramesOf(s.wire, 0) + s.forwarders[0].outbox
  }

  /** The connection has one subscribe request, from what the client has, or its forwarder, which is past that. */
  ghost predicate Resumed<B>(s: System<B>) {
    && |s.forwarders| + |s.requests| <= 1 && s.writeQueue == []
    && (s.conn != Up ==> s.requests == [])
    && (forall k | 0 <= k < |s.requests| :: s.requests[k] >= s.client.last)
    && (s.forwarders == [] ==> s.wire == [])
    && (s.forwarders != [] ==> s.forwarders[0].last >= s.client.last && AllAbove(UnderWay(s), s.client.last))
  }

  lemma SendingStaysAbove<B>(s: System<B>, g: Forwarder<B>)
    requires Inv(s) && Resumed(s) && s.forwarders != [] && Onward(s.forwarders[0], g)
    ensures Resumed(s.(forwarders := s.forwarders[0 := g]))
  {
    var f := s.forwarders[0];
    var frames := FramesOf(s.wire, 0);
    var after := frames + g.outbox;
    forall k | 0 <= k < |after| ensures after[k].number > s.client.last {
      if k < |frames| + |f.outbox| {
        assert after[k] == UnderWay(s)[k];
      } else {
        assert after[k] == g.sent[|f.sent| + k - |frames| - |f.outbox|];
      }
    }
  }

  lemma ReadingStaysAbove<B>(s: System<B>, ok: bool)
    requires Inv(s) && Resumed(s) && Enabled(s, ReadPage(0, ok))
    ensures Resumed(Next(s, ReadPage(0, ok)))
  {
    assert ForwarderInv(s, 0);
    ReadHistoryIsOnward(s.log, s.forwarders[0], ok);
    SendingStaysAbove(s, ReadHistory(s.forwarders[0], s.log, ok));
  }

  lemma ForwardingStaysAbove<B>(s: System<B>, ok: bool)
    requires Inv(s) && Resumed(s) && Enabled(s, ForwardLive(0, ok))
    ensures Resumed(Next(s, ForwardLive(0, ok)))
  {
    assert ForwarderInv(s, 0);
    ForwardIsOnward(s.log, s.forwarders[0], ok);
    SendingStaysAbove(s, Forward(s.forwarders[0], s.log, ok));
  }

  lemma TransferStaysAbove<B>(s: System<B>)
    requires Resumed(s) && Enabled(s, Transfer(0))
    ensures Resumed(Next(s, Transfer(0)))
  {
    var f := s.forwarders[0];
    FramesAppend(s.wire, Frame(0, f.outbox[0]), 0);
    assert FramesOf(s.wire, 0) + [f.outbox[0]] + f.outbox[1..] == UnderWay(s);
  }

  /** The next frame is new, and those behind it are newer still. */
  lemma DeliveredIsNew<B>(s: System<B>)
    requires Inv(s) && Resumed(s) && Enabled(s, Deliver)
    ensures Resumed(Next(s, Deliver)) && Next(s, Deliver).client.duplicates == s.client.duplicates
  {
    assert ForwarderInv(s, 0) && s.wire[0].from == 0;
    var f, e := s.forwarders[0], s.wire[0].event;
    var flight, rest := UnderWay(s), FramesOf(s.wire[1..], 0) + s.forwarders[0].outbox;
    assert FramesOf(s.wire, 0) == [e] + FramesOf(s.wire[1..], 0);
    assert flight == [e] + rest;
    var base := |f.sent| - |flight|;
    assert e == flight[0] == f.sent[base];
    forall k | 0 <= k < |rest| ensures rest[k].number > e.number {
      assert rest[k] == flight[k + 1] == f.sent[base + k + 1];
    }
  }

  lemma PublishStaysAbove<B>(s: System<B>, n: nat)
    requires Resumed(s) && Enabled(s, Publish(n))
    ensures Resumed(Next(s, Publish(n)))
  {
    if s.forwarders != [] {
      assert UnderWay(Next(s, Publish(n))) == UnderWay(s);
    }
  }

  lemma OtherStaysResumed<B>(s: System<B>, step: Step<B>)
    requires Inv(s) && Resumed(s) && Enabled(s, step)
    requires step.Commit? || step.Serve? || step.Refuse? || step.Die? || step.Dial? || step.Connected? || step.Lost?
    ensures Resumed(Next(s, step)) && Next(s, step).client.duplicates == s.client.duplicates
  {
  }

  lemma NextStaysResumed<B>(s: System<B>, step: Step<B>)
    requires Inv(s) && Resumed(s) && Enabled(s, step)
    ensures Resumed(Next(s, step)) && Next(s, step).client.duplicates == s.client.duplicates
  {
    match step
    case ReadPage(_, ok) => ReadingStaysAbove(s, ok);
    case ForwardLive(_, ok) => ForwardingStaysAbove(s, ok);
    case Transfer(i) => TransferStaysAbove(s);
    case Deliver => DeliveredIsNew(s);
    case Publish(n) => PublishStaysAbove(s, n);
    case _ => OtherStaysResumed(s, step);
  }

  lemma {:induction false} RunStaysResumed<B>(s: System<B>, steps: seq<Step<B>>, t: System<B>)
    requires Inv(s) && Resumed(s) && Runs(s, steps, t)
    ensures Resumed(t) && t.client.duplicates == s.client.duplicates
    decreases |steps|
  {
    if steps != [] {
      NextKeepsInv(s, steps[0]);
      NextStaysResumed(s, steps[0]);
      RunStaysResumed(Next(s, steps[0]), steps[1..], t);
    }
  }

  /**
   * Once a connection is lost with no subscribe request left in the write queue, no frame that reaches the
   * client from then on is one it already had, through any further connections and losses: every reconnect
   * asks the daemon only for what comes after the last number delivered.
   */
  lemma ReconnectRepeatsNothing<B>(
    s: System<B>, since: nat, steps: seq<Step<B>>, t: System<B>, more: seq<Step<B>>, u: System<B>)
    requires Init(s, since) && Runs(s, steps, t) && t.writeQueue == [] && Enabled(t, Lost)
    requires Runs(Next(t, Lost), more, u)
    ensures u.client.duplicates == t.client.duplicates
  {
    RunKeepsInv(s, steps, t);
    NextKeepsInv(t, Lost);
    RunStaysResumed(Next(t, Lost), more, u);
  }
}
