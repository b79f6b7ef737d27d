/** The forwarder task behind `exec.events.subscribe`, as the loops over its own variables. */
module RpcServer {
  import opened EventLog
  import opened Delivery

  /** A round that succeeds sends the page after `last`, or finds the whole log sent and goes live. */
  lemma HistoryRound<B>(log: seq<Event<B>>, f: Forwarder<B>)
    requires WellNumbered(log) && Sound(log, f) && f.phase == History
    ensures
      (var g := ReadHistory(f, log, true);
        && Sound(log, g) && g.gapless == f.gapless && g.queue == f.queue && g.start == f.start && g.last >= f.last
        && ((g.phase == Live && g.last >= |log|) || (g.phase == History && f.last < g.last <= |log|)))
  {
    EventsSinceIsSlice(log, f.last, PAGE);
    if f.last < |log| {
      PageIsSent(log, f, Min(f.last + PAGE, |log|));
    }
  }

  class ForwarderTask<B> {
    ghost const start: nat
    var last: nat
    var phase: Phase
    var queue: seq<Event<B>>
    var outbox: seq<Event<B>>
    ghost var sent: seq<Event<B>>
    ghost var gapless: bool
    ghost var heard: bool

    ghost function View(): Forwarder<B>
      reads this
    {
      Forwarder(start, last, phase, queue, sent, outbox, gapless, heard)
    }

    constructor (since: nat)
      ensures View() == NewForwarder(since)
    {
      start := since;
      last, phase, queue, outbox := since, History, [], [];
      sent, gapless, heard := [], true, true;
    }

    method Send(e: Event<B>)
      modifies this
      ensures View() == Emit(old(View()), e)
    {
      last := e.number;
      outbox := outbox + [e];
      sent := sent + [e];
    }

    /** One page of history: a failed read ends the task, an empty page ends the replay. */
    method ReplayPage(log: seq<Event<B>>, ok: bool)
      requires phase == History
      modifies this
      ensures View() == ReadHistory(old(View()), log, ok)
    {
      if !ok {
        phase := Dead;
        return;
      }
      var batch := EventsSince(log, last, PAGE);
      if batch == [] {
        phase := Live;
        return;
      }
      var k := 0;
      while k < |batch|
        invariant 0 <= k <= |batch|
        invariant View() == Replay(old(View()), batch[..k])
      {
        assert batch[..k + 1][..k] == batch[..k];
        Send(batch[k]);
        k := k + 1;
      }
      assert batch[..k] == batch;
    }

    /** The history loop over a log that does not grow meanwhile: it ends, live, with all of it sent. */
    method ReplayHistory(log: seq<Event<B>>)
      requires phase == History && WellNumbered(log) && Sound(log, View()) && gapless
      modifies this
      ensures phase == Live && last >= |log| && queue == old(queue)
      ensures Sound(log, View()) && sent == Slice(log, start, Max(start, |log|))
    {
      while phase == History
        invariant phase == History || (phase == Live && last >= |log|)
        invariant Sound(log, View()) && gapless && last >= old(last) && queue == old(queue)
        decreases phase == History, |log| - last
      {
        ghost var f := View();
        HistoryRound(log, f);
        ReplayPage(log, true);
      }
    }

    /** One received event: skip it if already sent, fill a hole from the table, then send it. */
    method ForwardOne(log: seq<Event<B>>, ok: bool)
      requires phase == Live && queue != []
      modifies this
      ensures View() == Forward(old(View()), log, ok)
    {
      var ev := queue[0];
      gapless := gapless && NoHole(View(), ok);
      queue := queue[1..];
      if ev.number <= last {
        return;
      }
      if ev.number > last + 1 {
        if ok {
          FillHole(EventsSince(log, last, PAGE));
        }
        if ev.number <= last {
          return;
        }
      }
      Send(ev);
    }

    method FillHole(missing: seq<Event<B>>)
      modifies this
      ensures View() == Backfill(old(View()), missing)
    {
      var k := 0;
      while k < |missing|
        invariant 0 <= k <= |missing|
        invariant View() == Backfill(old(View()), missing[..k])
      {
        assert missing[..k + 1][..k] == missing[..k];
        if missing[k].number > last {
          Send(missing[k]);
        }
        k := k + 1;
      }
      assert missing[..k] == missing;
    }

    /** The bus hands over an event; a full queue loses its oldest. */
    method Receive(e: Event<B>)
      modifies this
      ensures View() == Hear(old(View()), e)
    {
      heard := heard && NoLoss(queue, e);
      if |queue| < BUS_CAPACITY {
        queue := queue + [e];
      } else {
        queue := queue[1..] + [e];
      }
    }
  }
}
