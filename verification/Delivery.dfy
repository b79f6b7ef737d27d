/**
 * Delivery of the event log to one client: commit, publication on the bus, one forwarder per
 * subscribe request, the connection, and the client's acceptance rule, as a state machine.
 */
module Delivery {
  import opened EventLog

  const PAGE: nat := 500
  const BUS_CAPACITY: nat := 4096

  // ------------------------------------------------------------------ forwarder

  datatype Phase = History | Live | Dead

  /**
   * The task behind one subscription. `queue` is its unread part of the bus, `sent` every frame it
   * produced and `outbox` the suffix of `sent` not yet handed to the socket. `gapless` and `heard`
   * record whether every step so far met NoHole and NoLoss below; `DeliveryBounds` says when they hold.
   */
  datatype Forwarder<+B> = Forwarder(
    start: nat, last: nat, phase: Phase, queue: seq<Event<B>>,
    sent: seq<Event<B>>, outbox: seq<Event<B>>, gapless: bool, heard: bool)

  function NewForwarder<B>(since: nat): Forwarder<B> {
    Forwarder(since, since, History, [], [], [], true, true)
  }

  function Emit<B>(f: Forwarder<B>, e: Event<B>): Forwarder<B> {
    f.(last := e.number, sent := f.sent + [e], outbox := f.outbox + [e])
  }

  /** The history loop's body over one page: every row is sent. */
  function Replay<B>(f: Forwarder<B>, page: seq<Event<B>>): Forwarder<B> {
    if page == [] then f else Emit(Replay(f, page[..|page| - 1]), page[|page| - 1])
  }

  /** The hole-filling loop over one page: rows at or below `last` are skipped. */
  function Backfill<B>(f: Forwarder<B>, page: seq<Event<B>>): Forwarder<B> {
    if page == [] then f
    else
      var g := Backfill(f, page[..|page| - 1]);
      var m := page[|page| - 1];
      if m.number > g.last then Emit(g, m) else g
  }

  /** One round of the history loop; a failed read ends the task, an empty page starts live mode. */
  function ReadHistory<B>(f: Forwarder<B>, log: seq<Event<B>>, ok: bool): Forwarder<B> {
    if !ok then f.(phase := Dead)
    else
      var page := EventsSince(log, f.last, PAGE);
      if page == [] then f.(phase := Live) else Replay(f, page)
  }

  /** No hole opens: the event is not ahead, or the page just read reaches its predecessor. */
  predicate NoHole<B>(f: Forwarder<B>, ok: bool)
    requires f.queue != []
  {
    f.queue[0].number <= f.last + 1 || (ok && f.queue[0].number <= f.last + PAGE + 1)
  }

  /** One round of the live loop on the oldest unread event. */
  function Forward<B>(f: Forwarder<B>, log: seq<Event<B>>, ok: bool): Forwarder<B>
    requires f.queue != []
  {
    var e := f.queue[0];
    var g := f.(queue := f.queue[1..], gapless := f.gapless && NoHole(f, ok));
    if e.number <= f.last then g
    else
      var h := if e.number > f.last + 1 && ok then Backfill(g, EventsSince(log, f.last, PAGE)) else g;
      if e.number <= h.last then h else Emit(h, e)
  }

  /** A full queue drops its oldest event; nothing is lost if a retained event is at least as late. */
  predicate NoLoss<B>(queue: seq<Event<B>>, e: Event<B>) {
    |queue| < BUS_CAPACITY || Awaits(queue[1..] + [e], queue[0].number)
  }

  /** Some queued event is numbered `n` or later. */
  predicate Awaits<B>(queue: seq<Event<B>>, n: nat) {
    exists k | 0 <= k < |queue| :: queue[k].number >= n
  }

  function Hear<B>(f: Forwarder<B>, e: Event<B>): Forwarder<B> {
    f.(queue := if |f.queue| < BUS_CAPACITY then f.queue + [e] else f.queue[1..] + [e],
       heard := f.heard && NoLoss(f.queue, e))
  }

  // ------------------------------------------------------------------ client

  /** The client's active subscription. */
  datatype Subscription<+B> = Subscription(
    since: nat, last: nat, delivered: seq<Event<B>>, duplicates: nat, outOfOrder: nat)

  function Accept<B>(c: Subscription<B>, e: Event<B>): Subscription<B> {
    if e.number <= c.last then c.(duplicates := c.duplicates + 1)
    else if e.number != c.last + 1 then c.(outOfOrder := c.outOfOrder + 1)
    else c.(last := e.number, delivered := c.delivered + [e])
  }

  // ------------------------------------------------------------------ system

  datatype Frame<+B> = Frame(from: nat, event: Event<B>)

  datatype Conn = Down | Dialing | Up

  /**
   * `unpublished`: numbers committed but not yet broadcast. `requests`: subscribe requests under way
   * on the current socket. `writeQueue`: requests kept until a writable socket exists. A forwarder whose
   * frame cannot be encoded or sent dies at that point.
   */
  datatype System<+B> = System(
    log: seq<Event<B>>, unpublished: set<nat>, forwarders: seq<Forwarder<B>>, wire: seq<Frame<B>>,
    conn: Conn, requests: seq<nat>, writeQueue: seq<nat>, client: Subscription<B>)

  datatype Step<+B> =
    | Commit(bodies: seq<B>)
    | Publish(number: nat)
    | Serve
    | Refuse
    | ReadPage(i: nat, ok: bool)
    | ForwardLive(i: nat, ok: bool)
    | Transfer(i: nat)
    | Die(i: nat)
    | Deliver
    | Dial
    | Connected
    | Lost

  function Numbered<B>(base: nat, bodies: seq<B>): (r: seq<Event<B>>)
    ensures |r| == |bodies|
    ensures forall k | 0 <= k < |r| :: r[k] == Event(base + k + 1, bodies[k])
  {
    seq(|bodies|, k requires 0 <= k < |bodies| => Event(base + k + 1, bodies[k]))
  }

  predicate Enabled<B>(s: System<B>, step: Step<B>) {
    match step
    case Commit(_) => true
    case Publish(n) => n in s.unpublished && 0 < n <= |s.log|
    case Serve => s.conn == Up && s.requests != []
    case Refuse => s.conn == Up && s.requests != []
    case ReadPage(i, _) => i < |s.forwarders| && s.forwarders[i].phase == History
    case ForwardLive(i, _) => i < |s.forwarders| && s.forwarders[i].phase == Live && s.forwarders[i].queue != []
    case Transfer(i) => i < |s.forwarders| && s.forwarders[i].outbox != []
    case Die(i) => i < |s.forwarders|
    case Deliver => s.wire != []
    case Dial => s.conn == Down
    case Connected => s.conn == Dialing
    case Lost => s.conn != Down
  }

  function Next<B>(s: System<B>, step: Step<B>): System<B>
    requires Enabled(s, step)
  {
    match step
    case Commit(bodies) =>
      var added := Numbered(|s.log|, bodies);
      s.(log := s.log + added, unpublished := s.unpublished + set k | 0 <= k < |added| :: added[k].number)
    case Publish(n) =>
      s.(unpublished := s.unpublished - {n},
         forwarders := seq(|s.forwarders|, i requires 0 <= i < |s.forwarders| => Hear(s.forwarders[i], s.log[n - 1])))
    case Serve =>
      s.(requests := s.requests[1..], forwarders := s.forwarders + [NewForwarder(s.requests[0])])
    case Refuse => s.(requests := s.requests[1..])
    case ReadPage(i, ok) => s.(forwarders := s.forwarders[i := ReadHistory(s.forwarders[i], s.log, ok)])
    case ForwardLive(i, ok) => s.(forwarders := s.forwarders[i := Forward(s.forwarders[i], s.log, ok)])
    case Transfer(i) =>
      var f := s.forwarders[i];
      s.(forwarders := s.forwarders[i := f.(outbox := f.outbox[1..])], wire := s.wire + [Frame(i, f.outbox[0])])
    case Die(i) => s.(forwarders := s.forwarders[i := s.forwarders[i].(phase := Dead)])
    case Deliver => s.(wire := s.wire[1..], client := Accept(s.client, s.wire[0].event))
    case Dial => s.(conn := Dialing)
    case Connected => s.(conn := Up, requests := s.requests + s.writeQueue + [s.client.last], writeQueue := [])
    case Lost => s.(conn := Down, requests := [], wire := [], forwarders := [])
  }

  /** `subscribe(since)` on a client in any connection state, over any log with any unpublished part. */
  ghost predicate Init<B>(s: System<B>, since: nat) {
    && WellNumbered(s.log)
    && (forall n | n in s.unpublished :: 0 < n <= |s.log|)
    && s.forwarders == [] && s.wire == []
    && s.client == Subscription(since, since, [], 0, 0)
    && ((s.requests == [] && s.writeQueue == [since]) || (s.conn != Down && s.requests == [since] && s.writeQueue == []))
  }

  ghost predicate Runs<B>(s: System<B>, steps: seq<Step<B>>, t: System<B>)
    decreases |steps|
  {
    if steps == [] then s == t
    else Enabled(s, steps[0]) && Runs(Next(s, steps[0]), steps[1..], t)
  }

  // ------------------------------------------------------------------ invariant

  ghost predicate Increasing<B>(es: seq<Event<B>>) {
    forall i, j | 0 <= i < j < |es| :: es[i].number < es[j].number
  }

  /** What holds of one forwarder against the log, whatever the environment does. */
  ghost predicate Sound<B>(log: seq<Event<B>>, f: Forwarder<B>) {
    && f.start <= f.last && (f.last <= |log| || f.last == f.start)
    && (forall k | 0 <= k < |f.queue| :: Logged(log, f.queue[k]))
    && (forall k | 0 <= k < |f.sent| :: Logged(log, f.sent[k]) && f.start < f.sent[k].number <= f.last)
    && Increasing(f.sent)
    && (f.gapless ==> f.sent == Slice(log, f.start, f.last))
  }

  /** Every entry still to come is unpublished, or a queued event at least as late will reach it. */
  ghost predicate Covered<B>(log: seq<Event<B>>, unpublished: set<nat>, f: Forwarder<B>) {
    f.heard && f.phase == Live ==>
      forall n: nat | f.last < n <= |log| && n !in unpublished :: Awaits(f.queue, n)
  }

  /** The frames of forwarder `i` under way, in order. */
  ghost function FramesOf<B>(wire: seq<Frame<B>>, i: nat): seq<Event<B>> {
    if wire == [] then []
    else (if wire[0].from == i then [wire[0].event] else []) + FramesOf(wire[1..], i)
  }

  /** What is under way is the unseen suffix of `sent`, and the client has all of a gapless prefix. */
  ghost predicate Linked<B>(wire: seq<Frame<B>>, clientLast: nat, f: Forwarder<B>, i: nat) {
    var flight := FramesOf(wire, i) + f.outbox;
    && |flight| <= |f.sent| && flight == f.sent[|f.sent| - |flight|..]
    && (f.gapless ==> f.start + |f.sent| - |flight| <= clientLast)
  }

  ghost predicate ClientSound<B>(log: seq<Event<B>>, c: Subscription<B>) {
    && c.since <= c.last && (c.last <= |log| || c.last == c.since)
    && c.delivered == Slice(log, c.since, c.last)
  }

  ghost predicate ForwarderInv<B>(s: System<B>, i: nat)
    requires i < |s.forwarders|
  {
    && Sound(s.log, s.forwarders[i])
    && Covered(s.log, s.unpublished, s.forwarders[i])
    && Linked(s.wire, s.client.last, s.forwarders[i], i)
  }

  ghost predicate Inv<B>(s: System<B>) {
    && WellNumbered(s.log)
    && (forall n | n in s.unpublished :: 0 < n <= |s.log|)
    && ClientSound(s.log, s.client)
    && (forall k | 0 <= k < |s.wire| :: Logged(s.log, s.wire[k].event) && s.wire[k].from < |s.forwarders|)
    && (forall k | 0 <= k < |s.requests| :: s.requests[k] <= s.client.last)
    && (forall k | 0 <= k < |s.writeQueue| :: s.writeQueue[k] <= s.client.last)
    && (s.conn != Up ==> s.wire == [] && s.forwarders == [])
    && (forall i | 0 <= i < |s.forwarders| :: ForwarderInv(s, i))
  }

  // ------------------------------------------------------------------ forwarder steps

  /** Sending a later logged event keeps the order; sending the next one keeps the output gap-free. */
  lemma EmitKeepsSound<B>(log: seq<Event<B>>, f: Forwarder<B>, e: Event<B>)
    requires WellNumbered(log) && Sound(log, f)
    requires Logged(log, e) && e.number > f.last && (f.gapless ==> e.number == f.last + 1)
    ensures Sound(log, Emit(f, e))
  {
    if f.gapless {
      assert Slice(log, f.start, f.last) + [e] == Slice(log, f.start, f.last + 1);
    }
  }

  /** Sending a page row by row queues the whole page. */
  lemma {:induction false} ReplaySends<B>(f: Forwarder<B>, page: seq<Event<B>>)
    ensures Replay(f, page) == f.(
      last := if page == [] then f.last else page[|page| - 1].number, sent := f.sent + page, outbox := f.outbox + page)
  {
    if page == [] {
      assert f.sent + [] == f.sent && f.outbox + [] == f.outbox;
    } else {
      var init, e := page[..|page| - 1], page[|page| - 1];
      ReplaySends(f, init);
      assert f.sent + page == f.sent + init + [e] && f.outbox + page == f.outbox + init + [e];
    }
  }

  /** On the rows right after `last` the hole-filling loop skips none. */
  lemma {:induction false} BackfillSkipsNone<B>(f: Forwarder<B>, page: seq<Event<B>>)
    requires forall k | 0 <= k < |page| :: page[k].number == f.last + k + 1
    ensures Backfill(f, page) == Replay(f, page)
  {
    if page != [] {
      var init := page[..|page| - 1];
      BackfillSkipsNone(f, init);
      ReplaySends(f, init);
    }
  }

  /** A forwarder that sent the page right after `last` is sound. */
  lemma PageKeepsSound<B>(log: seq<Event<B>>, f: Forwarder<B>, upTo: nat)
    requires WellNumbered(log) && Sound(log, f) && f.last <= upTo <= |log|
    ensures
      (var page := Slice(log, f.last, upTo);
        Sound(log, f.(last := upTo, sent := f.sent + page, outbox := f.outbox + page)))
  {
    PageIsLater(log, f, upTo);
    if f.gapless {
      SlicesJoin(log, f.start, f.last, upTo);
    }
  }

  lemma SlicesJoin<B>(log: seq<Event<B>>, a: nat, b: nat, c: nat)
    requires a <= b <= c <= |log|
    ensures Slice(log, a, b) + Slice(log, b, c) == Slice(log, a, c)
  {
  }

  /** The page is of logged events after `last` up to `upTo`, so what was sent stays in order with it. */
  lemma PageIsLater<B>(log: seq<Event<B>>, f: Forwarder<B>, upTo: nat)
    requires WellNumbered(log) && Sound(log, f) && f.last <= upTo <= |log|
    ensures
      (var sent := f.sent + Slice(log, f.last, upTo);
        && Increasing(sent)
        && forall k | 0 <= k < |sent| :: Logged(log, sent[k]) && f.start < sent[k].number <= upTo)
  {
    var page := Slice(log, f.last, upTo);
    assert forall k | 0 <= k < |page| :: page[k] == log[f.last + k] && page[k].number == f.last + k + 1;
  }

  /** On the page right after `last` both loops send exactly the page. */
  lemma PageIsSent<B>(log: seq<Event<B>>, f: Forwarder<B>, upTo: nat)
    requires WellNumbered(log) && Sound(log, f) && f.last <= upTo <= |log|
    ensures var page := Slice(log, f.last, upTo);
      && Replay(f, page) == f.(last := upTo, sent := f.sent + page, outbox := f.outbox + page)
      && Backfill(f, page) == Replay(f, page)
      && Sound(log, Replay(f, page))
  {
    var page := Slice(log, f.last, upTo);
    assert forall k | 0 <= k < |page| :: page[k] == log[f.last + k] && page[k].number == f.last + k + 1;
    ReplaySends(f, page);
    BackfillSkipsNone(f, page);
    PageKeepsSound(log, f, upTo);
  }

  /** `g` is `f` after sending some more: new frames are queued behind the old ones. */
  ghost predicate Grown<B>(f: Forwarder<B>, g: Forwarder<B>) {
    && g.start == f.start && (g.gapless ==> f.gapless)
    && |f.sent| <= |g.sent| && f.sent == g.sent[..|f.sent|]
    && g.outbox == f.outbox + g.sent[|f.sent|..]
  }

  lemma ReadHistoryKeeps<B>(log: seq<Event<B>>, unpublished: set<nat>, f: Forwarder<B>, ok: bool)
    requires WellNumbered(log) && Sound(log, f) && f.phase == History
    ensures var g := ReadHistory(f, log, ok);
      Sound(log, g) && Grown(f, g) && Covered(log, unpublished, g)
  {
    EventsSinceIsSlice(log, f.last, PAGE);
    if f.last < |log| {
      PageIsSent(log, f, Min(f.last + PAGE, |log|));
    }
  }

  /** Sending `e` on its own, after whatever `g` already sent. */
  lemma EmitGrows<B>(log: seq<Event<B>>, f: Forwarder<B>, g: Forwarder<B>, e: Event<B>)
    requires WellNumbered(log) && Sound(log, g) && Grown(f, g)
    requires Logged(log, e) && e.number > g.last && (g.gapless ==> e.number == g.last + 1)
    ensures Sound(log, Emit(g, e)) && Grown(f, Emit(g, e))
  {
    EmitKeepsSound(log, g, e);
  }

  lemma BackfillGrows<B>(log: seq<Event<B>>, g: Forwarder<B>)
    requires WellNumbered(log) && Sound(log, g)
    ensures var h := Backfill(g, EventsSince(log, g.last, PAGE));
      Sound(log, h) && Grown(g, h) && h.last == Max(g.last, Min(g.last + PAGE, |log|))
  {
    EventsSinceIsSlice(log, g.last, PAGE);
    if g.last <= |log| {
      PageIsSent(log, g, Min(g.last + PAGE, |log|));
    }
  }

  lemma ForwardSends<B>(log: seq<Event<B>>, f: Forwarder<B>, ok: bool)
    requires WellNumbered(log) && Sound(log, f) && f.queue != []
    ensures var g := Forward(f, log, ok);
      Sound(log, g) && Grown(f, g) && g.last >= f.last && g.last >= f.queue[0].number
  {
    var e := f.queue[0];
    var g := f.(queue := f.queue[1..], gapless := f.gapless && NoHole(f, ok));
    if e.number > f.last + 1 && ok {
      BackfillGrows(log, g);
      var h := Backfill(g, EventsSince(log, f.last, PAGE));
      GrownTrans(f, g, h);
      if e.number > h.last {
        BackfillFrame(g, EventsSince(log, f.last, PAGE));
        EmitGrows(log, f, h, e);
      }
    } else if e.number > f.last {
      EmitGrows(log, f, g, e);
    }
  }

  lemma GrownTrans<B>(f: Forwarder<B>, g: Forwarder<B>, h: Forwarder<B>)
    requires Grown(f, g) && Grown(g, h)
    ensures Grown(f, h)
  {
    assert h.sent[|f.sent|..] == g.sent[|f.sent|..] + h.sent[|g.sent|..];
  }

  lemma ForwardKeeps<B>(log: seq<Event<B>>, unpublished: set<nat>, f: Forwarder<B>, ok: bool)
    requires WellNumbered(log) && Sound(log, f) && Covered(log, unpublished, f)
    requires f.phase == Live && f.queue != []
    ensures var g := Forward(f, log, ok);
      Sound(log, g) && Grown(f, g) && Covered(log, unpublished, g)
  {
    ForwardSends(log, f, ok);
    ForwardFrame(log, f, ok);
    ForwardKeepsCovered(log, unpublished, f, Forward(f, log, ok));
  }

  lemma {:induction false} BackfillFrame<B>(f: Forwarder<B>, page: seq<Event<B>>)
    ensures var g := Backfill(f, page);
      g == f.(last := g.last, sent := g.sent, outbox := g.outbox)
  {
    if page != [] {
      BackfillFrame(f, page[..|page| - 1]);
    }
  }

  lemma ForwardFrame<B>(log: seq<Event<B>>, f: Forwarder<B>, ok: bool)
    requires f.queue != []
    ensures var g := Forward(f, log, ok);
      g.queue == f.queue[1..] && g.heard == f.heard && g.phase == f.phase && g.gapless == (f.gapless && NoHole(f, ok))
  {
    BackfillFrame(f.(queue := f.queue[1..], gapless := f.gapless && NoHole(f, ok)), EventsSince(log, f.last, PAGE));
  }

  lemma ForwardKeepsCovered<B>(log: seq<Event<B>>, unpublished: set<nat>, f: Forwarder<B>, g: Forwarder<B>)
    requires Covered(log, unpublished, f) && f.phase == Live && f.queue != []
    requires g.last >= f.last && g.last >= f.queue[0].number && g.queue == f.queue[1..]
    requires g.heard == f.heard
    ensures Covered(log, unpublished, g)
  {
    if g.heard && g.phase == Live {
      forall n: nat | g.last < n <= |log| && n !in unpublished ensures Awaits(g.queue, n) {
        assert Awaits(f.queue, n);
        var k :| 0 <= k < |f.queue| && f.queue[k].number >= n;
        assert g.queue[k - 1].number >= n;
      }
    }
  }

  // ------------------------------------------------------------------ every step keeps the invariant

  lemma SoundExtends<B>(log: seq<Event<B>>, more: seq<Event<B>>, f: Forwarder<B>)
    requires WellNumbered(log) && Sound(log, f)
    ensures Sound(log + more, f)
  {
    SliceExtends(log, more, f.start, f.last);
  }

  lemma CommitKeeps<B>(s: System<B>, bodies: seq<B>)
    requires Inv(s)
    ensures Inv(Next(s, Commit(bodies)))
  {
    var added := Numbered(|s.log|, bodies);
    var t := Next(s, Commit(bodies));
    SliceExtends(s.log, added, s.client.since, s.client.last);
    forall i | 0 <= i < |t.forwarders| ensures ForwarderInv(t, i) {
      assert ForwarderInv(s, i);
      SoundExtends(s.log, added, s.forwarders[i]);
      forall n: nat | |s.log| < n <= |t.log| ensures n in t.unpublished {
        assert added[n - |s.log| - 1].number == n;
      }
    }
  }

  lemma HearKeeps<B>(log: seq<Event<B>>, unpublished: set<nat>, f: Forwarder<B>, e: Event<B>)
    requires WellNumbered(log) && Sound(log, f) && Covered(log, unpublished, f) && Logged(log, e)
    ensures Sound(log, Hear(f, e)) && Covered(log, unpublished - {e.number}, Hear(f, e))
  {
    var g := Hear(f, e);
    if g.heard && g.phase == Live {
      forall n: nat | g.last < n <= |log| && n !in unpublished - {e.number} ensures Awaits(g.queue, n) {
        if n == e.number {
          assert g.queue[|g.queue| - 1].number >= n;
        } else {
          var k :| 0 <= k < |f.queue| && f.queue[k].number >= n;
          if |f.queue| < BUS_CAPACITY {
            assert g.queue[k].number >= n;
          } else if k > 0 {
            assert g.queue[k - 1].number >= n;
          }
        }
      }
    }
  }

  lemma PublishKeeps<B>(s: System<B>, n: nat)
    requires Inv(s) && Enabled(s, Publish(n))
    ensures Inv(Next(s, Publish(n)))
  {
    var t := Next(s, Publish(n));
    forall i | 0 <= i < |t.forwarders| ensures ForwarderInv(t, i) {
      assert ForwarderInv(s, i);
      HearKeeps(s.log, s.unpublished, s.forwarders[i], s.log[n - 1]);
    }
  }

  /** Frames of one forwarder after appending a frame, and none for an index not in use. */
  lemma {:induction false} FramesAppend<B>(wire: seq<Frame<B>>, fr: Frame<B>, i: nat)
    ensures FramesOf(wire + [fr], i) == FramesOf(wire, i) + (if fr.from == i then [fr.event] else [])
  {
    if wire != [] {
      FramesAppend(wire[1..], fr, i);
      assert (wire + [fr])[1..] == wire[1..] + [fr];
    }
  }

  lemma {:induction false} NoFrames<B>(wire: seq<Frame<B>>, i: nat)
    requires forall k | 0 <= k < |wire| :: wire[k].from < i
    ensures FramesOf(wire, i) == []
  {
    if wire != [] {
      NoFrames(wire[1..], i);
    }
  }

  lemma NewForwarderIsSound<B>(log: seq<Event<B>>, unpublished: set<nat>, since: nat)
    requires WellNumbered(log)
    ensures Sound(log, NewForwarder<B>(since)) && Covered(log, unpublished, NewForwarder<B>(since))
  {
  }

  lemma ServeKeepsOne<B>(s: System<B>, i: nat)
    requires Inv(s) && Enabled(s, Serve) && i <= |s.forwarders|
    ensures ForwarderInv(Next(s, Serve), i)
  {
    var t := Next(s, Serve);
    if i < |s.forwarders| {
      assert ForwarderInv(s, i);
      assert t.forwarders[i] == s.forwarders[i];
    } else {
      NewForwarderIsSound(s.log, s.unpublished, s.requests[0]);
      NoFrames(s.wire, i);
      assert t.forwarders[i] == NewForwarder(s.requests[0]);
    }
  }

  lemma ServeKeeps<B>(s: System<B>)
    requires Inv(s) && Enabled(s, Serve)
    ensures Inv(Next(s, Serve))
  {
    var t := Next(s, Serve);
    assert |t.forwarders| == |s.forwarders| + 1;
    forall i | 0 <= i < |t.forwarders| ensures ForwarderInv(t, i) {
      ServeKeepsOne(s, i);
    }
  }

  lemma GrownKeepsLinked<B>(wire: seq<Frame<B>>, clientLast: nat, f: Forwarder<B>, g: Forwarder<B>, i: nat)
    requires Linked(wire, clientLast, f, i) && Grown(f, g)
    ensures Linked(wire, clientLast, g, i)
  {
    var flight := FramesOf(wire, i) + f.outbox;
    assert FramesOf(wire, i) + g.outbox == flight + g.sent[|f.sent|..];
    assert g.sent[|f.sent| - |flight|..] == f.sent[|f.sent| - |flight|..] + g.sent[|f.sent|..];
  }

  lemma ForwarderStepKeeps<B>(s: System<B>, i: nat, g: Forwarder<B>)
    requires Inv(s) && i < |s.forwarders| && s.conn == Up
    requires Sound(s.log, g) && Covered(s.log, s.unpublished, g) && Grown(s.forwarders[i], g)
    ensures Inv(s.(forwarders := s.forwarders[i := g]))
  {
    var t := s.(forwarders := s.forwarders[i := g]);
    forall j | 0 <= j < |t.forwarders| ensures ForwarderInv(t, j) {
      assert ForwarderInv(s, j);
      if j == i {
        GrownKeepsLinked(s.wire, s.client.last, s.forwarders[i], g, i);
      }
    }
  }

  lemma TransferKeepsLinked<B>(wire: seq<Frame<B>>, clientLast: nat, f: Forwarder<B>, i: nat)
    requires Linked(wire, clientLast, f, i) && f.outbox != []
    ensures Linked(wire + [Frame(i, f.outbox[0])], clientLast, f.(outbox := f.outbox[1..]), i)
    ensures f.outbox[0] in f.sent
  {
    FramesAppend(wire, Frame(i, f.outbox[0]), i);
    var flight := FramesOf(wire, i) + f.outbox;
    assert FramesOf(wire + [Frame(i, f.outbox[0])], i) + f.outbox[1..] == flight;
    assert f.outbox[0] == flight[|FramesOf(wire, i)|];
  }

  lemma OutboxAlone<B>(log: seq<Event<B>>, unpublished: set<nat>, f: Forwarder<B>, rest: seq<Event<B>>)
    requires Sound(log, f) && Covered(log, unpublished, f)
    ensures Sound(log, f.(outbox := rest)) && Covered(log, unpublished, f.(outbox := rest))
  {
  }

  lemma TransferKeepsOne<B>(s: System<B>, i: nat, j: nat)
    requires i < |s.forwarders| && j < |s.forwarders| && Enabled(s, Transfer(i))
    requires ForwarderInv(s, i) && ForwarderInv(s, j)
    ensures ForwarderInv(Next(s, Transfer(i)), j)
  {
    var f := s.forwarders[i];
    if j == i {
      TransferKeepsLinked(s.wire, s.client.last, f, i);
      OutboxAlone(s.log, s.unpublished, f, f.outbox[1..]);
    } else {
      FramesAppend(s.wire, Frame(i, f.outbox[0]), j);
    }
  }

  lemma TransferKeeps<B>(s: System<B>, i: nat)
    requires Inv(s) && Enabled(s, Transfer(i)) && s.conn == Up
    ensures Inv(Next(s, Transfer(i)))
  {
    var t := Next(s, Transfer(i));
    assert ForwarderInv(s, i);
    TransferKeepsLinked(s.wire, s.client.last, s.forwarders[i], i);
    forall j | 0 <= j < |t.forwarders| ensures ForwarderInv(t, j) {
      assert ForwarderInv(s, j);
      TransferKeepsOne(s, i, j);
    }
    assert Logged(s.log, s.forwarders[i].outbox[0]);
  }

  lemma AcceptKeeps<B>(log: seq<Event<B>>, c: Subscription<B>, e: Event<B>)
    requires WellNumbered(log) && ClientSound(log, c) && Logged(log, e)
    ensures ClientSound(log, Accept(c, e))
    ensures Accept(c, e).last >= c.last && (e.number <= c.last + 1 ==> Accept(c, e).last >= e.number)
  {
    if e.number == c.last + 1 {
      assert Slice(log, c.since, e.number) == Slice(log, c.since, c.last) + [e];
    }
  }

  lemma DeliverKeepsOne<B>(s: System<B>, i: nat)
    requires Inv(s) && Enabled(s, Deliver) && i < |s.forwarders|
    ensures ForwarderInv(Next(s, Deliver), i)
  {
    assert ForwarderInv(s, i);
    AcceptKeeps(s.log, s.client, s.wire[0].event);
    if s.wire[0].from == i {
      DeliverKeepsLinked(s, i);
    } else {
      assert FramesOf(s.wire, i) == [] + FramesOf(s.wire[1..], i) == FramesOf(s.wire[1..], i);
    }
  }

  lemma DeliverKeeps<B>(s: System<B>)
    requires Inv(s) && Enabled(s, Deliver)
    ensures Inv(Next(s, Deliver))
  {
    var t := Next(s, Deliver);
    AcceptKeeps(s.log, s.client, s.wire[0].event);
    forall i | 0 <= i < |t.forwarders| ensures ForwarderInv(t, i) {
      DeliverKeepsOne(s, i);
    }
  }

  lemma DeliverKeepsLinked<B>(s: System<B>, i: nat)
    requires Inv(s) && Enabled(s, Deliver) && i < |s.forwarders| && s.wire[0].from == i
    ensures Linked(s.wire[1..], Accept(s.client, s.wire[0].event).last, s.forwarders[i], i)
  {
    assert ForwarderInv(s, i);
    var f := s.forwarders[i];
    var e := s.wire[0].event;
    var flight := FramesOf(s.wire, i) + f.outbox;
    var seen := |f.sent| - |flight|;
    assert flight == [e] + (FramesOf(s.wire[1..], i) + f.outbox);
    assert e == f.sent[seen];
    AcceptKeeps(s.log, s.client, e);
    if f.gapless {
      assert e.number == f.start + seen + 1;
    }
  }

  lemma NextKeepsInv<B>(s: System<B>, step: Step<B>)
    requires Inv(s) && Enabled(s, step)
    ensures Inv(Next(s, step))
  {
    match step
    case Commit(bodies) => CommitKeeps(s, bodies);
    case Publish(n) => PublishKeeps(s, n);
    case Serve => ServeKeeps(s);
    case ReadPage(i, ok) =>
      assert ForwarderInv(s, i);
      ReadHistoryKeeps(s.log, s.unpublished, s.forwarders[i], ok);
      ForwarderStepKeeps(s, i, ReadHistory(s.forwarders[i], s.log, ok));
    case ForwardLive(i, ok) =>
      assert ForwarderInv(s, i);
      ForwardKeeps(s.log, s.unpublished, s.forwarders[i], ok);
      ForwarderStepKeeps(s, i, Forward(s.forwarders[i], s.log, ok));
    case Transfer(i) => TransferKeeps(s, i);
    case Die(i) =>
      assert ForwarderInv(s, i);
      ForwarderStepKeeps(s, i, s.forwarders[i].(phase := Dead));
    case Deliver => DeliverKeeps(s);
    case _ => OtherKeeps(s, step);
  }

  lemma OtherKeeps<B>(s: System<B>, step: Step<B>)
    requires Inv(s) && Enabled(s, step) && (step.Refuse? || step.Dial? || step.Connected? || step.Lost?)
    ensures Inv(Next(s, step))
  {
    var t := Next(s, step);
    forall i | 0 <= i < |t.forwarders| ensures ForwarderInv(t, i) {
      assert ForwarderInv(s, i);
    }
  }
}
