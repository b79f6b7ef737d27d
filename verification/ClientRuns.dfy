/** The client class in the delivery system: what the class does is the system's client, so the run theorems hold of it. */
module ClientRuns {
  import opened Wrappers
  import opened EventLog
  import opened Delivery
  import opened DeliveryRuns
  import opened ExecClient

  /** The subscribe requests among these frames. */
  function Sinces(rs: seq<Request>): seq<nat> {
    if rs == [] then []
    else
      var r := rs[|rs| - 1];
      Sinces(rs[..|rs| - 1]) + (if r.params.SubscribeSince? then [r.params.since] else [])
  }

  lemma SincesOne(rs: seq<Request>, r: Request)
    ensures Sinces(rs + [r]) == Sinces(rs) + (if r.params.SubscribeSince? then [r.params.since] else [])
  {
    assert (rs + [r])[..|rs|] == rs;
  }

  lemma {:induction false} SincesConcat(a: seq<Request>, b: seq<Request>)
    ensures Sinces(a + b) == Sinces(a) + Sinces(b)
  {
    if b == [] {
      assert a + b == a;
    } else {
      SincesConcat(a, b[..|b| - 1]);
      assert (a + b)[..|a + b| - 1] == a + b[..|b| - 1];
    }
  }

  ghost predicate IsSuffix(a: seq<nat>, b: seq<nat>) {
    |a| <= |b| && b[|b| - |a|..] == a
  }

  lemma SuffixGrows(a: seq<nat>, b: seq<nat>, more: seq<nat>)
    requires IsSuffix(a, b)
    ensures IsSuffix(a + more, b + more)
  {
  }

  /**
   * The object is the client of the system: same subscription and connection, its queued subscribe
   * requests, and of those written to the socket the ones the daemon has not yet served.
   */
  ghost predicate Mirrors<B>(c: Client<B>, s: System<B>)
    reads c
  {
    && c.Valid() && !c.closed && (c.timerArmed <==> c.conn == Down)
    && c.subscription == Some(s.client) && c.conn == s.conn
    && IsSuffix(s.requests, Sinces(c.written)) && s.writeQueue == Sinces(c.writeQueue)
  }

  lemma FlushedSinces(requests: seq<nat>, written: seq<Request>, queue: seq<Request>, r: Request)
    requires IsSuffix(requests, Sinces(written)) && r.params.SubscribeSince?
    ensures IsSuffix(requests + Sinces(queue) + [r.params.since], Sinces(written + queue + [r]))
  {
    SincesConcat(written, queue);
    SincesOne(written + queue, r);
    SuffixGrows(requests, Sinces(written), Sinces(queue));
    SuffixGrows(requests + Sinces(queue), Sinces(written + queue), [r.params.since]);
  }

  method ReactConnected<B>(c: Client<B>, s: System<B>)
    requires Mirrors(c, s) && Enabled(s, Connected)
    modifies c
    ensures Mirrors(c, Next(s, Connected))
  {
    FlushedSinces(s.requests, c.written, c.writeQueue, Request(c.nextId, SubscribeSince(s.client.last)));
    c.OnConnect();
  }

  method ReactLost<B>(c: Client<B>, s: System<B>)
    requires Mirrors(c, s) && Enabled(s, Lost)
    modifies c
    ensures Mirrors(c, Next(s, Lost))
  {
    c.OnClose();
  }

  method ReactDeliver<B>(c: Client<B>, s: System<B>)
    requires Mirrors(c, s) && Enabled(s, Deliver)
    modifies c
    ensures Mirrors(c, Next(s, Deliver))
  {
    var _ := c.HandleEvent(s.wire[0].event);
  }

  method ReactDial<B>(c: Client<B>, s: System<B>)
    requires Mirrors(c, s) && Enabled(s, Dial)
    modifies c
    ensures Mirrors(c, Next(s, Dial))
  {
    c.OnTimer();
  }

  /** The daemon's steps leave the client's part alone; it takes subscribe requests in order. */
  lemma DaemonSteps<B>(s: System<B>, step: Step<B>)
    requires Enabled(s, step) && !(step.Dial? || step.Connected? || step.Lost? || step.Deliver?)
    ensures
      (var t := Next(s, step);
        && t.client == s.client && t.conn == s.conn && t.writeQueue == s.writeQueue
        && (t.requests == s.requests || (s.requests != [] && t.requests == s.requests[1..])))
  {
  }

  /** The client's part in a step of the system: the timer, the socket's two events, and an arriving event. */
  method React<B>(c: Client<B>, s: System<B>, step: Step<B>)
    requires Mirrors(c, s) && Enabled(s, step)
    modifies c
    ensures Mirrors(c, Next(s, step))
  {
    match step {
      case Dial => ReactDial(c, s);
      case Connected => ReactConnected(c, s);
      case Lost => ReactLost(c, s);
      case Deliver => ReactDeliver(c, s);
      case _ => DaemonSteps(s, step);
    }
  }

  /** An ordinary call, its answer or its timeout leave the client the system's. */
  method Ask<B>(c: Client<B>, s: System<B>, writable: bool)
    requires Mirrors(c, s)
    modifies c
    ensures Mirrors(c, s)
  {
    OtherIsNoSince(c.written, c.nextId);
    OtherIsNoSince(c.writeQueue, c.nextId);
    var _ := c.Call(OtherCall, writable);
  }

  lemma OtherIsNoSince(rs: seq<Request>, id: nat)
    ensures Sinces(rs + [Request(id, OtherCall)]) == Sinces(rs)
  {
    SincesOne(rs, Request(id, OtherCall));
    assert Sinces(rs) + [] == Sinces(rs);
  }

  /** What happens to the object: a step of the system, or one of its user's calls, answers and timeouts. */
  datatype Move<B> = Take(step: Step<B>) | MakeCall(writable: bool) | Answer(id: nat, failure: bool) | Expire(id: nat)

  function StepsOf<B>(moves: seq<Move<B>>): seq<Step<B>> {
    if moves == [] then [] else (if moves[0].Take? then [moves[0].step] else []) + StepsOf(moves[1..])
  }

  /** Through any run, with any other calls between, the object stays the system's client. */
  method Drive<B>(c: Client<B>, s: System<B>, moves: seq<Move<B>>, ghost t: System<B>)
    requires Mirrors(c, s) && Runs(s, StepsOf(moves), t)
    modifies c
    ensures Mirrors(c, t)
    decreases |moves|
  {
    if moves == [] {
      return;
    }
    var rest := moves[1..];
    match moves[0] {
      case Take(step) =>
        assert StepsOf(moves)[1..] == StepsOf(rest);
        React(c, s, step);
        Drive(c, Next(s, step), rest, t);
      case MakeCall(writable) =>
        assert StepsOf(moves) == StepsOf(rest);
        Ask(c, s, writable);
        Drive(c, s, rest, t);
      case Answer(id, failure) =>
        assert StepsOf(moves) == StepsOf(rest);
        c.HandleResponse(id, failure);
        Drive(c, s, rest, t);
      case Expire(id) =>
        assert StepsOf(moves) == StepsOf(rest);
        if id in c.pending {
          c.Timeout(id);
        }
        Drive(c, s, rest, t);
    }
  }

  /** The system around a client that has just subscribed. */
  function Around<B>(log: seq<Event<B>>, unpublished: set<nat>, conn: Conn, since: nat, writable: bool): System<B> {
    var sent := conn != Down && writable;
    System(log, unpublished, [], [], conn, if sent then [since] else [], if sent then [] else [since],
           Subscription(since, since, [], 0, 0))
  }

  /** Subscribing makes an object that has not subscribed before the client of a system at its start. */
  method Begin<B>(c: Client<B>, since: nat, writable: bool, ghost log: seq<Event<B>>, ghost unpublished: set<nat>)
    requires c.Valid() && !c.closed && c.subscription == None && (c.timerArmed <==> c.conn == Down)
    requires Sinces(c.written) == [] && Sinces(c.writeQueue) == []
    requires WellNumbered(log) && forall n | n in unpublished :: 0 < n <= |log|
    modifies c
    ensures c.conn == old(c.conn)
    ensures Init(Around(log, unpublished, c.conn, since, writable), since)
    ensures Mirrors(c, Around(log, unpublished, c.conn, since, writable))
  {
    FirstSince(c.written, c.nextId, since);
    FirstSince(c.writeQueue, c.nextId, since);
    var _ := c.Subscribe(since, writable);
  }

  lemma FirstSince(rs: seq<Request>, id: nat, since: nat)
    requires Sinces(rs) == []
    ensures Sinces(rs + [Request(id, SubscribeSince(since))]) == [since]
  {
    SincesOne(rs, Request(id, SubscribeSince(since)));
  }

  /**
   * The object, subscribed at `since` and driven through any run of the system with any calls between, has
   * handed over exactly the log entries after `since` up to the last it delivered, in order, each once.
   */
  method SubscribeAndDrive<B>(
    c: Client<B>, since: nat, writable: bool, log: seq<Event<B>>, unpublished: set<nat>, moves: seq<Move<B>>,
    ghost t: System<B>)
    requires c.Valid() && !c.closed && c.subscription == None && (c.timerArmed <==> c.conn == Down)
    requires Sinces(c.written) == [] && Sinces(c.writeQueue) == []
    requires WellNumbered(log) && forall n | n in unpublished :: 0 < n <= |log|
    requires Runs(Around(log, unpublished, c.conn, since, writable), StepsOf(moves), t)
    modifies c
    ensures Mirrors(c, t)
    ensures var d := c.subscription.value.delivered;
      && since <= c.subscription.value.last && |d| == c.subscription.value.last - since
      && forall k | 0 <= k < |d| :: since + k < |t.log| && d[k] == t.log[since + k] && d[k].number == since + k + 1
  {
    Begin(c, since, writable, log, unpublished);
    var s := Around(log, unpublished, c.conn, since, writable);
    Drive(c, s, moves, t);
    ClientDeliversTheLog(s, since, StepsOf(moves), t);
  }
}
