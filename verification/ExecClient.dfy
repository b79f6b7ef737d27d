/** The gateway's RPC client: pending calls, the write queue, reconnect and the one subscription. */
module ExecClient {
  import opened Wrappers
  import opened EventLog
  import opened Delivery

  datatype Params = SubscribeSince(since: nat) | OtherCall

  datatype Request = Request(id: nat, params: Params)

  /** How a call's promise was settled. */
  datatype Outcome = Resolved | Failed | TimedOut | ClientClosed

  class Client<B> {
    const minDelay: nat
    const maxDelay: nat
    var nextId: nat
    var pending: set<nat>
    var conn: Conn
    var written: seq<Request>
    var writeQueue: seq<Request>
    var subscription: Option<Subscription<B>>
    var closed: bool
    var reconnectDelay: nat
    var timerArmed: bool
    ghost var settled: map<nat, Outcome>

    /** Every id ever issued is either pending or settled, never both; the backoff stays in range. */
    ghost predicate Valid()
      reads this
    {
      && 0 < nextId
      && (forall id :: id in pending || id in settled <==> 0 < id < nextId)
      && pending !! settled.Keys
      && (closed ==> pending == {} && writeQueue == [] && conn == Down)
      && (conn == Down ==> written == [])
      && Min(minDelay, maxDelay) <= reconnectDelay <= Max(minDelay, maxDelay)
    }

    constructor (minDelay: nat, maxDelay: nat)
      ensures Valid() && this.minDelay == minDelay && this.maxDelay == maxDelay
      ensures conn == Dialing && written == [] && writeQueue == [] && subscription == None && settled == map[]
      ensures !closed && !timerArmed
    {
      this.minDelay, this.maxDelay := minDelay, maxDelay;
      nextId, pending, settled := 1, {}, map[];
      conn, written, writeQueue, subscription := Dialing, [], [], None;
      closed, reconnectDelay, timerArmed := false, minDelay, false;
    }

    /**
     * `call`: a fresh id, pending until settled; the frame goes to the socket if there is one and it is
     * writable (an ended socket is not), else to the write queue.
     */
    method Call(params: Params, writable: bool) returns (id: Option<nat>)
      requires Valid()
      modifies this`pending, this`nextId, this`written, this`writeQueue
      ensures Valid()
      ensures closed ==> id == None && pending == old(pending) && nextId == old(nextId)
      ensures closed ==> written == old(written) && writeQueue == old(writeQueue)
      ensures !closed ==> id == Some(old(nextId)) && nextId == old(nextId) + 1
      ensures !closed ==> pending == old(pending) + {old(nextId)} && old(nextId) !in old(pending)
      ensures !closed && conn != Down && writable ==>
        written == old(written) + [Request(old(nextId), params)] && writeQueue == old(writeQueue)
      ensures !closed && !(conn != Down && writable) ==>
        written == old(written) && writeQueue == old(writeQueue) + [Request(old(nextId), params)]
    {
      if closed {
        return None;
      }
      var request := Request(nextId, params);
      id := Some(nextId);
      pending := pending + {nextId};
      nextId := nextId + 1;
      if conn != Down && writable {
        written := written + [request];
      } else {
        writeQueue := writeQueue + [request];
      }
    }

    /**
     * `subscribe`: refused while one is active, else starts at `since` and asks the daemon. On a
     * closed client the subscription is recorded but nothing is asked.
     */
    method Subscribe(since: nat, writable: bool) returns (ok: bool)
      requires Valid()
      modifies this`pending, this`nextId, this`written, this`writeQueue, this`subscription
      ensures Valid()
      ensures ok == old(subscription.None?)
      ensures !ok ==> unchanged(this)
      ensures ok ==> subscription == Some(Subscription(since, since, [], 0, 0))
      ensures ok && closed ==> pending == old(pending) && written == old(written) && writeQueue == old(writeQueue)
      ensures ok && !closed ==> pending == old(pending) + {old(nextId)}
      ensures ok && !closed && conn != Down && writable ==>
        written == old(written) + [Request(old(nextId), SubscribeSince(since))] && writeQueue == old(writeQueue)
      ensures ok && !closed && !(conn != Down && writable) ==>
        written == old(written) && writeQueue == old(writeQueue) + [Request(old(nextId), SubscribeSince(since))]
    {
      if subscription.Some? {
        return false;
      }
      subscription := Some(Subscription(since, since, [], 0, 0));
      var _ := Call(SubscribeSince(since), writable);
      ok := true;
    }

    method Unsubscribe()
      requires Valid()
      modifies this`subscription
      ensures Valid() && subscription == None
    {
      subscription := None;
    }

    /** A response settles its call once; an unknown, late or repeated id changes nothing. */
    method HandleResponse(id: nat, failure: bool)
      requires Valid()
      modifies this`pending, this`settled
      ensures Valid()
      ensures id !in old(pending) ==> unchanged(this)
      ensures id in old(pending) ==> pending == old(pending) - {id}
      ensures id in old(pending) ==> settled == old(settled)[id := if failure then Failed else Resolved]
    {
      if id !in pending {
        return;
      }
      pending := pending - {id};
      settled := settled[id := if failure then Failed else Resolved];
    }

    /** The call's timer; it was cleared when the call was settled, so it only meets pending ids. */
    method Timeout(id: nat)
      requires Valid() && id in pending
      modifies this`pending, this`settled
      ensures Valid()
      ensures pending == old(pending) - {id} && settled == old(settled)[id := TimedOut]
    {
      pending := pending - {id};
      settled := settled[id := TimedOut];
    }

    /** `#handleEvent`: only the next number is handed over; anything else is counted and dropped. */
    method HandleEvent(e: Event<B>) returns (delivered: bool)
      requires Valid()
      modifies this`subscription
      ensures Valid()
      ensures old(subscription.None?) ==> subscription == None && !delivered
      ensures old(subscription.Some?) ==> subscription == Some(Accept(old(subscription).value, e))
      ensures delivered <==> old(subscription.Some?) && e.number == old(subscription).value.last + 1
    {
      if subscription.None? {
        return false;
      }
      var s := subscription.value;
      if e.number <= s.last {
        subscription := Some(s.(duplicates := s.duplicates + 1));
        return false;
      }
      if e.number != s.last + 1 {
        subscription := Some(s.(outOfOrder := s.outOfOrder + 1));
        return false;
      }
      subscription := Some(s.(last := e.number, delivered := s.delivered + [e]));
      delivered := true;
    }

    /** 'connect': reset the backoff, flush the queue in order, resubscribe after the last delivery. */
    method OnConnect()
      requires Valid() && conn == Dialing && !closed
      modifies this`conn, this`reconnectDelay, this`pending, this`nextId, this`written, this`writeQueue
      ensures Valid() && conn == Up && writeQueue == [] && reconnectDelay == minDelay
      ensures subscription.None? ==> written == old(written) + old(writeQueue) && pending == old(pending)
      ensures subscription.Some? ==>
        && written == old(written) + old(writeQueue) + [Request(old(nextId), SubscribeSince(subscription.value.last))]
        && pending == old(pending) + {old(nextId)}
    {
      conn := Up;
      reconnectDelay := minDelay;
      written := written + writeQueue;
      writeQueue := [];
      if subscription.Some? {
        var _ := Call(SubscribeSince(subscription.value.last), true);
      }
    }

    /** 'close': frames in flight are gone, calls stay pending; unless closed, arm one backoff timer. */
    method OnClose()
      requires Valid() && conn != Down
      modifies this`conn, this`written, this`timerArmed, this`reconnectDelay
      ensures Valid() && conn == Down && written == [] && timerArmed
      ensures reconnectDelay == if old(timerArmed) then old(reconnectDelay) else Min(old(reconnectDelay) * 2, maxDelay)
    {
      conn := Down;
      written := [];
      if timerArmed {
        return;
      }
      timerArmed := true;
      reconnectDelay := Min(reconnectDelay * 2, maxDelay);
    }

    method OnTimer()
      requires Valid() && timerArmed && conn == Down && !closed
      modifies this`conn, this`timerArmed
      ensures Valid() && conn == Dialing && !timerArmed
    {
      timerArmed := false;
      conn := Dialing;
    }

    /** `close`: every pending call is rejected, nothing is left to send, no reconnect. */
    method Close()
      requires Valid()
      modifies this`closed, this`timerArmed, this`settled, this`pending, this`writeQueue, this`written,
        this`subscription, this`conn
      ensures Valid() && closed && pending == {} && subscription == None && !timerArmed
      ensures settled.Keys == old(settled).Keys + old(pending)
      ensures forall id | id in old(settled) :: settled[id] == old(settled)[id]
      ensures forall id | id in old(pending) :: settled[id] == ClientClosed
    {
      closed := true;
      timerArmed := false;
      ghost var before := settled;
      settled := settled + map id | id in pending :: ClientClosed;
      assert settled.Keys == before.Keys + pending;
      pending := {};
      writeQueue, written := [], [];
      subscription := None;
      conn := Down;
    }
  }
}
