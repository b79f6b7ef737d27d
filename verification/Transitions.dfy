/** The four status machines: tables, compiled lookups, linear scans, and what their runs can do. */
module Transitions {
  import opened Wrappers

  datatype Edge<S, E> = Edge(from: S, to: S, event: E)

  datatype Table<S, E> = Table(initial: S, terminal: seq<S>, transitions: seq<Edge<S, E>>)

  // ------------------------------------------------------------------ linear scans (TypeScript)

  /** `some`: there is an edge, on any event. */
  predicate HasEdge<S(==), E>(edges: seq<Edge<S, E>>, from: S, to: S) {
    exists i | 0 <= i < |edges| :: edges[i].from == from && edges[i].to == to
  }

  /** `find`: the first edge leaving `from` on `event`. */
  function NextState<S(==), E(==)>(edges: seq<Edge<S, E>>, from: S, event: E): Option<S> {
    if edges == [] then None
    else if edges[0].from == from && edges[0].event == event then Some(edges[0].to)
    else NextState(edges[1..], from, event)
  }

  // ------------------------------------------------------------------ compiled form (Rust)

  datatype Compiled<S(==), E(==)> = Compiled(terminal: set<S>, edges: set<(S, S)>, byEvent: map<(S, E), S>)

  /** Later edges overwrite earlier ones with the same key, as map insertion does. */
  function ByEvent<S(==), E(==)>(edges: seq<Edge<S, E>>): map<(S, E), S> {
    if edges == [] then map[]
    else var e := edges[|edges| - 1]; ByEvent(edges[..|edges| - 1])[(e.from, e.event) := e.to]
  }

  method Compile<S(==), E(==)>(t: Table<S, E>) returns (c: Compiled<S, E>)
    ensures forall s :: s in c.terminal <==> s in t.terminal
    ensures forall from, to :: (from, to) in c.edges <==> HasEdge(t.transitions, from, to)
    ensures c.byEvent == ByEvent(t.transitions)
  {
    var terminal: set<S> := {};
    for i := 0 to |t.terminal|
      invariant forall s :: s in terminal <==> s in t.terminal[..i]
    {
      terminal := terminal + {t.terminal[i]};
    }
    var edges: set<(S, S)> := {};
    var byEvent: map<(S, E), S> := map[];
    for i := 0 to |t.transitions|
      invariant forall p :: p in edges <==>
        exists k | 0 <= k < i :: t.transitions[k].from == p.0 && t.transitions[k].to == p.1
      invariant byEvent == ByEvent(t.transitions[..i])
    {
      assert t.transitions[..i + 1][..i] == t.transitions[..i];
      edges := edges + {(t.transitions[i].from, t.transitions[i].to)};
      byEvent := byEvent[(t.transitions[i].from, t.transitions[i].event) := t.transitions[i].to];
    }
    assert t.transitions[..|t.transitions|] == t.transitions;
    c := Compiled(terminal, edges, byEvent);
  }

  predicate UniqueKeys<S(==), E(==)>(edges: seq<Edge<S, E>>) {
    forall i, j | 0 <= i < j < |edges| :: edges[i].from != edges[j].from || edges[i].event != edges[j].event
  }

  function Lookup<S(==), E(==)>(m: map<(S, E), S>, from: S, event: E): Option<S> {
    if (from, event) in m then Some(m[(from, event)]) else None
  }

  /** On tables with one edge per (from, event) the compiled map and the scan answer alike. */
  lemma {:induction false} CompiledEqualsScan<S, E>(edges: seq<Edge<S, E>>, from: S, event: E)
    requires UniqueKeys(edges)
    ensures Lookup(ByEvent(edges), from, event) == NextState(edges, from, event)
  {
    if edges != [] {
      var init := edges[..|edges| - 1];
      CompiledEqualsScan(init, from, event);
      ScanAppend(init, edges[|edges| - 1], from, event);
      assert edges == init + [edges[|edges| - 1]];
      if NextState(init, from, event).Some? {
        ScanFinds(init, from, event);
      }
    }
  }

  lemma {:induction false} ScanAppend<S, E>(edges: seq<Edge<S, E>>, e: Edge<S, E>, from: S, event: E)
    ensures NextState(edges + [e], from, event)
         == if NextState(edges, from, event).Some? then NextState(edges, from, event) else NextState([e], from, event)
  {
    if edges != [] {
      ScanAppend(edges[1..], e, from, event);
      assert (edges + [e])[1..] == edges[1..] + [e];
    } else {
      assert [] + [e] == [e];
    }
  }

  lemma {:induction false} ScanFinds<S, E>(edges: seq<Edge<S, E>>, from: S, event: E)
    ensures NextState(edges, from, event).Some? <==>
      exists i | 0 <= i < |edges| :: edges[i].from == from && edges[i].event == event
  {
    if edges != [] {
      ScanFinds(edges[1..], from, event);
      assert forall i | 1 <= i < |edges| :: edges[i] == edges[1..][i - 1];
    }
  }

  // ------------------------------------------------------------------ the tables

  datatype IntentStatus =
    | Proposed | Rejected | AwaitingApproval | Authorized | Recorded | Dispatching
    | ExecutionUnknown | Executing | Completed | Canceled | Expired

  datatype IntentEvent =
    | GateRejected | PlanMaterialized | PolicyAutoAuthorized | ObserveOnly | ProposalTtlElapsed
    | UserApproved | ApprovalTtlElapsed | UserRejected | RegateRejected | ExecutorClaimed
    | AuthorizationTtlElapsed | HaltedBeforeDispatch | ExchangeAcked | ExchangeRejected
    | SubmitAmbiguous | HaltedBeforeSubmit | ReconciledFound | ConfirmedNotReceived
    | EffectSatisfied | CancelConfirmed | ExpiredOnExchange | CompensationClose

  // The intent table's rows, grouped by the state they leave.
  const FROM_PROPOSED := [
    Edge(Proposed, Rejected, GateRejected),
    Edge(Proposed, AwaitingApproval, PlanMaterialized),
    Edge(Proposed, Authorized, PolicyAutoAuthorized),
    Edge(Proposed, Recorded, ObserveOnly),
    Edge(Proposed, Expired, ProposalTtlElapsed) ]
  const FROM_AWAITING := [
    Edge(AwaitingApproval, Authorized, UserApproved),
    Edge(AwaitingApproval, Expired, ApprovalTtlElapsed),
    Edge(AwaitingApproval, Rejected, UserRejected),
    Edge(AwaitingApproval, Rejected, RegateRejected) ]
  const FROM_AUTHORIZED := [
    Edge(Authorized, Dispatching, ExecutorClaimed),
    Edge(Authorized, Rejected, RegateRejected),
    Edge(Authorized, Expired, AuthorizationTtlElapsed),
    Edge(Authorized, Canceled, HaltedBeforeDispatch) ]
  const FROM_DISPATCHING := [
    Edge(Dispatching, Executing, ExchangeAcked),
    Edge(Dispatching, Rejected, ExchangeRejected),
    Edge(Dispatching, Rejected, RegateRejected),
    Edge(Dispatching, ExecutionUnknown, SubmitAmbiguous),
    Edge(Dispatching, Canceled, HaltedBeforeSubmit) ]
  const FROM_UNKNOWN := [
    Edge(ExecutionUnknown, Executing, ReconciledFound),
    Edge(ExecutionUnknown, Canceled, ConfirmedNotReceived) ]
  const FROM_EXECUTING := [
    Edge(Executing, Completed, EffectSatisfied),
    Edge(Executing, Canceled, CancelConfirmed),
    Edge(Executing, Canceled, ExpiredOnExchange),
    Edge(Executing, Canceled, CompensationClose) ]

  const INTENT: Table<IntentStatus, IntentEvent> := Table(
    Proposed,
    [Rejected, Recorded, Completed, Canceled, Expired],
    FROM_PROPOSED + FROM_AWAITING + FROM_AUTHORIZED + FROM_DISPATCHING + FROM_UNKNOWN + FROM_EXECUTING)

  datatype AuthorizationStatus = Active | Consumed | AuthExpired | Invalidated | Revoked

  datatype AuthorizationEvent =
    | Dispatched | TtlElapsed | PlanChanged | AuthRegateRejected | AccountVersionChanged | UserRevoked | EmergencyStop

  const AUTHORIZATION: Table<AuthorizationStatus, AuthorizationEvent> := Table(
    Active,
    [Consumed, AuthExpired, Invalidated, Revoked],
    [ Edge(Active, Consumed, Dispatched),
      Edge(Active, AuthExpired, TtlElapsed),
      Edge(Active, Invalidated, PlanChanged),
      Edge(Active, Invalidated, AuthRegateRejected),
      Edge(Active, Invalidated, AccountVersionChanged),
      Edge(Active, Revoked, UserRevoked),
      Edge(Active, Revoked, EmergencyStop) ])

  datatype AttemptResult = Pending | Acked | AttemptRejected | Unknown | NotReceived

  datatype AttemptEvent =
    | AttemptAcked | AttemptExchangeRejected | Ambiguous | NeverSubmitted
    | FoundByReconcile | RejectedByReconcile | NotReceivedByReconcile

  const ATTEMPT: Table<AttemptResult, AttemptEvent> := Table(
    Pending,
    [Acked, AttemptRejected, NotReceived],
    [ Edge(Pending, Acked, AttemptAcked),
      Edge(Pending, AttemptRejected, AttemptExchangeRejected),
      Edge(Pending, Unknown, Ambiguous),
      Edge(Pending, NotReceived, NeverSubmitted),
      Edge(Unknown, Acked, FoundByReconcile),
      Edge(Unknown, AttemptRejected, RejectedByReconcile),
      Edge(Unknown, NotReceived, NotReceivedByReconcile) ])

  datatype OrderStatus = New | PartiallyFilled | Filled | OrderCanceled | OrderExpired | OrderRejected

  datatype OrderEvent = PartialFill | Fill | Cancel | Expire | Reject

  const ORDER: Table<OrderStatus, OrderEvent> := Table(
    New,
    [Filled, OrderCanceled, OrderExpired, OrderRejected],
    [ Edge(New, PartiallyFilled, PartialFill),
      Edge(New, Filled, Fill),
      Edge(New, OrderCanceled, Cancel),
      Edge(New, OrderExpired, Expire),
      Edge(New, OrderRejected, Reject),
      Edge(PartiallyFilled, Filled, Fill),
      Edge(PartiallyFilled, OrderCanceled, Cancel),
      Edge(PartiallyFilled, OrderExpired, Expire) ])

  lemma UniqueKeysConcat<S, E>(a: seq<Edge<S, E>>, b: seq<Edge<S, E>>, from: S)
    requires UniqueKeys(a) && UniqueKeys(b)
    requires forall i | 0 <= i < |a| :: a[i].from != from
    requires forall i | 0 <= i < |b| :: b[i].from == from
    ensures UniqueKeys(a + b)
  {
  }

  lemma IntentRowsUnique()
    ensures UniqueKeys(INTENT.transitions)
  {
    var a := FROM_PROPOSED + FROM_AWAITING;
    var b := a + FROM_AUTHORIZED;
    var c := b + FROM_DISPATCHING;
    var d := c + FROM_UNKNOWN;
    UniqueKeysConcat(FROM_PROPOSED, FROM_AWAITING, AwaitingApproval);
    UniqueKeysConcat(a, FROM_AUTHORIZED, Authorized);
    UniqueKeysConcat(b, FROM_DISPATCHING, Dispatching);
    UniqueKeysConcat(c, FROM_UNKNOWN, ExecutionUnknown);
    UniqueKeysConcat(d, FROM_EXECUTING, Executing);
  }

  lemma AuthorizationRowsUnique()
    ensures UniqueKeys(AUTHORIZATION.transitions)
  {
  }

  lemma AttemptRowsUnique()
    ensures UniqueKeys(ATTEMPT.transitions)
  {
  }

  lemma OrderRowsUnique()
    ensures UniqueKeys(ORDER.transitions)
  {
  }

  /** Every table has one edge per (from, event), so both lookups agree on all four machines. */
  lemma TablesHaveUniqueKeys()
    ensures UniqueKeys(INTENT.transitions) && UniqueKeys(AUTHORIZATION.transitions)
    ensures UniqueKeys(ATTEMPT.transitions) && UniqueKeys(ORDER.transitions)
  {
    IntentRowsUnique();
    AuthorizationRowsUnique();
    AttemptRowsUnique();
    OrderRowsUnique();
  }

  // ------------------------------------------------------------------ runs of the intent machine

  /** `can_transition_to`, by cases; IntentStepIsTheTable ties it to the table's edges. */
  predicate IntentStep(from: IntentStatus, to: IntentStatus) {
    match from
    case Proposed => to in {Rejected, AwaitingApproval, Authorized, Recorded, Expired}
    case AwaitingApproval => to in {Authorized, Expired, Rejected}
    case Authorized => to in {Dispatching, Rejected, Expired, Canceled}
    case Dispatching => to in {Executing, Rejected, ExecutionUnknown, Canceled}
    case ExecutionUnknown => to in {Executing, Canceled}
    case Executing => to in {Completed, Canceled}
    case _ => false
  }

  predicate IntentTerminal(s: IntentStatus) {
    s in INTENT.terminal
  }

  function Rank(s: IntentStatus): nat {
    match s
    case Proposed => 0
    case AwaitingApproval => 1
    case Authorized => 2
    case Dispatching => 3
    case ExecutionUnknown => 4
    case Executing => 5
    case _ => 6
  }

  lemma HasEdgeConcat<S, E>(a: seq<Edge<S, E>>, b: seq<Edge<S, E>>, from: S, to: S)
    ensures HasEdge(a + b, from, to) <==> HasEdge(a, from, to) || HasEdge(b, from, to)
  {
    forall i | 0 <= i < |a| ensures (a + b)[i] == a[i] {
    }
    forall i | 0 <= i < |b| ensures (a + b)[|a| + i] == b[i] {
    }
    if HasEdge(b, from, to) {
      var i :| 0 <= i < |b| && b[i].from == from && b[i].to == to;
      assert (a + b)[|a| + i].from == from;
    }
  }

  lemma IntentStepIsTheTable(from: IntentStatus, to: IntentStatus)
    ensures IntentStep(from, to) <==> HasEdge(INTENT.transitions, from, to)
  {
    ProposedEdges(from, to);
    AwaitingEdges(from, to);
    AuthorizedEdges(from, to);
    DispatchingEdges(from, to);
    UnknownEdges(from, to);
    ExecutingEdges(from, to);
    var a := FROM_PROPOSED + FROM_AWAITING;
    var b := a + FROM_AUTHORIZED;
    var c := b + FROM_DISPATCHING;
    var d := c + FROM_UNKNOWN;
    HasEdgeConcat(FROM_PROPOSED, FROM_AWAITING, from, to);
    HasEdgeConcat(a, FROM_AUTHORIZED, from, to);
    HasEdgeConcat(b, FROM_DISPATCHING, from, to);
    HasEdgeConcat(c, FROM_UNKNOWN, from, to);
    HasEdgeConcat(d, FROM_EXECUTING, from, to);
  }

  lemma ProposedEdges(from: IntentStatus, to: IntentStatus)
    ensures HasEdge(FROM_PROPOSED, from, to) <==> from == Proposed && IntentStep(from, to)
  {
    assert FROM_PROPOSED[0].to == Rejected && FROM_PROPOSED[1].to == AwaitingApproval;
    assert FROM_PROPOSED[2].to == Authorized && FROM_PROPOSED[3].to == Recorded && FROM_PROPOSED[4].to == Expired;
  }

  lemma AwaitingEdges(from: IntentStatus, to: IntentStatus)
    ensures HasEdge(FROM_AWAITING, from, to) <==> from == AwaitingApproval && IntentStep(from, to)
  {
    assert FROM_AWAITING[0].to == Authorized && FROM_AWAITING[1].to == Expired && FROM_AWAITING[2].to == Rejected;
  }

  lemma AuthorizedEdges(from: IntentStatus, to: IntentStatus)
    ensures HasEdge(FROM_AUTHORIZED, from, to) <==> from == Authorized && IntentStep(from, to)
  {
    assert FROM_AUTHORIZED[0].to == Dispatching && FROM_AUTHORIZED[1].to == Rejected;
    assert FROM_AUTHORIZED[2].to == Expired && FROM_AUTHORIZED[3].to == Canceled;
  }

  lemma DispatchingEdges(from: IntentStatus, to: IntentStatus)
    ensures HasEdge(FROM_DISPATCHING, from, to) <==> from == Dispatching && IntentStep(from, to)
  {
    assert FROM_DISPATCHING[0].to == Executing && FROM_DISPATCHING[1].to == Rejected;
    assert FROM_DISPATCHING[3].to == ExecutionUnknown && FROM_DISPATCHING[4].to == Canceled;
  }

  lemma UnknownEdges(from: IntentStatus, to: IntentStatus)
    ensures HasEdge(FROM_UNKNOWN, from, to) <==> from == ExecutionUnknown && IntentStep(from, to)
  {
    assert FROM_UNKNOWN[0].to == Executing && FROM_UNKNOWN[1].to == Canceled;
  }

  lemma ExecutingEdges(from: IntentStatus, to: IntentStatus)
    ensures HasEdge(FROM_EXECUTING, from, to) <==> from == Executing && IntentStep(from, to)
  {
    assert FROM_EXECUTING[0].to == Completed && FROM_EXECUTING[1].to == Canceled;
  }

  /** A run of the machine: consecutive states joined by edges. */
  ghost predicate IntentRun(run: seq<IntentStatus>) {
    forall i | 0 <= i < |run| - 1 :: IntentStep(run[i], run[i + 1])
  }

  /** Runs strictly climb the rank: no state recurs, and a run visits at most seven states. */
  lemma {:induction false} RunsClimb(run: seq<IntentStatus>, i: nat, j: nat)
    requires IntentRun(run) && i < j < |run|
    ensures Rank(run[i]) + (j - i) <= Rank(run[j]) && run[i] != run[j]
    decreases j
  {
    assert IntentStep(run[j - 1], run[j]);
    if i < j - 1 {
      RunsClimb(run, i, j - 1);
    }
  }

  lemma RunsAreShort(run: seq<IntentStatus>)
    requires IntentRun(run)
    ensures |run| <= 7
  {
    if |run| > 7 {
      RunsClimb(run, 0, 7);
    }
  }

  /** A state is terminal exactly when no edge leaves it. */
  lemma TerminalIffStuck(s: IntentStatus)
    ensures IntentTerminal(s) <==> forall to :: !IntentStep(s, to)
  {
    assert !IntentTerminal(s) ==> IntentStep(s, Expired) || IntentStep(s, Canceled);
  }

  /** Completion goes through authorized, dispatching and executing, in that order, each once. */
  lemma CompletionPath(run: seq<IntentStatus>, n: nat)
    requires IntentRun(run) && n < |run| && run[0] == Proposed && run[n] == Completed
    ensures exists a, d, e | 0 < a < d < e < n :: run[a] == Authorized && run[d] == Dispatching && run[e] == Executing
  {
    assert n > 0 && IntentStep(run[n - 1], run[n]);
    var e := n - 1;
    var d := DispatchedBefore(run, e);
    assert IntentStep(run[d - 1], run[d]);
    assert run[d - 1] == Authorized && run[d] == Dispatching && run[e] == Executing && 0 < d - 1 < d < e < n;
  }

  lemma DispatchedBefore(run: seq<IntentStatus>, e: nat) returns (d: nat)
    requires IntentRun(run) && e < |run| && run[0] == Proposed && run[e] == Executing
    ensures 0 < d < e && run[d] == Dispatching
  {
    assert IntentStep(run[e - 1], run[e]);
    if run[e - 1] == ExecutionUnknown {
      assert IntentStep(run[e - 2], run[e - 1]);
      d := e - 2;
    } else {
      d := e - 1;
    }
  }

  // ------------------------------------------------------------------ order observations

  predicate ObservationConsistent(prev: OrderStatus, next: OrderStatus) {
    prev == next || HasEdge(ORDER.transitions, prev, next)
  }

  ghost predicate ConsistentSequence(obs: seq<OrderStatus>) {
    forall i | 0 <= i < |obs| - 1 :: ObservationConsistent(obs[i], obs[i + 1])
  }

  lemma OrderEdges(from: OrderStatus, to: OrderStatus)
    ensures HasEdge(ORDER.transitions, from, to) <==>
      (from == New && to != New) || (from == PartiallyFilled && to in {Filled, OrderCanceled, OrderExpired})
  {
    var t := ORDER.transitions;
    assert t[0].to == PartiallyFilled && t[1].to == Filled && t[2].to == OrderCanceled && t[3].to == OrderExpired;
    assert t[4].to == OrderRejected && t[5].to == Filled && t[6].to == OrderCanceled && t[7].to == OrderExpired;
  }

  lemma ConsistentTransitive(a: OrderStatus, b: OrderStatus, c: OrderStatus)
    requires ObservationConsistent(a, b) && ObservationConsistent(b, c)
    ensures ObservationConsistent(a, c)
  {
    OrderEdges(a, b);
    OrderEdges(b, c);
    OrderEdges(a, c);
  }

  /** Consistency is not only between neighbours: any earlier and later observation are consistent. */
  lemma {:induction false} ConsistentPairs(obs: seq<OrderStatus>, i: nat, j: nat)
    requires ConsistentSequence(obs) && i <= j < |obs|
    ensures ObservationConsistent(obs[i], obs[j])
    decreases j
  {
    if i < j {
      ConsistentPairs(obs, i, j - 1);
      ConsistentTransitive(obs[i], obs[j - 1], obs[j]);
    }
  }

  /** Missing observations never cause an alarm: any subsequence of a consistent sequence is consistent. */
  lemma SubsequenceConsistent(obs: seq<OrderStatus>, picks: seq<nat>)
    requires ConsistentSequence(obs)
    requires forall k | 0 <= k < |picks| :: picks[k] < |obs|
    requires forall k | 0 <= k < |picks| - 1 :: picks[k] < picks[k + 1]
    ensures ConsistentSequence(seq(|picks|, k requires 0 <= k < |picks| => obs[picks[k]]))
  {
    forall k | 0 <= k < |picks| - 1 ensures ObservationConsistent(obs[picks[k]], obs[picks[k + 1]]) {
      ConsistentPairs(obs, picks[k], picks[k + 1]);
    }
  }

  /** An alarm is never silenced: two different statuses seen in both orders are caught. */
  lemma ReversalIsCaught(obs: seq<OrderStatus>, i: nat, j: nat, k: nat)
    requires i < j < k < |obs| && obs[i] == obs[k] && obs[i] != obs[j]
    ensures !ConsistentSequence(obs)
  {
    if ConsistentSequence(obs) {
      ConsistentPairs(obs, i, j);
      ConsistentPairs(obs, j, k);
      OrderEdges(obs[i], obs[j]);
      OrderEdges(obs[j], obs[k]);
    }
  }
}
