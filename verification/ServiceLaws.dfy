/** What the write services store and log, said in terms of rows, policy fields and events alone. */
module ServiceLaws {
  import opened Wrappers
  import opened EventLog
  import opened Transitions
  import opened Records
  import opened Services

  /** The log with these bodies appended, numbered on. */
  function Logged(log: seq<Event<Body>>, bodies: seq<Body>): seq<Event<Body>> {
    log + seq(|bodies|, i requires 0 <= i < |bodies| => Event(|log| + 1 + i, bodies[i]))
  }

  lemma LoggedOne(log: seq<Event<Body>>, a: Body)
    ensures Logged(log, [a]) == log + [Event(|log| + 1, a)]
  {
  }

  lemma LoggedTwo(log: seq<Event<Body>>, a: Body, b: Body)
    ensures Logged(log, [a, b]) == log + [Event(|log| + 1, a)] + [Event(|log| + 2, b)]
  {
  }

  // ------------------------------------------------------------------ a new proposal

  /** No row has this id, and none this principal with this key. */
  ghost predicate Unseen(rows: seq<Intent>, p: Proposal, id: nat) {
    forall k | 0 <= k < |rows| ::
      rows[k].id != id && !(p.key.Some? && rows[k].key == p.key && rows[k].principal == p.principal)
  }

  predicate IsOpen(row: Intent) {
    row.terminalAt.None?
  }

  /**
   * An accepted proposal with a new key and id becomes one row, last in the table: it has the fields of the
   * proposal, is created now and expires after its own lifetime or two minutes. Its status is `rejected` if
   * and only if the policy is halted, `recorded` if and only if it is not, the principal is not the user and
   * the authority is observe, and `proposed` otherwise; exactly the last is open.
   */
  lemma NewProposalIsStored(s: State, p: Proposal, now: int, id: nat, policy: Policy, row: Intent)
    requires ValidateProposal(p).None? && Unseen(s.rows, p, id)
    requires policy == Current(s) && Propose(s, p, now, id).1 == Success(row)
    ensures Propose(s, p, now, id).0.rows == s.rows + [row] && Propose(s, p, now, id).0.policy == s.policy
    ensures row.id == id && row.account == p.account && row.principal == p.principal
    ensures row.surface == p.surface && row.key == p.key && row.params == p.params
    ensures row.createdAt == now && row.updatedAt == now
    ensures row.expiresAt == now + 1000 * (if p.ttl.Some? then p.ttl.value else 120)
    ensures row.status == Rejected <==> policy.emergencyStop || policy.mode == HaltAll
    ensures row.status == Recorded <==>
      !policy.emergencyStop && policy.mode != HaltAll && p.principal != User && policy.authority == Observe
    ensures row.status in {Proposed, Rejected, Recorded} && (IsOpen(row) <==> row.status == Proposed)
    ensures row.terminalAt == if row.status == Proposed then None else Some(now)
    ensures row.gates == if row.status != Rejected then [] else if policy.emergencyStop then [EmergencyStopGate] else [ModeGate]
  {
  }

  /** The row is logged as proposed under the next number, and at once under the one after it if a gate moves it. */
  lemma NewProposalIsLogged(s: State, p: Proposal, now: int, id: nat, row: Intent)
    requires ValidateProposal(p).None? && Unseen(s.rows, p, id) && Propose(s, p, now, id).1 == Success(row)
    ensures
      (var created := IntentMoved(now, id, Proposed, None);
        Propose(s, p, now, id).0.log == Logged(s.log,
          match row.status
          case Proposed => [created]
          case Rejected => [created, IntentMoved(now, id, Rejected, Some(GateRejected))]
          case _ => [created, IntentMoved(now, id, Recorded, Some(ObserveOnly))]))
  {
    var created := IntentMoved(now, id, Proposed, None);
    LoggedOne(s.log, created);
    LoggedTwo(s.log, created, IntentMoved(now, id, Rejected, Some(GateRejected)));
    LoggedTwo(s.log, created, IntentMoved(now, id, Recorded, Some(ObserveOnly)));
  }

  /** An accepted proposal succeeds unless its key is taken by other content or its id is taken. */
  lemma NewProposalSucceeds(s: State, p: Proposal, now: int, id: nat)
    requires ValidateProposal(p).None? && Unseen(s.rows, p, id)
    ensures Propose(s, p, now, id).1.Success?
  {
  }

  /**
   * A key that the principal has used, on other content, is a conflict: no row changes, and one event names
   * the row that holds the key. On the same content the row is the answer and nothing changes.
   */
  lemma UsedKeyIsAnswered(s: State, i: nat, p: Proposal, now: int, id: nat)
    requires TableInv(s) && i < |s.rows| && ValidateProposal(p).None?
    requires p.key.Some? && s.rows[i].key == p.key && s.rows[i].principal == p.principal
    ensures
      (var row := s.rows[i];
        Propose(s, p, now, id)
          == if row.account == p.account && row.surface == p.surface && row.params == p.params then (s, Success(row))
             else (s.(log := Logged(s.log, [CorruptionDetected(now, row.id, p.principal, p.key.value)])), Failure(Conflict)))
  {
    var j := ByKey(s.rows, p.principal, p.key).value;
    assert HasKey(s.rows[j], s.rows[i].principal, s.rows[i].key) && HasKey(s.rows[i], s.rows[j].principal, s.rows[j].key);
    LoggedOne(s.log, CorruptionDetected(now, s.rows[i].id, p.principal, p.key.value));
  }

  // ------------------------------------------------------------------ rejecting

  /**
   * A stored intent is rejected exactly from the four statuses before it is executing, unless it is one of
   * unknown outcome; then only that row changes, and its move is logged under who asked. An intent that is
   * past them, or not there, changes nothing.
   */
  lemma RejectsExactly(s: State, i: nat, principal: Principal, now: int)
    requires TableInv(s) && i < |s.rows|
    ensures
      (var row := s.rows[i];
        var moved := row.(status := Rejected, updatedAt := now, terminalAt := Some(now));
        var event := if principal == User then UserRejected else RegateRejected;
        RejectIntent(s, row.id, principal, now)
          == if row.status in {Proposed, AwaitingApproval, Authorized, Dispatching}
             then (State(Logged(s.log, [IntentMoved(now, row.id, Rejected, Some(event))]), s.rows[i := moved], s.policy), Success(moved))
             else (s, Failure(InvalidTransition)))
  {
    var found := ById(s.rows, s.rows[i].id);
    assert found == Some(i);
    LoggedOne(s.log, IntentMoved(now, s.rows[i].id, Rejected, Some(if principal == User then UserRejected else RegateRejected)));
  }

  lemma UnknownIsNotFound(s: State, id: nat, principal: Principal, now: int)
    requires forall k | 0 <= k < |s.rows| :: s.rows[k].id != id
    ensures RejectIntent(s, id, principal, now) == (s, Failure(NotFound))
  {
  }

  // ------------------------------------------------------------------ the policy

  /** The confirmation names this mode and this authority, and none besides. */
  predicate Confirms(confirm: PolicyConfirm, next: Policy) {
    && confirm.mode in {"run", "stop_opening", "flatten_only", "halt_all"}
    && confirm.authority in {"observe", "draft", "paper", "live_capped"}
    && (confirm.mode == "run" <==> next.mode == Run)
    && (confirm.mode == "stop_opening" <==> next.mode == StopOpening)
    && (confirm.mode == "flatten_only" <==> next.mode == FlattenOnly)
    && (confirm.mode == "halt_all" <==> next.mode == HaltAll)
    && (confirm.authority == "observe" <==> next.authority == Observe)
    && (confirm.authority == "draft" <==> next.authority == Draft)
    && (confirm.authority == "paper" <==> next.authority == Paper)
    && (confirm.authority == "live_capped" <==> next.authority == LiveCapped)
  }

  lemma NamesDiffer()
    ensures |"run"| == 3 && |"stop_opening"| == 12 == |"flatten_only"| && |"halt_all"| == 8
    ensures "stop_opening"[0] != "flatten_only"[0]
    ensures |"observe"| == 7 && |"draft"| == 5 == |"paper"| && |"live_capped"| == 11 && "draft"[0] != "paper"[0]
  {
  }

  lemma ConfirmedByName(confirm: PolicyConfirm, next: Policy)
    ensures Confirms(confirm, next) <==>
      confirm.mode == ModeText(next.mode) && confirm.authority == AuthorityText(next.authority)
  {
    NamesDiffer();
  }

  /** A policy that v1 may hold. */
  predicate Allowed(next: Policy) {
    !next.withdrawEnabled && !next.liveCappedEnabled && next.authority != LiveCapped && next.maxNakedSeconds >= 1
  }

  /**
   * `policy.set` succeeds if and only if the confirmation names the new mode and authority, the version is
   * the next one, and the policy is one v1 may hold; the first two missing are a conflict. The policy then
   * in force is the one asked for, as of now, its announcement is logged, and after it a halt event if and
   * only if it halts or resumes; no intent moves. A refusal changes nothing.
   */
  lemma PolicySetExactly(s: State, next: Policy, confirm: PolicyConfirm, now: int)
    ensures
      (var (t, r) := PolicySet(s, next, confirm, now);
        var halts, halted := next.emergencyStop || next.mode == HaltAll, Current(s).emergencyStop || Current(s).mode == HaltAll;
        var announced := PolicyChanged(now, next.version, next.mode, next.authority, next.emergencyStop);
        && (r.Success? <==> Confirms(confirm, next) && next.version == Current(s).version + 1 && Allowed(next))
        && (r == Failure(Conflict) <==> !(Confirms(confirm, next) && next.version == Current(s).version + 1))
        && (r.Failure? ==> t == s)
        && (r.Success? ==>
          && r.value == next.(updatedAt := now) && t.policy == Some(r.value) && t.rows == s.rows
          && t.log == Logged(s.log, [announced] + if halts != halted then [HaltChanged(now, halts, next.mode)] else [])))
  {
    ConfirmedByName(confirm, next);
    var announced := PolicyChanged(now, next.version, next.mode, next.authority, next.emergencyStop);
    LoggedOne(s.log, announced);
    LoggedTwo(s.log, announced, HaltChanged(now, IsHalted(next), next.mode));
    assert [announced] + [] == [announced];
  }

  /**
   * The emergency stop is refused exactly when it would relax: `stop_opening` under `flatten_only` or
   * `halt_all`, `flatten_only` under `halt_all`. Else the mode asked for is in force and both events are logged,
   * the halt first.
   */
  lemma EmergencyExactly(s: State, mode: EmergencyMode, now: int)
    ensures
      (var (t, r) := EmergencyStopCall(s, mode, now);
        var version, authority := Current(s).version + 1, Current(s).authority;
        var target := match mode
          case EmergencyStopOpening => StopOpening
          case EmergencyFlattenOnly => FlattenOnly
          case EmergencyHaltAll => HaltAll;
        && (r == Failure(Forbidden) <==>
          || (mode == EmergencyStopOpening && Current(s).mode in {FlattenOnly, HaltAll})
          || (mode == EmergencyFlattenOnly && Current(s).mode == HaltAll))
        && (r.Failure? ==> t == s && r == Failure(Forbidden))
        && (r.Success? ==>
          && Current(t).mode == target
          && t.log == Logged(s.log, [HaltChanged(now, true, target), PolicyChanged(now, version, target, authority, true)])))
  {
    var r := ApplyEmergency(Current(s), mode, now);
    if r.Success? {
      LoggedTwo(s.log, HaltChanged(now, true, r.value.mode),
        PolicyChanged(now, r.value.version, r.value.mode, r.value.authority, true));
    }
  }

  /** The emergency stop leaves authority, limits and intents as they were; it moves only what it is for. */
  lemma EmergencyKeepsTheRest(s: State, mode: EmergencyMode, now: int)
    ensures
      (var (t, r) := EmergencyStopCall(s, mode, now);
        var p, q := Current(s), Current(t);
        && t.rows == s.rows
        && (q.authority, q.liveCappedEnabled, q.withdrawEnabled, q.maxNakedSeconds, q.rest)
          == (p.authority, p.liveCappedEnabled, p.withdrawEnabled, p.maxNakedSeconds, p.rest)
        && (r.Success? ==> q.version == p.version + 1 && q.updatedAt == now && q.emergencyStop))
  {
  }

  // ------------------------------------------------------------------ agents under observe

  /** An intent of an agent that something may still come of. */
  predicate OpenForAgent(row: Intent) {
    row.principal != User && row.status !in {Rejected, Recorded, Completed, Canceled, Expired}
  }

  /** Row i is open for an agent. */
  predicate OpenAt(rows: seq<Intent>, i: nat) {
    i < |rows| && OpenForAgent(rows[i])
  }

  /** While the authority is observe no call makes an intent of an agent open, new or stored. */
  lemma ObserveOpensNothing(s: State, call: Call, i: nat)
    requires Current(s).authority == Observe && OpenAt(After(s, call).rows, i)
    ensures OpenAt(s.rows, i)
  {
  }

  /** The authority was observe before every one of the calls. */
  ghost predicate Observed(s: State, calls: seq<Call>) {
    forall k | 0 <= k < |calls| :: Current(AfterAll(s, calls[..k])).authority == Observe
  }

  lemma ObservedBefore(s: State, calls: seq<Call>)
    requires Observed(s, calls) && calls != []
    ensures Observed(s, calls[..|calls| - 1])
    ensures Current(AfterAll(s, calls[..|calls| - 1])).authority == Observe
  {
    var before := calls[..|calls| - 1];
    forall k | 0 <= k < |before| ensures Current(AfterAll(s, before[..k])).authority == Observe {
      assert before[..k] == calls[..k];
    }
  }

  /** Over any run under observe, the agents' intents open at its end were open at its start. */
  lemma {:induction false} ObserveKeepsAgentsOut(s: State, calls: seq<Call>, i: nat)
    requires Observed(s, calls) && OpenAt(AfterAll(s, calls).rows, i)
    ensures OpenAt(s.rows, i)
  {
    if calls != [] {
      ObservedBefore(s, calls);
      ObserveOpensNothing(AfterAll(s, calls[..|calls| - 1]), calls[|calls| - 1], i);
      ObserveKeepsAgentsOut(s, calls[..|calls| - 1], i);
    }
  }

  /** Without an accepted `policy.set` the authority stays what it was. */
  lemma {:induction false} OnlyPolicySetMovesAuthority(s: State, calls: seq<Call>)
    requires forall k | 0 <= k < |calls| :: !calls[k].CallPolicySet?
    ensures Current(AfterAll(s, calls)).authority == Current(s).authority
  {
    if calls != [] {
      OnlyPolicySetMovesAuthority(s, calls[..|calls| - 1]);
      var call := calls[|calls| - 1];
      if call.CallEmergencyStop? {
        EmergencyKeepsTheRest(AfterAll(s, calls[..|calls| - 1]), call.mode, call.now);
      }
    }
  }

  /** From the start, and for as long as no policy is set, no intent of an agent is ever open. */
  lemma AgentsOnlyWatchAtFirst(calls: seq<Call>, i: nat)
    requires forall k | 0 <= k < |calls| :: !calls[k].CallPolicySet?
    ensures !OpenAt(AfterAll(INITIAL, calls).rows, i)
  {
    if OpenAt(AfterAll(INITIAL, calls).rows, i) {
      forall k | 0 <= k < |calls| ensures Current(AfterAll(INITIAL, calls[..k])).authority == Observe {
        OnlyPolicySetMovesAuthority(INITIAL, calls[..k]);
      }
      ObserveKeepsAgentsOut(INITIAL, calls, i);
    }
  }
}
