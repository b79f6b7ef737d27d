/** The write services of execd as functions on its tables, and what every run of them keeps. */
module Services {
  import opened Wrappers
  import opened EventLog
  import opened Transitions
  import opened Records

  /** The event table, the intent table in insertion order, and the policy row if there is one. */
  datatype State = State(log: seq<Event<Body>>, rows: seq<Intent>, policy: Option<Policy>)

  const INITIAL := State([], [], None)

  const DEFAULT_TTL: nat := 120

  function Append(s: State, body: Body): State {
    s.(log := s.log + [Event(|s.log| + 1, body)])
  }

  function Current(s: State): Policy {
    if s.policy.Some? then s.policy.value else DEFAULT_POLICY
  }

  /** First row with this id. */
  function ById(rows: seq<Intent>, id: nat): (r: Option<nat>)
    ensures r.Some? ==> r.value < |rows| && rows[r.value].id == id
    ensures r.None? ==> forall k | 0 <= k < |rows| :: rows[k].id != id
  {
    if rows == [] then None
    else if ById(rows[..|rows| - 1], id).Some? then ById(rows[..|rows| - 1], id)
    else if rows[|rows| - 1].id == id then Some(|rows| - 1)
    else None
  }

  predicate HasKey(row: Intent, principal: Principal, key: Option<string>) {
    key.Some? && row.key == key && row.principal == principal
  }

  /** First row of this principal with this idempotency key. */
  function ByKey(rows: seq<Intent>, principal: Principal, key: Option<string>): (r: Option<nat>)
    ensures r.Some? ==> r.value < |rows| && HasKey(rows[r.value], principal, key)
    ensures r.None? ==> forall k | 0 <= k < |rows| :: !HasKey(rows[k], principal, key)
  {
    if rows == [] then None
    else if ByKey(rows[..|rows| - 1], principal, key).Some? then ByKey(rows[..|rows| - 1], principal, key)
    else if HasKey(rows[|rows| - 1], principal, key) then Some(|rows| - 1)
    else None
  }

  predicate SameContent(row: Intent, p: Proposal) {
    row.account == p.account && row.surface == p.surface && row.params == p.params
  }

  function NewIntent(p: Proposal, now: int, id: nat): Intent {
    var ttl := if p.ttl.Some? then p.ttl.value else DEFAULT_TTL;
    Intent(id, p.account, p.principal, p.surface, p.key, p.params, Proposed, [], now, now, now + ttl * 1000, None)
  }

  /** The immediate gate: a halt rejects every proposal; an agent's proposal under observe is only recorded. */
  function GateVerdict(policy: Policy, p: Proposal): Option<(IntentStatus, IntentEvent)> {
    if policy.mode == HaltAll || policy.emergencyStop then Some((Rejected, GateRejected))
    else if p.principal != User && policy.authority == Observe then Some((Recorded, ObserveOnly))
    else None
  }

  function Moved(row: Intent, to: IntentStatus, gates: seq<Gate>, now: int): Intent {
    row.(status := to, gates := gates, updatedAt := now, terminalAt := if IntentTerminal(to) then Some(now) else None)
  }

  function Propose(s: State, p: Proposal, now: int, id: nat): (State, Result<Intent>) {
    if ValidateProposal(p).Some? then (s, Failure(ValidateProposal(p).value))
    else
      var found := ByKey(s.rows, p.principal, p.key);
      if found.Some? then
        var row := s.rows[found.value];
        if SameContent(row, p) then (s, Success(row))
        else (Append(s, CorruptionDetected(now, row.id, p.principal, p.key.value)), Failure(Conflict))
      else if ById(s.rows, id).Some? then (s, Failure(InternalError))
      else Admit(s, NewIntent(p, now, id), GateVerdict(Current(s), p))
  }

  /** One transaction: the new row and its event, then at once the gate's move and its event. */
  function Admit(s: State, row: Intent, verdict: Option<(IntentStatus, IntentEvent)>): (State, Result<Intent>) {
    var created := Append(s, IntentMoved(row.updatedAt, row.id, Proposed, None));
    if verdict.None? then (created.(rows := s.rows + [row]), Success(row))
    else
      var (to, event) := verdict.value;
      var gates := if to != Rejected then [] else if Current(s).emergencyStop then [EmergencyStopGate] else [ModeGate];
      var moved := Moved(row, to, gates, row.updatedAt);
      (Append(created, IntentMoved(row.updatedAt, row.id, to, Some(event))).(rows := s.rows + [moved]), Success(moved))
  }

  function RejectIntent(s: State, id: nat, principal: Principal, now: int): (State, Result<Intent>) {
    var found := ById(s.rows, id);
    if found.None? then (s, Failure(NotFound))
    else
      var row := s.rows[found.value];
      if !IntentStep(row.status, Rejected) then (s, Failure(InvalidTransition))
      else
        var moved := row.(status := Rejected, updatedAt := now, terminalAt := Some(now));
        var event := if principal == User then UserRejected else RegateRejected;
        (Append(s, IntentMoved(now, id, Rejected, Some(event))).(rows := s.rows[found.value := moved]), Success(moved))
  }

  function PolicySet(s: State, policy: Policy, confirm: PolicyConfirm, now: int): (State, Result<Policy>) {
    var bad := ValidateSet(Current(s), policy, confirm);
    if bad.Some? then (s, Failure(bad.value))
    else
      var next := policy.(updatedAt := now);
      var t := Append(s, PolicyChanged(now, next.version, next.mode, next.authority, next.emergencyStop));
      var u := if IsHalted(Current(s)) != IsHalted(next) then Append(t, HaltChanged(now, IsHalted(next), next.mode)) else t;
      (u.(policy := Some(next)), Success(next))
  }

  function EmergencyStopCall(s: State, mode: EmergencyMode, now: int): (State, Result<Policy>) {
    var r := ApplyEmergency(Current(s), mode, now);
    if r.Failure? then (s, r)
    else
      var next := r.value;
      var t := Append(s, HaltChanged(now, true, next.mode));
      var u := Append(t, PolicyChanged(now, next.version, next.mode, next.authority, true));
      (u.(policy := Some(next)), r)
  }

  // ------------------------------------------------------------------ runs

  datatype Call =
    | CallPropose(p: Proposal, now: int, id: nat)
    | CallReject(intent: nat, principal: Principal, now: int)
    | CallPolicySet(policy: Policy, confirm: PolicyConfirm, now: int)
    | CallEmergencyStop(mode: EmergencyMode, now: int)

  function After(s: State, call: Call): State {
    match call
    case CallPropose(p, now, id) => Propose(s, p, now, id).0
    case CallReject(intent, principal, now) => RejectIntent(s, intent, principal, now).0
    case CallPolicySet(policy, confirm, now) => PolicySet(s, policy, confirm, now).0
    case CallEmergencyStop(mode, now) => EmergencyStopCall(s, mode, now).0
  }

  function AfterAll(s: State, calls: seq<Call>): State {
    if calls == [] then s else After(AfterAll(s, calls[..|calls| - 1]), calls[|calls| - 1])
  }

  // ------------------------------------------------------------------ folds of the log

  /** The statuses logged for one intent, in order. */
  function Trail(log: seq<Event<Body>>, id: nat): seq<IntentStatus> {
    if log == [] then []
    else
      var b := log[|log| - 1].body;
      Trail(log[..|log| - 1], id) + (if b.IntentMoved? && b.intent == id then [b.status] else [])
  }

  /** The time of the intent's last status event. */
  function LastMove(log: seq<Event<Body>>, id: nat): int {
    if log == [] then 0
    else
      var b := log[|log| - 1].body;
      if b.IntentMoved? && b.intent == id then b.at else LastMove(log[..|log| - 1], id)
  }

  function Versions(log: seq<Event<Body>>): seq<nat> {
    if log == [] then []
    else
      var b := log[|log| - 1].body;
      Versions(log[..|log| - 1]) + (if b.PolicyChanged? then [b.version] else [])
  }

  /** The last halt.changed payload; running before any. */
  function LastHalt(log: seq<Event<Body>>): bool {
    if log == [] then false
    else
      var b := log[|log| - 1].body;
      if b.HaltChanged? then b.halted else LastHalt(log[..|log| - 1])
  }

  /** The last policy.changed event. */
  function LastPolicy(log: seq<Event<Body>>): Option<Body> {
    if log == [] then None
    else
      var b := log[|log| - 1].body;
      if b.PolicyChanged? then Some(b) else LastPolicy(log[..|log| - 1])
  }

  /** What a policy says in its event. */
  function Announced(p: Policy): Body {
    PolicyChanged(p.updatedAt, p.version, p.mode, p.authority, p.emergencyStop)
  }

  function OpenCount(rows: seq<Intent>): nat {
    if rows == [] then 0
    else OpenCount(rows[..|rows| - 1]) + if IntentTerminal(rows[|rows| - 1].status) then 0 else 1
  }

  // ------------------------------------------------------------------ invariant

  /** The row says what the folded log says: a table path from proposed ending in the stored status. */
  ghost predicate RowAgrees(log: seq<Event<Body>>, row: Intent) {
    var trail := Trail(log, row.id);
    && trail != [] && trail[0] == Proposed && IntentRun(trail) && trail[|trail| - 1] == row.status
    && row.updatedAt == LastMove(log, row.id)
    && row.terminalAt == if IntentTerminal(row.status) then Some(row.updatedAt) else None
  }

  /** A stored intent comes from a well made request and expires within a day of its creation. */
  predicate Permitted(row: Intent) {
    && WellMade(row.account, row.principal, row.surface, row.params)
    && 1000 <= row.expiresAt - row.createdAt <= 86400 * 1000
  }

  /** Ids are unique, and so are idempotency keys within a principal. */
  ghost predicate UniqueRows(rows: seq<Intent>) {
    && (forall i, j | 0 <= i < j < |rows| :: rows[i].id != rows[j].id)
    && (forall i, j | 0 <= i < j < |rows| :: !HasKey(rows[i], rows[j].principal, rows[j].key))
  }

  ghost predicate RowsAgree(log: seq<Event<Body>>, rows: seq<Intent>) {
    forall i | 0 <= i < |rows| :: RowAgrees(log, rows[i]) && Permitted(rows[i])
  }

  ghost predicate NoStrays(log: seq<Event<Body>>, rows: seq<Intent>) {
    forall id: nat | ById(rows, id).None? :: Trail(log, id) == []
  }

  ghost predicate TableInv(s: State) {
    WellNumbered(s.log) && UniqueRows(s.rows) && RowsAgree(s.log, s.rows) && NoStrays(s.log, s.rows)
  }

  ghost predicate PolicyInv(s: State) {
    var p := Current(s);
    && Versions(s.log) == seq(p.version, i => i + 1)
    && LastHalt(s.log) == IsHalted(p)
    && LastPolicy(s.log) == (if s.policy.Some? then Some(Announced(p)) else None)
    && !p.withdrawEnabled && !p.liveCappedEnabled && p.authority != LiveCapped && p.maxNakedSeconds > 0
  }

  // ------------------------------------------------------------------ appending events

  /** Everything the folds see of one more event. */
  lemma AppendFolds(s: State, body: Body, id: nat)
    ensures var t := Append(s, body).log;
      && Trail(t, id) == Trail(s.log, id) + (if body.IntentMoved? && body.intent == id then [body.status] else [])
      && LastMove(t, id) == (if body.IntentMoved? && body.intent == id then body.at else LastMove(s.log, id))
      && Versions(t) == Versions(s.log) + (if body.PolicyChanged? then [body.version] else [])
      && LastHalt(t) == (if body.HaltChanged? then body.halted else LastHalt(s.log))
      && LastPolicy(t) == (if body.PolicyChanged? then Some(body) else LastPolicy(s.log))
  {
    assert Append(s, body).log[..|s.log|] == s.log;
  }

  /** An event about another intent, or none, leaves a row's agreement alone. */
  lemma OtherEventKeepsRow(s: State, body: Body, row: Intent)
    requires RowAgrees(s.log, row) && !(body.IntentMoved? && body.intent == row.id)
    ensures RowAgrees(Append(s, body).log, row)
  {
    AppendFolds(s, body, row.id);
    assert Trail(s.log, row.id) + [] == Trail(s.log, row.id);
  }

  lemma OtherEventKeepsTables(s: State, body: Body)
    requires TableInv(s) && !body.IntentMoved?
    ensures TableInv(Append(s, body))
  {
    var t := Append(s, body);
    forall i | 0 <= i < |t.rows| ensures RowAgrees(t.log, t.rows[i]) {
      OtherEventKeepsRow(s, body, s.rows[i]);
    }
    forall id: nat | ById(t.rows, id).None? ensures Trail(t.log, id) == [] {
      AppendFolds(s, body, id);
    }
  }

  // ------------------------------------------------------------------ every call keeps the tables

  /** No new stray trail appears when the event's intent has a row and no row's id disappears. */
  lemma NoNewStrays(s: State, body: Body, rows: seq<Intent>)
    requires NoStrays(s.log, s.rows) && (body.IntentMoved? ==> ById(rows, body.intent).Some?)
    requires forall k | 0 <= k < |s.rows| :: ById(rows, s.rows[k].id).Some?
    ensures NoStrays(Append(s, body).log, rows)
  {
    forall id: nat | ById(rows, id).None? ensures Trail(Append(s, body).log, id) == [] {
      AppendFolds(s, body, id);
      assert ById(s.rows, id).None?;
    }
  }

  lemma UniqueAppend(rows: seq<Intent>, row: Intent)
    requires UniqueRows(rows) && ById(rows, row.id).None? && ByKey(rows, row.principal, row.key).None?
    ensures UniqueRows(rows + [row])
    ensures forall k | 0 <= k < |rows| :: ById(rows + [row], rows[k].id).Some?
    ensures ById(rows + [row], row.id).Some?
  {
    var all := rows + [row];
    assert all[|rows|] == row && forall k | 0 <= k < |rows| :: all[k] == rows[k];
  }

  /** A fresh intent is logged as proposed. */
  lemma CreateKeepsTables(s: State, row: Intent)
    requires TableInv(s) && ById(s.rows, row.id).None? && ByKey(s.rows, row.principal, row.key).None?
    requires row.status == Proposed && row.terminalAt == None && Permitted(row)
    ensures TableInv(Append(s, IntentMoved(row.updatedAt, row.id, Proposed, None)).(rows := s.rows + [row]))
  {
    var body := IntentMoved(row.updatedAt, row.id, Proposed, None);
    UniqueAppend(s.rows, row);
    NoNewStrays(s, body, s.rows + [row]);
    CreatedRowsAgree(s, row);
  }

  lemma CreatedRowAgrees(s: State, row: Intent)
    requires Trail(s.log, row.id) == [] && row.status == Proposed && row.terminalAt == None
    ensures RowAgrees(Append(s, IntentMoved(row.updatedAt, row.id, Proposed, None)).log, row)
  {
    AppendFolds(s, IntentMoved(row.updatedAt, row.id, Proposed, None), row.id);
  }

  lemma CreatedRowsAgree(s: State, row: Intent)
    requires RowsAgree(s.log, s.rows) && NoStrays(s.log, s.rows) && ById(s.rows, row.id).None?
    requires row.status == Proposed && row.terminalAt == None && Permitted(row)
    ensures RowsAgree(Append(s, IntentMoved(row.updatedAt, row.id, Proposed, None)).log, s.rows + [row])
  {
    var body := IntentMoved(row.updatedAt, row.id, Proposed, None);
    CreatedRowAgrees(s, row);
    var rows := s.rows + [row];
    forall i | 0 <= i < |rows| ensures RowAgrees(Append(s, body).log, rows[i]) && Permitted(rows[i]) {
      if i < |s.rows| {
        OtherEventKeepsRow(s, body, s.rows[i]);
      }
    }
  }

  lemma MovedRowAgrees(s: State, row: Intent, to: IntentStatus, moved: Intent, event: Option<IntentEvent>)
    requires RowAgrees(s.log, row) && IntentStep(row.status, to) && moved.id == row.id && moved.status == to
    requires moved.terminalAt == if IntentTerminal(to) then Some(moved.updatedAt) else None
    ensures RowAgrees(Append(s, IntentMoved(moved.updatedAt, moved.id, to, event)).log, moved)
  {
    AppendFolds(s, IntentMoved(moved.updatedAt, moved.id, to, event), row.id);
  }

  lemma ReplacedRowStaysUnique(rows: seq<Intent>, i: nat, moved: Intent)
    requires UniqueRows(rows) && i < |rows|
    requires moved.id == rows[i].id && moved.principal == rows[i].principal && moved.key == rows[i].key
    ensures UniqueRows(rows[i := moved])
    ensures forall k | 0 <= k < |rows| :: ById(rows[i := moved], rows[k].id).Some?
  {
    var all := rows[i := moved];
    forall k | 0 <= k < |rows| ensures ById(all, rows[k].id).Some? {
      assert all[k].id == rows[k].id;
    }
  }

  lemma MovedRowsAgree(s: State, i: nat, to: IntentStatus, moved: Intent, event: Option<IntentEvent>)
    requires RowsAgree(s.log, s.rows) && UniqueRows(s.rows) && i < |s.rows| && IntentStep(s.rows[i].status, to)
    requires moved.id == s.rows[i].id && moved.status == to && Permitted(moved)
    requires moved.terminalAt == if IntentTerminal(to) then Some(moved.updatedAt) else None
    ensures RowsAgree(Append(s, IntentMoved(moved.updatedAt, moved.id, to, event)).log, s.rows[i := moved])
  {
    var body := IntentMoved(moved.updatedAt, moved.id, to, event);
    var rows := s.rows[i := moved];
    MovedRowAgrees(s, s.rows[i], to, moved, event);
    forall k | 0 <= k < |rows| ensures RowAgrees(Append(s, body).log, rows[k]) {
      if k != i {
        OtherEventKeepsRow(s, body, s.rows[k]);
      }
    }
  }

  /** Moving a row along a table edge, together with its event. */
  lemma MoveKeepsTables(s: State, i: nat, to: IntentStatus, moved: Intent, event: Option<IntentEvent>)
    requires TableInv(s) && i < |s.rows| && IntentStep(s.rows[i].status, to)
    requires moved == s.rows[i].(status := to, gates := moved.gates, updatedAt := moved.updatedAt,
                                 terminalAt := if IntentTerminal(to) then Some(moved.updatedAt) else None)
    ensures TableInv(Append(s, IntentMoved(moved.updatedAt, moved.id, to, event)).(rows := s.rows[i := moved]))
  {
    ReplacedRowStaysUnique(s.rows, i, moved);
    NoNewStrays(s, IntentMoved(moved.updatedAt, moved.id, to, event), s.rows[i := moved]);
    MovedRowsAgree(s, i, to, moved, event);
  }

  lemma AdmitKeepsTables(s: State, row: Intent, verdict: Option<(IntentStatus, IntentEvent)>)
    requires TableInv(s) && ById(s.rows, row.id).None? && ByKey(s.rows, row.principal, row.key).None?
    requires row.status == Proposed && row.terminalAt == None && Permitted(row)
    requires verdict.Some? ==> IntentStep(Proposed, verdict.value.0)
    ensures TableInv(Admit(s, row, verdict).0)
  {
    CreateKeepsTables(s, row);
    if verdict.Some? {
      var created := Append(s, IntentMoved(row.updatedAt, row.id, Proposed, None)).(rows := s.rows + [row]);
      var moved := Admit(s, row, verdict).1.value;
      MoveKeepsTables(created, |s.rows|, verdict.value.0, moved, Some(verdict.value.1));
      assert (s.rows + [row])[|s.rows| := moved] == s.rows + [moved];
    }
  }

  lemma ProposeKeepsTables(s: State, p: Proposal, now: int, id: nat)
    requires TableInv(s)
    ensures TableInv(Propose(s, p, now, id).0)
  {
    if ValidateProposal(p).None? {
      var found := ByKey(s.rows, p.principal, p.key);
      if found.Some? {
        OtherEventKeepsTables(s, CorruptionDetected(now, s.rows[found.value].id, p.principal, p.key.value));
      } else if ById(s.rows, id).None? {
        AcceptedExactly(p);
        AdmitKeepsTables(s, NewIntent(p, now, id), GateVerdict(Current(s), p));
      }
    }
  }

  lemma CallKeepsTables(s: State, call: Call)
    requires TableInv(s)
    ensures TableInv(After(s, call))
  {
    match call
    case CallPropose(p, now, id) => ProposeKeepsTables(s, p, now, id);
    case CallReject(intent, principal, now) =>
      var found := ById(s.rows, intent);
      if found.Some? && IntentStep(s.rows[found.value].status, Rejected) {
        var moved := s.rows[found.value].(status := Rejected, updatedAt := now, terminalAt := Some(now));
        MoveKeepsTables(s, found.value, Rejected, moved, Some(if principal == User then UserRejected else RegateRejected));
      }
    case CallPolicySet(policy, confirm, now) =>
      var next := policy.(updatedAt := now);
      var body := PolicyChanged(now, next.version, next.mode, next.authority, next.emergencyStop);
      OtherEventKeepsTables(s, body);
      OtherEventKeepsTables(Append(s, body), HaltChanged(now, IsHalted(next), next.mode));
    case CallEmergencyStop(mode, now) =>
      var r := ApplyEmergency(Current(s), mode, now);
      if r.Success? {
        var body := HaltChanged(now, true, r.value.mode);
        OtherEventKeepsTables(s, body);
        OtherEventKeepsTables(Append(s, body), PolicyChanged(now, r.value.version, r.value.mode, r.value.authority, true));
      }
  }

  lemma QuietEventKeepsPolicy(s: State, body: Body)
    requires PolicyInv(s) && !body.PolicyChanged? && !body.HaltChanged?
    ensures PolicyInv(Append(s, body))
  {
    AppendFolds(s, body, 0);
    assert Versions(s.log) + [] == Versions(s.log);
  }

  lemma NextVersion(n: nat)
    ensures seq(n + 1, i => i + 1) == seq(n, i => i + 1) + [n + 1]
  {
  }

  lemma ProposeKeepsPolicy(s: State, p: Proposal, now: int, id: nat)
    requires PolicyInv(s)
    ensures PolicyInv(Propose(s, p, now, id).0)
  {
    var body := IntentMoved(now, id, Proposed, None);
    QuietEventKeepsPolicy(s, body);
    var verdict := GateVerdict(Current(s), p);
    if verdict.Some? {
      QuietEventKeepsPolicy(Append(s, body), IntentMoved(now, id, verdict.value.0, Some(verdict.value.1)));
    }
    var found := ByKey(s.rows, p.principal, p.key);
    if found.Some? {
      QuietEventKeepsPolicy(s, CorruptionDetected(now, s.rows[found.value].id, p.principal, p.key.value));
    }
  }

  lemma PolicySetKeepsPolicy(s: State, policy: Policy, confirm: PolicyConfirm, now: int)
    requires PolicyInv(s)
    ensures PolicyInv(PolicySet(s, policy, confirm, now).0)
  {
    if ValidateSet(Current(s), policy, confirm).None? {
      var next := policy.(updatedAt := now);
      var body := PolicyChanged(now, next.version, next.mode, next.authority, next.emergencyStop);
      NextVersion(Current(s).version);
      AppendFolds(s, body, 0);
      AppendFolds(Append(s, body), HaltChanged(now, IsHalted(next), next.mode), 0);
    }
  }

  lemma EmergencyKeepsPolicy(s: State, mode: EmergencyMode, now: int)
    requires PolicyInv(s)
    ensures PolicyInv(EmergencyStopCall(s, mode, now).0)
  {
    var r := ApplyEmergency(Current(s), mode, now);
    if r.Success? {
      var body := HaltChanged(now, true, r.value.mode);
      NextVersion(Current(s).version);
      AppendFolds(s, body, 0);
      AppendFolds(Append(s, body), PolicyChanged(now, r.value.version, r.value.mode, r.value.authority, true), 0);
    }
  }

  lemma CallKeepsPolicy(s: State, call: Call)
    requires PolicyInv(s)
    ensures PolicyInv(After(s, call))
  {
    match call
    case CallPropose(p, now, id) => ProposeKeepsPolicy(s, p, now, id);
    case CallReject(intent, principal, now) =>
      QuietEventKeepsPolicy(s, IntentMoved(now, intent, Rejected, Some(if principal == User then UserRejected else RegateRejected)));
    case CallPolicySet(policy, confirm, now) => PolicySetKeepsPolicy(s, policy, confirm, now);
    case CallEmergencyStop(mode, now) => EmergencyKeepsPolicy(s, mode, now);
  }

  // ------------------------------------------------------------------ what every run guarantees

  /**
   * Intent log and table agree after any sequence of calls: numbers are 1..n, each row's folded
   * trail is a table path from proposed to its stored status, the end time is set exactly for
   * terminal statuses, ids and (principal, key) are unique, and unknown ids have no trail.
   */
  lemma RunsKeepTables(calls: seq<Call>)
    ensures TableInv(AfterAll(INITIAL, calls))
  {
    MoreCallsKeepTables(INITIAL, calls);
  }

  lemma {:induction false} MoreCallsKeepTables(s: State, calls: seq<Call>)
    requires TableInv(s)
    ensures TableInv(AfterAll(s, calls))
  {
    if calls != [] {
      MoreCallsKeepTables(s, calls[..|calls| - 1]);
      CallKeepsTables(AfterAll(s, calls[..|calls| - 1]), calls[|calls| - 1]);
    }
  }

  /**
   * Policy log and state agree after any sequence of calls: logged versions are exactly
   * 1..current, the last halt payload is the current halt, the last announced policy is the stored
   * one, and no policy ever stored allows withdrawals, live_capped, or zero naked seconds.
   */
  lemma {:induction false} RunsKeepPolicy(calls: seq<Call>)
    ensures PolicyInv(AfterAll(INITIAL, calls))
  {
    if calls != [] {
      RunsKeepPolicy(calls[..|calls| - 1]);
      CallKeepsPolicy(AfterAll(INITIAL, calls[..|calls| - 1]), calls[|calls| - 1]);
    }
  }

  /** The policy in force is the one that the last policy.changed event announced, or the default before any. */
  lemma LoadedPolicyIsLogged(calls: seq<Call>)
    ensures var s := AfterAll(INITIAL, calls);
      match LastPolicy(s.log)
      case None => Current(s) == DEFAULT_POLICY
      case Some(body) => body == Announced(Current(s))
  {
    RunsKeepPolicy(calls);
  }

  /** No call changes or removes a terminal row, or moves or re-identifies any row. */
  lemma CallKeepsRow(s: State, call: Call, i: nat)
    requires i < |s.rows|
    ensures var t := After(s, call);
      && |s.rows| <= |t.rows| && t.rows[i].id == s.rows[i].id && SameRequest(t.rows[i], s.rows[i])
      && (IntentTerminal(s.rows[i].status) ==> t.rows[i] == s.rows[i])
  {
  }

  /** The two rows came from the same request. */
  predicate SameRequest(a: Intent, b: Intent) {
    a.account == b.account && a.principal == b.principal && a.surface == b.surface && a.key == b.key && a.params == b.params
  }

  /** Terminal intents are final over any further run, and every row keeps its request. */
  lemma {:induction false} TerminalRowsAreFinal(s: State, calls: seq<Call>, i: nat)
    requires i < |s.rows|
    ensures var t := AfterAll(s, calls);
      && i < |t.rows| && t.rows[i].id == s.rows[i].id && SameRequest(t.rows[i], s.rows[i])
      && (IntentTerminal(s.rows[i].status) ==> t.rows[i] == s.rows[i])
  {
    if calls != [] {
      TerminalRowsAreFinal(s, calls[..|calls| - 1], i);
      CallKeepsRow(AfterAll(s, calls[..|calls| - 1]), calls[|calls| - 1], i);
    }
  }

  /** On tables in order, a proposal whose key and content a row already has is answered by that row. */
  lemma ReplayFindsRow(t: State, i: nat, p: Proposal, now: int, id: nat)
    requires TableInv(t) && i < |t.rows| && ValidateProposal(p).None?
    requires HasKey(t.rows[i], p.principal, p.key) && SameContent(t.rows[i], p)
    ensures Propose(t, p, now, id) == (t, Success(t.rows[i]))
  {
    var j := ByKey(t.rows, p.principal, p.key).value;
    assert HasKey(t.rows[j], t.rows[i].principal, t.rows[i].key) && HasKey(t.rows[i], t.rows[j].principal, t.rows[j].key);
  }

  /** A successful keyed proposal leaves a row with its key and content, the one it answers with. */
  lemma ProposeLeavesRow(s: State, p: Proposal, now: int, id: nat) returns (i: nat)
    requires p.key.Some? && Propose(s, p, now, id).1.Success?
    ensures var (t, r) := Propose(s, p, now, id);
      i < |t.rows| && t.rows[i] == r.value && HasKey(t.rows[i], p.principal, p.key) && SameContent(t.rows[i], p)
  {
    var found := ByKey(s.rows, p.principal, p.key);
    i := if found.Some? then found.value else |s.rows|;
  }

  /**
   * Replaying a keyed proposal, at any later time and after any further calls, changes nothing and
   * answers with the row of the first call.
   */
  lemma ReplayChangesNothing(before: seq<Call>, p: Proposal, now: int, id: nat, between: seq<Call>, now2: int, id2: nat)
    requires p.key.Some? && Propose(AfterAll(INITIAL, before), p, now, id).1.Success?
    ensures var first := Propose(AfterAll(INITIAL, before), p, now, id);
      var t := AfterAll(first.0, between);
      var again := Propose(t, p, now2, id2);
      again.0 == t && again.1.Success? && again.1.value.id == first.1.value.id
  {
    var first := Propose(AfterAll(INITIAL, before), p, now, id);
    var t := AfterAll(first.0, between);
    var i := ProposeLeavesRow(AfterAll(INITIAL, before), p, now, id);
    TerminalRowsAreFinal(first.0, between, i);
    RunsKeepTables(before);
    ProposeKeepsTables(AfterAll(INITIAL, before), p, now, id);
    MoreCallsKeepTables(first.0, between);
    ReplayFindsRow(t, i, p, now2, id2);
  }

  /** The emergency stop never lowers severity, always leaves the daemon halted, and fails only to relax. */
  lemma EmergencyOnlyTightens(s: State, mode: EmergencyMode, now: int)
    ensures var (t, r) := EmergencyStopCall(s, mode, now);
      && Severity(Current(t).mode) >= Severity(Current(s).mode)
      && (r.Success? <==> Severity(AsPolicyMode(mode)) >= Severity(Current(s).mode))
      && (r.Success? ==> IsHalted(Current(t)) && Current(t).mode == AsPolicyMode(mode) && LastHalt(t.log))
      && (r.Failure? ==> t == s)
  {
    var r := ApplyEmergency(Current(s), mode, now);
    if r.Success? {
      var body := HaltChanged(now, true, r.value.mode);
      AppendFolds(s, body, 0);
      AppendFolds(Append(s, body), PolicyChanged(now, r.value.version, r.value.mode, r.value.authority, true), 0);
    }
  }

  lemma {:induction false} OpenCountUpdate(rows: seq<Intent>, i: nat, row: Intent)
    requires i < |rows| && IntentTerminal(row.status)
    ensures OpenCount(rows[i := row]) <= OpenCount(rows)
  {
    if i < |rows| - 1 {
      OpenCountUpdate(rows[..|rows| - 1], i, row);
      assert rows[i := row][..|rows| - 1] == rows[..|rows| - 1][i := row];
    } else {
      assert rows[i := row][..|rows| - 1] == rows[..|rows| - 1];
    }
  }

  /** While halted no call raises the number of open intents; a rejected proposal lands terminal. */
  lemma OpenIntentsNeverRiseWhileHalted(s: State, call: Call)
    requires IsHalted(Current(s))
    ensures OpenCount(After(s, call).rows) <= OpenCount(s.rows)
  {
    match call
    case CallPropose(p, now, id) =>
      var t := Propose(s, p, now, id).0;
      if t.rows != s.rows {
        assert t.rows[..|s.rows|] == s.rows;
      }
    case CallReject(intent, principal, now) =>
      var found := ById(s.rows, intent);
      if found.Some? {
        OpenCountUpdate(s.rows, found.value,
          s.rows[found.value].(status := Rejected, updatedAt := now, terminalAt := Some(now)));
      }
    case _ =>
  }
}
