/** The daemon's store and its write services as they run: table rows updated inside a transaction. */
module Execd {
  import opened Wrappers
  import opened EventLog
  import opened Transitions
  import opened Records
  import opened Services

  /** A row appended under a new id is the one an update by that id replaces. */
  lemma LastIsFound(rows: seq<Intent>, row: Intent, moved: Intent)
    requires ById(rows, row.id).None?
    ensures ById(rows + [row], row.id) == Some(|rows|) && (rows + [row])[|rows| := moved] == rows + [moved]
  {
    assert (rows + [row])[..|rows|] == rows;
  }

  class Store {
    var log: seq<Event<Body>>
    var rows: seq<Intent>
    var policy: Option<Policy>

    ghost function View(): State
      reads this
    {
      State(log, rows, policy)
    }

    constructor ()
      ensures View() == INITIAL
    {
      log, rows, policy := [], [], None;
    }

    /** `tx_insert_event`: the autoincremented number is written back into the stored event. */
    method TxInsertEvent(body: Body) returns (number: nat)
      modifies this`log
      ensures View() == Append(old(View()), body) && number == |old(log)| + 1
    {
      number := |log| + 1;
      log := log + [Event(number, body)];
    }

    /** `tx_insert_intent`: the primary key and the (principal, idempotency_key) index may refuse. */
    method TxInsertIntent(row: Intent) returns (ok: bool)
      modifies this`rows
      ensures ok == (ById(old(rows), row.id).None? && ByKey(old(rows), row.principal, row.key).None?)
      ensures rows == if ok then old(rows) + [row] else old(rows)
    {
      var sameId := GetIntent(row.id);
      var sameKey := FindByIdempotency(row.principal, row.key);
      ok := sameId.None? && sameKey.None?;
      if ok {
        rows := rows + [row];
      }
    }

    /** `tx_update_intent`: exactly the row with this id is replaced. */
    method TxUpdateIntent(row: Intent) returns (ok: bool)
      modifies this`rows
      ensures ok == ById(old(rows), row.id).Some?
      ensures rows == if ok then old(rows)[ById(old(rows), row.id).value := row] else old(rows)
    {
      var at := GetIntent(row.id);
      ok := at.Some?;
      if ok {
        rows := rows[at.value := row];
      }
    }

    method GetIntent(id: nat) returns (at: Option<nat>)
      ensures at == ById(rows, id)
    {
      at := None;
      for k := 0 to |rows|
        invariant at == ById(rows[..k], id)
      {
        assert rows[..k + 1][..k] == rows[..k];
        if at.None? && rows[k].id == id {
          at := Some(k);
        }
      }
      assert rows[..|rows|] == rows;
    }

    method FindByIdempotency(principal: Principal, key: Option<string>) returns (at: Option<nat>)
      ensures at == ByKey(rows, principal, key)
    {
      at := None;
      for k := 0 to |rows|
        invariant at == ByKey(rows[..k], principal, key)
      {
        assert rows[..k + 1][..k] == rows[..k];
        if at.None? && HasKey(rows[k], principal, key) {
          at := Some(k);
        }
      }
      assert rows[..|rows|] == rows;
    }

    method CountOpenIntents() returns (n: nat)
      ensures n == OpenCount(rows)
    {
      n := 0;
      for k := 0 to |rows|
        invariant n == OpenCount(rows[..k])
      {
        assert rows[..k + 1][..k] == rows[..k];
        if !IntentTerminal(rows[k].status) {
          n := n + 1;
        }
      }
      assert rows[..|rows|] == rows;
    }

    method LoadPolicy() returns (p: Policy)
      ensures p == Current(View())
    {
      p := if policy.Some? then policy.value else DEFAULT_POLICY;
    }

    /** `exec.intent.propose`, with the clock and the random id as parameters. */
    method ProposeCall(p: Proposal, now: int, id: nat) returns (r: Result<Intent>)
      modifies this
      ensures (View(), r) == Propose(old(View()), p, now, id)
    {
      var bad := CheckProposal(p);
      if bad.Some? {
        return Failure(bad.value);
      }
      var current := LoadPolicy();
      var found := FindByIdempotency(p.principal, p.key);
      if found.Some? {
        var existing := rows[found.value];
        if SameContent(existing, p) {
          return Success(existing);
        }
        var _ := TxInsertEvent(CorruptionDetected(now, existing.id, p.principal, p.key.value));
        return Failure(Conflict);
      }
      r := AdmitCall(NewIntent(p, now, id), GateVerdict(current, p));
    }

    /** The transaction behind an accepted proposal; a refused insert rolls it back whole. */
    method AdmitCall(row: Intent, verdict: Option<(IntentStatus, IntentEvent)>) returns (r: Result<Intent>)
      requires ByKey(rows, row.principal, row.key).None?
      modifies this
      ensures (View(), r) == if ById(old(rows), row.id).Some? then (old(View()), Failure(InternalError))
                             else Admit(old(View()), row, verdict)
    {
      var current := LoadPolicy();
      var inserted := TxInsertIntent(row);
      if !inserted {
        return Failure(InternalError);
      }
      var _ := TxInsertEvent(IntentMoved(row.updatedAt, row.id, Proposed, None));
      if verdict.None? {
        return Success(row);
      }
      var (to, event) := verdict.value;
      var gates := if to != Rejected then [] else if current.emergencyStop then [EmergencyStopGate] else [ModeGate];
      var intent := Moved(row, to, gates, row.updatedAt);
      LastIsFound(old(rows), row, intent);
      var _ := TxUpdateIntent(intent);
      var _ := TxInsertEvent(IntentMoved(row.updatedAt, row.id, to, Some(event)));
      r := Success(intent);
    }

    method RejectCall(id: nat, principal: Principal, now: int) returns (r: Result<Intent>)
      modifies this
      ensures (View(), r) == RejectIntent(old(View()), id, principal, now)
    {
      var found := GetIntent(id);
      if found.None? {
        return Failure(NotFound);
      }
      var intent := rows[found.value];
      var event := if principal == User then UserRejected else RegateRejected;
      if !IntentStep(intent.status, Rejected) {
        return Failure(InvalidTransition);
      }
      intent := intent.(status := Rejected, updatedAt := now, terminalAt := Some(now));
      var _ := TxUpdateIntent(intent);
      var _ := TxInsertEvent(IntentMoved(now, id, Rejected, Some(event)));
      r := Success(intent);
    }

    method PolicySetCall(requested: Policy, confirm: PolicyConfirm, now: int) returns (r: Result<Policy>)
      modifies this
      ensures (View(), r) == PolicySet(old(View()), requested, confirm, now)
    {
      var current := LoadPolicy();
      var bad := ValidateSet(current, requested, confirm);
      if bad.Some? {
        return Failure(bad.value);
      }
      var next := requested.(updatedAt := now);
      policy := Some(next);
      var _ := TxInsertEvent(PolicyChanged(now, next.version, next.mode, next.authority, next.emergencyStop));
      if IsHalted(current) != IsHalted(next) {
        var _ := TxInsertEvent(HaltChanged(now, IsHalted(next), next.mode));
      }
      r := Success(next);
    }

    method EmergencyStopMethod(mode: EmergencyMode, now: int) returns (r: Result<Policy>)
      modifies this
      ensures (View(), r) == EmergencyStopCall(old(View()), mode, now)
    {
      var current := LoadPolicy();
      r := ApplyEmergency(current, mode, now);
      if r.Failure? {
        return;
      }
      policy := Some(r.value);
      var _ := TxInsertEvent(HaltChanged(now, true, r.value.mode));
      var _ := TxInsertEvent(PolicyChanged(now, r.value.version, r.value.mode, r.value.authority, true));
    }
  }
}
