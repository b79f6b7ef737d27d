/** What execd stores and is asked for: intents, policy, event bodies, and the request checks. */
module Records {
  import opened Powers
  import opened Wrappers
  import opened Transitions

  // ------------------------------------------------------------------ intents

  datatype AccountRef = Main | Sub
  datatype Principal = User | Model | Cron | Scheduler | McpClient
  datatype Surface = Rpc | ModelSurface | McpSurface | Internal
  datatype Wallet = Spot | UsdmFutures

  /** An unsigned decimal text: its digits without the point, and how many follow the point. */
  datatype Amount = Amount(digits: nat, scale: nat)

  function Value(a: Amount): real {
    a.digits as real / Pow10(a.scale) as real
  }

  /** Parameters by kind; an absent list differs from an empty one. `rest` stands for the members no check looks at. */
  datatype Params =
    | Transfer(amount: Amount, fromAccount: AccountRef, fromWallet: Wallet, toAccount: AccountRef, toWallet: Wallet, rest: string)
    | Close(pct: Amount, rest: string)
    | CancelOrder(refGiven: bool, rest: string)
    | Open(takeProfits: Option<seq<Amount>>, leverage: Option<nat>, rest: string)
    | Protect(stopGiven: bool, takeProfits: Option<seq<Amount>>, rest: string)

  datatype Proposal = Proposal(
    account: AccountRef, principal: Principal, surface: Surface, key: Option<string>, params: Params, ttl: Option<nat>)

  datatype Gate = EmergencyStopGate | ModeGate

  datatype Intent = Intent(
    id: nat, account: AccountRef, principal: Principal, surface: Surface, key: Option<string>, params: Params,
    status: IntentStatus, gates: seq<Gate>, createdAt: int, updatedAt: int, expiresAt: int, terminalAt: Option<int>)

  datatype ErrorKind = InvalidParams | Forbidden | NotFound | Conflict | InvalidTransition | InternalError

  datatype Result<+T> = Success(value: T) | Failure(error: ErrorKind)

  // ------------------------------------------------------------------ policy

  datatype PolicyMode = Run | StopOpening | FlattenOnly | HaltAll
  datatype EmergencyMode = EmergencyStopOpening | EmergencyFlattenOnly | EmergencyHaltAll
  datatype Authority = Observe | Draft | Paper | LiveCapped

  /** `rest` stands for the allow-lists, the caps no check looks at and the canary block. */
  datatype Policy = Policy(
    version: nat, updatedAt: int, mode: PolicyMode, authority: Authority, emergencyStop: bool,
    liveCappedEnabled: bool, withdrawEnabled: bool, maxNakedSeconds: nat, rest: string)

  datatype PolicyConfirm = PolicyConfirm(mode: string, authority: string)

  function ModeText(m: PolicyMode): string {
    match m case Run => "run" case StopOpening => "stop_opening" case FlattenOnly => "flatten_only" case HaltAll => "halt_all"
  }

  function AuthorityText(a: Authority): string {
    match a case Observe => "observe" case Draft => "draft" case Paper => "paper" case LiveCapped => "live_capped"
  }

  function Severity(m: PolicyMode): nat {
    match m case Run => 0 case StopOpening => 1 case FlattenOnly => 2 case HaltAll => 3
  }

  function AsPolicyMode(m: EmergencyMode): PolicyMode {
    match m
    case EmergencyStopOpening => StopOpening
    case EmergencyFlattenOnly => FlattenOnly
    case EmergencyHaltAll => HaltAll
  }

  const DEFAULT_POLICY := Policy(0, 0, Run, Observe, false, false, false, 20, "default")

  predicate IsHalted(p: Policy) {
    p.emergencyStop || p.mode == HaltAll
  }

  /** `policy.set`: exact confirmation, version exactly one up, and the v1 prohibitions, in this order. */
  function ValidateSet(current: Policy, next: Policy, confirm: PolicyConfirm): Option<ErrorKind> {
    if confirm.mode != ModeText(next.mode) || confirm.authority != AuthorityText(next.authority) then Some(Conflict)
    else if next.version != current.version + 1 then Some(Conflict)
    else if next.withdrawEnabled then Some(InvalidParams)
    else if next.liveCappedEnabled then Some(Forbidden)
    else if next.authority == LiveCapped then Some(Forbidden)
    else if next.maxNakedSeconds == 0 then Some(InvalidParams)
    else None
  }

  /** The emergency stop only tightens; it keeps everything else and moves the version one up. */
  function ApplyEmergency(current: Policy, mode: EmergencyMode, now: int): Result<Policy> {
    var target := AsPolicyMode(mode);
    if Severity(target) < Severity(current.mode) then Failure(Forbidden)
    else Success(current.(mode := target, emergencyStop := true, version := current.version + 1, updatedAt := now))
  }

  // ------------------------------------------------------------------ events

  /** Event bodies; a status event is named after its status, so the status stands for the name. */
  datatype Body =
    | IntentMoved(at: int, intent: nat, status: IntentStatus, event: Option<IntentEvent>)
    | CorruptionDetected(at: int, intent: nat, principal: Principal, key: string)
    | PolicyChanged(at: int, version: nat, mode: PolicyMode, authority: Authority, emergencyStop: bool)
    | HaltChanged(at: int, halted: bool, mode: PolicyMode)

  // ------------------------------------------------------------------ proposal checks

  /** In (0, 100]. */
  predicate IsPct(a: Amount) {
    0 < a.digits <= 100 * Pow10(a.scale)
  }

  function Total(tps: seq<Amount>): real {
    if tps == [] then 0.0 else Total(tps[..|tps| - 1]) + Value(tps[|tps| - 1])
  }

  /** The take-profits there are. */
  function Listed(tps: Option<seq<Amount>>): seq<Amount> {
    if tps.Some? then tps.value else []
  }

  predicate TakeProfitsOk(tps: seq<Amount>) {
    (forall k | 0 <= k < |tps| :: IsPct(tps[k])) && Total(tps) <= 100.0 + 0.000000001
  }

  function ValidateParams(p: Proposal): Option<ErrorKind> {
    match p.params
    case Transfer(amount, fromAccount, fromWallet, toAccount, toWallet, _) =>
      if p.principal != User || p.surface != Rpc then Some(Forbidden)
      else if fromAccount == toAccount && fromWallet == toWallet then Some(InvalidParams)
      else if p.account != fromAccount then Some(InvalidParams)
      else if amount.digits == 0 then Some(InvalidParams)
      else None
    case Close(pct, _) => if IsPct(pct) then None else Some(InvalidParams)
    case CancelOrder(refGiven, _) => if refGiven then None else Some(InvalidParams)
    case Open(tps, leverage, _) =>
      if !TakeProfitsOk(Listed(tps)) || leverage == Some(0) then Some(InvalidParams) else None
    case Protect(stopGiven, tps, _) => if !stopGiven && Listed(tps) == [] then Some(InvalidParams) else None
  }

  function ValidateProposal(p: Proposal): Option<ErrorKind> {
    if p.account == Main && p.principal != User then Some(Forbidden)
    else if ValidateParams(p).Some? then ValidateParams(p)
    else if p.ttl.Some? && !(1 <= p.ttl.value <= 86400) then Some(InvalidParams)
    else None
  }

  lemma QuotientOrder(d: real, p: real, c: real)
    requires p > 0.0
    ensures d / p <= c <==> d <= c * p
  {
    var q := d / p;
    assert q * p == d;
    if q <= c {
      assert q * p <= c * p;
    } else {
      assert q * p > c * p;
    }
  }

  /** The integer comparison is the range (0, 100] of the decimal. */
  lemma PctIsInRange(a: Amount)
    ensures IsPct(a) <==> InPercent(a)
  {
    var p := Pow10(a.scale);
    QuotientOrder(a.digits as real, p as real, 0.0);
    QuotientOrder(a.digits as real, p as real, 100.0);
    assert 100.0 * (p as real) == (100 * p) as real;
  }

  /** In (0, 100], as a decimal. */
  predicate InPercent(a: Amount) {
    0.0 < Value(a) <= 100.0
  }

  predicate AllInPercent(tps: seq<Amount>) {
    forall k | 0 <= k < |tps| :: InPercent(tps[k])
  }

  /**
   * What an accepted request is: the main account and transfers are for the user, a transfer goes over
   * RPC, out of the request's own account, to another place, and moves something; the part to close and
   * the take-profits of an opening are percentages, the latter of at most 100 in all, up to a billionth;
   * nothing is asked of no order and no level. Nothing is said of the take-profits of a protection.
   */
  predicate WellMade(account: AccountRef, principal: Principal, surface: Surface, params: Params) {
    && (account == Main ==> principal == User)
    && match params
       case Transfer(amount, fromAccount, fromWallet, toAccount, toWallet, _) =>
         && principal == User && surface == Rpc && account == fromAccount
         && (fromAccount, fromWallet) != (toAccount, toWallet) && Value(amount) > 0.0
       case Close(pct, _) => InPercent(pct)
       case CancelOrder(refGiven, _) => refGiven
       case Open(tps, leverage, _) =>
         && AllInPercent(Listed(tps)) && Total(Listed(tps)) <= 100.0 + 0.000000001 && leverage != Some(0)
       case Protect(stopGiven, tps, _) => stopGiven || Listed(tps) != []
  }

  lemma AmountIsPositive(a: Amount)
    ensures a.digits != 0 <==> Value(a) > 0.0
  {
    QuotientOrder(a.digits as real, Pow10(a.scale) as real, 0.0);
  }

  lemma PctsAreInRange(tps: seq<Amount>)
    ensures (forall k | 0 <= k < |tps| :: IsPct(tps[k])) <==> AllInPercent(tps)
  {
    forall k | 0 <= k < |tps| ensures IsPct(tps[k]) <==> InPercent(tps[k]) {
      PctIsInRange(tps[k]);
    }
  }

  /** Asked by someone else, or elsewhere, than only the user may. */
  predicate Reserved(p: Proposal) {
    (p.account == Main && p.principal != User) || (p.params.Transfer? && (p.principal != User || p.surface != Rpc))
  }

  /**
   * A proposal is accepted exactly when it is well made and its lifetime, if given, is at most a day. The
   * refusal is `forbidden` exactly when the proposal is reserved, and `invalid_params` otherwise.
   */
  lemma AcceptedExactly(p: Proposal)
    ensures ValidateProposal(p).None? <==>
      WellMade(p.account, p.principal, p.surface, p.params) && (p.ttl.Some? ==> 1 <= p.ttl.value <= 86400)
    ensures ValidateProposal(p).Some? ==> ValidateProposal(p) == Some(if Reserved(p) then Forbidden else InvalidParams)
  {
    match p.params
    case Transfer(amount, _, _, _, _, _) => AmountIsPositive(amount);
    case Close(pct, _) => PctIsInRange(pct);
    case Open(tps, _, _) => PctsAreInRange(Listed(tps));
    case _ =>
  }

  /** The percentages of a request, all of which the contract places in (0, 100]. */
  function Percents(params: Params): seq<Amount> {
    match params
    case Close(pct, _) => [pct]
    case Open(tps, _, _) => Listed(tps)
    case Protect(_, tps, _) => Listed(tps)
    case _ => []
  }

  /** An accepted proposal has its percentages in range exactly when it is no protection with one out of range. */
  lemma PercentsInRangeExactly(p: Proposal)
    requires ValidateProposal(p).None?
    ensures AllInPercent(Percents(p.params)) <==> !(p.params.Protect? && !AllInPercent(Listed(p.params.takeProfits)))
  {
    AcceptedExactly(p);
  }

  /** A protection by an agent that takes profit on 500 per cent is accepted. */
  lemma ProtectIsUnchecked(p: Proposal)
    requires p == Proposal(Sub, Model, Rpc, None, Protect(false, Some([Amount(500, 0)]), ""), None)
    ensures ValidateProposal(p).None? && !AllInPercent(Percents(p.params))
  {
    assert Percents(p.params)[0] == Amount(500, 0);
    QuotientOrder(500.0, 1.0, 100.0);
    assert Value(Amount(500, 0)) == 500.0 / 1.0;
  }

  /** The loop over the take-profits: each in (0, 100], running total checked at the end. */
  method CheckTakeProfits(tps: seq<Amount>) returns (ok: bool)
    ensures ok == TakeProfitsOk(tps)
  {
    var total := 0.0;
    for k := 0 to |tps|
      invariant forall j | 0 <= j < k :: IsPct(tps[j])
      invariant total == Total(tps[..k])
    {
      if !IsPct(tps[k]) {
        return false;
      }
      assert tps[..k + 1][..k] == tps[..k];
      total := total + Value(tps[k]);
    }
    assert tps[..|tps|] == tps;
    ok := total <= 100.0 + 0.000000001;
  }

  method CheckProposal(p: Proposal) returns (bad: Option<ErrorKind>)
    ensures bad == ValidateProposal(p)
  {
    if p.account == Main && p.principal != User {
      return Some(Forbidden);
    }
    if p.params.Open? {
      var ok := CheckTakeProfits(Listed(p.params.takeProfits));
      if !ok || p.params.leverage == Some(0) {
        return Some(InvalidParams);
      }
    } else if ValidateParams(p).Some? {
      return ValidateParams(p);
    }
    bad := if p.ttl.Some? && !(1 <= p.ttl.value <= 86400) then Some(InvalidParams) else None;
  }
}
