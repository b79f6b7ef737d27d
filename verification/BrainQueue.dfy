/** The queue that runs one brain call at a time. */
module BrainQueue {
  import opened Wrappers

  datatype Job = Job(key: string, kind: string, symbol: Option<string>)

  /** What the interface is shown. */
  datatype View = View(waiting: nat, running: Option<Job>, step: Option<string>, episodeId: Option<string>)

  datatype State = State(pending: seq<Job>, running: Option<Job>, step: Option<string>, episodeId: Option<string>, shown: seq<View>)

  function Show(s: State): State {
    s.(shown := s.shown + [View(|s.pending|, s.running, s.step, s.episodeId)])
  }

  predicate Busy(s: State, key: string) {
    (s.running.Some? && s.running.value.key == key) || exists i | 0 <= i < |s.pending| :: s.pending[i].key == key
  }

  function Drain(s: State): State {
    if s.running.Some? || s.pending == [] then s
    else Show(s.(running := Some(s.pending[0]), pending := s.pending[1..], step := None, episodeId := None))
  }

  function Enqueue(s: State, job: Job, priority: bool): State {
    if Busy(s, job.key) then s
    else Drain(Show(s.(pending := if priority then [job] + s.pending else s.pending + [job])))
  }

  /** The running job's promise settles, whether it resolved or threw. */
  function Settle(s: State): State {
    if s.running.None? then s else Drain(Show(s.(running := None, step := None, episodeId := None)))
  }

  /** What JavaScript takes for true. */
  predicate Named(episode: Option<string>) {
    episode.Some? && episode.value != ""
  }

  class Queue {
    var pending: seq<Job>
    var running: Option<Job>
    var step: Option<string>
    var episodeId: Option<string>
    var shown: seq<View>

    ghost function Contents(): State
      reads this
    {
      State(pending, running, step, episodeId, shown)
    }

    constructor ()
      ensures Contents() == State([], None, None, None, [])
    {
      pending, running, step, episodeId, shown := [], None, None, None, [];
    }

    method OnChange()
      modifies this`shown
      ensures Contents() == Show(old(Contents()))
    {
      shown := shown + [View(|pending|, running, step, episodeId)];
    }

    /** Called by the running job; a missing or empty episode keeps the one already shown. */
    method Progress(at: Option<string>, episode: Option<string>)
      modifies this
      ensures Contents()
        == Show(old(Contents()).(step := at, episodeId := if Named(episode) then episode else old(episodeId)))
    {
      step := at;
      if Named(episode) {
        episodeId := episode;
      }
      OnChange();
    }

    method Add(job: Job, priority: bool) returns (accepted: bool)
      modifies this
      ensures accepted <==> !Busy(old(Contents()), job.key)
      ensures Contents() == Enqueue(old(Contents()), job, priority)
    {
      if (running.Some? && running.value.key == job.key) || exists i | 0 <= i < |pending| :: pending[i].key == job.key {
        return false;
      }
      if priority {
        pending := [job] + pending;
      } else {
        pending := pending + [job];
      }
      OnChange();
      StartNext();
      return true;
    }

    /** `drain` up to the call of the job. */
    method StartNext()
      modifies this
      ensures Contents() == Drain(old(Contents()))
    {
      if running.Some? || pending == [] {
        return;
      }
      running := Some(pending[0]);
      pending := pending[1..];
      step, episodeId := None, None;
      OnChange();
    }

    /** `drain` after the job, and the next `drain` it calls. */
    method Finished()
      requires running.Some?
      modifies this
      ensures Contents() == Settle(old(Contents()))
    {
      running, step, episodeId := None, None, None;
      OnChange();
      StartNext();
    }
  }

  // ------------------------------------------------------------------ runs, with every accepted job numbered

  datatype Entry = Entry(job: Job, priority: bool, number: nat)

  datatype Trace = Trace(pending: seq<Entry>, running: Option<Entry>, accepted: seq<Entry>, started: seq<Entry>, settled: nat)

  datatype Op = Arrive(job: Job, priority: bool) | Done

  const START := Trace([], None, [], [], 0)

  predicate Holds(t: Trace, key: string) {
    (t.running.Some? && t.running.value.job.key == key) || exists i | 0 <= i < |t.pending| :: t.pending[i].job.key == key
  }

  function Begin(t: Trace): Trace {
    if t.running.Some? || t.pending == [] then t
    else t.(running := Some(t.pending[0]), pending := t.pending[1..], started := t.started + [t.pending[0]])
  }

  predicate Accepts(t: Trace, op: Op) {
    op.Arrive? && !Holds(t, op.job.key)
  }

  /** Accepting a job, before anything starts. */
  function Joined(t: Trace, job: Job, priority: bool): Trace {
    var e := Entry(job, priority, |t.accepted|);
    t.(pending := if priority then [e] + t.pending else t.pending + [e], accepted := t.accepted + [e])
  }

  function Step(t: Trace, op: Op): Trace {
    match op
    case Arrive(job, priority) =>
      if Holds(t, job.key) then t else Begin(Joined(t, job, priority))
    case Done => if t.running.None? then t else Begin(t.(running := None, settled := t.settled + 1))
  }

  function After(t: Trace, ops: seq<Op>): Trace {
    if ops == [] then t else Step(After(t, ops[..|ops| - 1]), ops[|ops| - 1])
  }

  // ------------------------------------------------------------------ the trace is what the queue does

  ghost predicate Traces(t: Trace, s: State) {
    && |t.pending| == |s.pending|
    && (forall i | 0 <= i < |t.pending| :: t.pending[i].job == s.pending[i])
    && s.running == (if t.running.Some? then Some(t.running.value.job) else None)
  }

  lemma StepTraces(t: Trace, s: State, op: Op)
    requires Traces(t, s)
    ensures Traces(Step(t, op), if op.Arrive? then Enqueue(s, op.job, op.priority) else Settle(s))
    ensures op.Arrive? ==> (Holds(t, op.job.key) <==> Busy(s, op.job.key))
  {
    if op.Arrive? {
      assert Holds(t, op.job.key) <==> Busy(s, op.job.key) by {
        assert forall i | 0 <= i < |t.pending| :: t.pending[i].job.key == s.pending[i].key;
      }
    }
  }

  // ------------------------------------------------------------------ what every run keeps

  function Normal(es: seq<Entry>): seq<Entry> {
    if es == [] then []
    else
      var before := Normal(es[..|es| - 1]);
      if es[|es| - 1].priority then before else before + [es[|es| - 1]]
  }

  lemma {:induction false} NormalConcat(a: seq<Entry>, b: seq<Entry>)
    ensures Normal(a + b) == Normal(a) + Normal(b)
  {
    if b == [] {
      assert a + b == a;
    } else {
      assert (a + b)[..|a + b| - 1] == a + b[..|b| - 1];
      NormalConcat(a, b[..|b| - 1]);
    }
  }

  lemma NormalOne(e: Entry)
    ensures Normal([e]) == if e.priority then [] else [e]
  {
    assert [e][..0] == [];
  }

  /** Keys are distinct over the pending jobs and the running one. */
  ghost predicate DistinctKeys(t: Trace) {
    && (forall i, j | 0 <= i < j < |t.pending| :: t.pending[i].job.key != t.pending[j].job.key)
    && (t.running.Some? ==> forall i | 0 <= i < |t.pending| :: t.pending[i].job.key != t.running.value.job.key)
  }

  ghost predicate Numbered(t: Trace) {
    forall i | 0 <= i < |t.accepted| :: t.accepted[i].number == i
  }

  /** Every accepted job has started or waits, none twice. */
  ghost predicate Conserved(t: Trace) {
    multiset(t.started) + multiset(t.pending) == multiset(t.accepted)
  }

  /** The normal jobs started, then those waiting, are those accepted, in order. */
  ghost predicate InOrder(t: Trace) {
    Normal(t.started) + Normal(t.pending) == Normal(t.accepted)
  }

  /** All that started have settled but the running one, which started last. */
  ghost predicate OneRuns(t: Trace) {
    && |t.started| == t.settled + (if t.running.Some? then 1 else 0)
    && (t.running.Some? ==> t.started != [] && t.started[|t.started| - 1] == t.running.value)
  }

  /** The invariant but for a job to start. */
  ghost predicate InvButIdle(t: Trace) {
    DistinctKeys(t) && Numbered(t) && Conserved(t) && InOrder(t) && OneRuns(t)
  }

  ghost predicate Inv(t: Trace) {
    InvButIdle(t) && (t.pending != [] ==> t.running.Some?)
  }

  lemma BeginConserves(t: Trace)
    requires Conserved(t)
    ensures Conserved(Begin(t))
  {
    if t.running.None? && t.pending != [] {
      assert t.pending == [t.pending[0]] + t.pending[1..];
    }
  }

  lemma BeginKeepsOrder(t: Trace)
    requires InOrder(t)
    ensures InOrder(Begin(t))
  {
    if t.running.None? && t.pending != [] {
      var e, rest := t.pending[0], t.pending[1..];
      assert t.pending == [e] + rest;
      NormalConcat([e], rest);
      NormalConcat(t.started, [e]);
      assert Normal(t.started) + Normal([e]) + Normal(rest) == Normal(t.started) + (Normal([e]) + Normal(rest));
    }
  }

  lemma BeginRestores(t: Trace)
    requires InvButIdle(t)
    ensures Inv(Begin(t))
  {
    BeginConserves(t);
    BeginKeepsOrder(t);
    BeginKeepsKeys(t);
  }

  lemma BeginKeepsKeys(t: Trace)
    requires DistinctKeys(t)
    ensures DistinctKeys(Begin(t))
  {
  }

  /** Whichever end the job joins, the normal jobs gain it last or not at all. */
  lemma JoinedKeepsOrder(t: Trace, job: Job, priority: bool)
    requires InOrder(t)
    ensures InOrder(Joined(t, job, priority))
  {
    var e := Entry(job, priority, |t.accepted|);
    NormalOne(e);
    NormalConcat(t.accepted, [e]);
    if priority {
      NormalConcat([e], t.pending);
      assert [] + Normal(t.pending) == Normal(t.pending) && Normal(t.accepted) + [] == Normal(t.accepted);
    } else {
      NormalConcat(t.pending, [e]);
      assert Normal(t.started) + (Normal(t.pending) + [e]) == Normal(t.started) + Normal(t.pending) + [e];
    }
  }

  lemma JoinedKeepsKeys(t: Trace, job: Job, priority: bool)
    requires DistinctKeys(t) && !Holds(t, job.key)
    ensures DistinctKeys(Joined(t, job, priority))
  {
  }

  lemma ArriveKeeps(t: Trace, job: Job, priority: bool)
    requires InvButIdle(t) && !Holds(t, job.key)
    ensures InvButIdle(Joined(t, job, priority))
  {
    JoinedKeepsOrder(t, job, priority);
    JoinedKeepsKeys(t, job, priority);
    JoinedConserves(t, job, priority);
    JoinedNumbers(t, job, priority);
  }

  lemma JoinedConserves(t: Trace, job: Job, priority: bool)
    requires Conserved(t)
    ensures Conserved(Joined(t, job, priority))
  {
  }

  lemma JoinedNumbers(t: Trace, job: Job, priority: bool)
    requires Numbered(t) && OneRuns(t)
    ensures Numbered(Joined(t, job, priority)) && OneRuns(Joined(t, job, priority))
  {
  }

  /** Every run keeps the invariant. */
  lemma {:induction false} RunsKeepInv(ops: seq<Op>)
    ensures Inv(After(START, ops))
  {
    if ops != [] {
      var t, op := After(START, ops[..|ops| - 1]), ops[|ops| - 1];
      RunsKeepInv(ops[..|ops| - 1]);
      StepKeepsInv(t, op);
    }
  }

  lemma StepKeepsInv(t: Trace, op: Op)
    requires Inv(t)
    ensures Inv(Step(t, op))
  {
    match op
    case Arrive(job, priority) =>
      if !Holds(t, job.key) {
        ArriveKeeps(t, job, priority);
        BeginRestores(Joined(t, job, priority));
      }
    case Done =>
      if t.running.Some? {
        BeginRestores(t.(running := None, settled := t.settled + 1));
      }
  }

  lemma {:induction false} OnceInNumbered(es: seq<Entry>, e: Entry)
    requires forall i | 0 <= i < |es| :: es[i].number == i
    ensures multiset(es)[e] <= 1
  {
    if es != [] {
      var init, last := es[..|es| - 1], es[|es| - 1];
      OnceInNumbered(init, e);
      assert es == init + [last];
      if e == last {
        assert e !in init;
      }
    }
  }

  /** In every run an accepted job starts at most once, and not while it waits. */
  lemma StartsAtMostOnce(ops: seq<Op>, e: Entry)
    ensures
      (var t := After(START, ops);
        multiset(t.started)[e] + multiset(t.pending)[e] <= 1)
  {
    RunsKeepInv(ops);
    var t := After(START, ops);
    OnceInNumbered(t.accepted, e);
    assert (multiset(t.started) + multiset(t.pending))[e] == multiset(t.accepted)[e];
  }

  /** Normal jobs start in the order in which they were accepted, none left out. */
  lemma NormalJobsStartInOrder(ops: seq<Op>)
    ensures
      (var t := After(START, ops);
        Normal(t.started) <= Normal(t.accepted))
  {
    RunsKeepInv(ops);
  }

  // ------------------------------------------------------------------ how long a job waits

  /** Priority jobs accepted and jobs settled along the way. */
  function Overtaking(t: Trace, ops: seq<Op>): nat {
    if ops == [] then 0
    else
      var before, op := After(t, ops[..|ops| - 1]), ops[|ops| - 1];
      Overtaking(t, ops[..|ops| - 1]) + (if Accepts(before, op) && op.priority then 1 else 0)
  }

  function Settling(ops: seq<Op>): nat {
    if ops == [] then 0 else Settling(ops[..|ops| - 1]) + (if ops[|ops| - 1].Done? then 1 else 0)
  }

  /** The place in the line that the job at `p` has come to; negative once it has started. */
  function Place(t: Trace, p: int, ops: seq<Op>): int {
    p + Overtaking(t, ops) - Settling(ops)
  }

  lemma {:induction false} AfterKeepsInv(t: Trace, ops: seq<Op>)
    requires Inv(t)
    ensures Inv(After(t, ops))
  {
    if ops != [] {
      AfterKeepsInv(t, ops[..|ops| - 1]);
      StepKeepsInv(After(t, ops[..|ops| - 1]), ops[|ops| - 1]);
    }
  }

  lemma WaitStep(t: Trace, p: nat, op: Op)
    requires Inv(t) && p < |t.pending|
    ensures
      (var after := Step(t, op);
        var q := p + (if Accepts(t, op) && op.priority then 1 else 0) - (if op.Done? then 1 else 0);
        if q >= 0 then q < |after.pending| && after.pending[q] == t.pending[p]
        else after.running == Some(t.pending[p]))
  {
  }

  /** Along the way the place never falls below zero. */
  ghost predicate StillWaits(t: Trace, p: nat, ops: seq<Op>) {
    forall n | 0 <= n <= |ops| :: Place(t, p, ops[..n]) >= 0
  }

  lemma StillWaitsBefore(t: Trace, p: nat, ops: seq<Op>)
    requires StillWaits(t, p, ops)
    ensures Place(t, p, ops) >= 0
    ensures ops != [] ==> StillWaits(t, p, ops[..|ops| - 1])
  {
    assert ops[..|ops|] == ops;
    if ops != [] {
      var init := ops[..|ops| - 1];
      forall n | 0 <= n <= |init| ensures Place(t, p, init[..n]) >= 0 {
        assert init[..n] == ops[..n];
      }
    }
  }

  ghost predicate AtPlace(t: Trace, p: nat, ops: seq<Op>)
    requires p < |t.pending|
  {
    var q, after := Place(t, p, ops), After(t, ops);
    0 <= q < |after.pending| && after.pending[q] == t.pending[p]
  }

  /**
   * A waiting job's place is the number of jobs ahead of it plus the priority jobs accepted since, less
   * the jobs settled since. While that never falls below zero the job still waits at that place.
   */
  lemma {:induction false} WaitsInPlace(t: Trace, p: nat, ops: seq<Op>)
    requires Inv(t) && p < |t.pending| && StillWaits(t, p, ops)
    ensures AtPlace(t, p, ops)
  {
    StillWaitsBefore(t, p, ops);
    if ops != [] {
      var init := ops[..|ops| - 1];
      WaitsInPlace(t, p, init);
      AfterKeepsInv(t, init);
      StaysAtPlace(t, p, ops, init, ops[|ops| - 1]);
    }
  }

  /** What one more step does to the place. */
  lemma PlaceStep(t: Trace, p: nat, ops: seq<Op>, init: seq<Op>, op: Op)
    requires ops != [] && init == ops[..|ops| - 1] && op == ops[|ops| - 1]
    ensures After(t, ops) == Step(After(t, init), op)
    ensures Place(t, p, ops)
         == Place(t, p, init) + (if Accepts(After(t, init), op) && op.priority then 1 else 0) - (if op.Done? then 1 else 0)
  {
  }

  lemma StaysInLine(before: Trace, q: nat, op: Op, e: Entry, next: int)
    requires Inv(before) && q < |before.pending| && before.pending[q] == e
    requires next == q + (if Accepts(before, op) && op.priority then 1 else 0) - (if op.Done? then 1 else 0)
    requires next >= 0
    ensures next < |Step(before, op).pending| && Step(before, op).pending[next] == e
  {
    WaitStep(before, q, op);
  }

  lemma StaysAtPlace(t: Trace, p: nat, ops: seq<Op>, init: seq<Op>, op: Op)
    requires ops != [] && init == ops[..|ops| - 1] && op == ops[|ops| - 1]
    requires p < |t.pending| && Inv(After(t, init)) && AtPlace(t, p, init) && Place(t, p, ops) >= 0
    ensures AtPlace(t, p, ops)
  {
    PlaceStep(t, p, ops, init, op);
    StaysInLine(After(t, init), Place(t, p, init), op, t.pending[p], Place(t, p, ops));
  }

  /** The job starts at the settling that takes its place below zero, and not before. */
  lemma StartsWhenReached(t: Trace, p: nat, ops: seq<Op>)
    requires Inv(t) && p < |t.pending| && StillWaits(t, p, ops)
    ensures Place(t, p, ops) == 0 <==> After(t, ops + [Done]).running == Some(t.pending[p])
  {
    WaitsInPlace(t, p, ops);
    AfterKeepsInv(t, ops);
    var before, all := After(t, ops), ops + [Done];
    assert all[..|all| - 1] == ops;
    assert After(t, all) == Step(before, Done);
    assert Place(t, p, ops) > 0 ==> before.pending[0].job.key != t.pending[p].job.key;
  }

  lemma WaitingHasNotStarted(t: Trace, i: nat)
    requires Inv(t) && i < |t.pending|
    ensures t.pending[i] !in t.started
  {
    var e := t.pending[i];
    OnceInNumbered(t.accepted, e);
    assert (multiset(t.started) + multiset(t.pending))[e] == multiset(t.accepted)[e];
    assert multiset(t.pending)[e] >= 1;
  }

  lemma StartedStays(t: Trace, e: Entry, op: Op)
    requires e in t.started
    ensures e in Step(t, op).started
  {
  }

  lemma RunningHasStarted(t: Trace, e: Entry)
    requires OneRuns(t) && t.running == Some(e)
    ensures e in t.started
  {
    assert t.started[|t.started| - 1] == e;
  }

  lemma StillWaitsAfter(t: Trace, p: nat, ops: seq<Op>)
    requires ops == [] || (StillWaits(t, p, ops[..|ops| - 1]) && Place(t, p, ops) >= 0)
    ensures StillWaits(t, p, ops)
  {
    forall n | 0 <= n <= |ops| ensures Place(t, p, ops[..n]) >= 0 {
      if n < |ops| {
        assert ops[..|ops| - 1][..n] == ops[..n];
      } else {
        assert ops[..n] == ops;
      }
    }
  }

  lemma {:induction false} ReachedHasStarted(t: Trace, p: nat, ops: seq<Op>)
    requires Inv(t) && p < |t.pending|
    ensures !StillWaits(t, p, ops) ==> t.pending[p] in After(t, ops).started
  {
    if ops == [] || (StillWaits(t, p, ops[..|ops| - 1]) && Place(t, p, ops) >= 0) {
      StillWaitsAfter(t, p, ops);
    } else {
      var init, op := ops[..|ops| - 1], ops[|ops| - 1];
      if StillWaits(t, p, init) {
        WaitsInPlace(t, p, init);
        AfterKeepsInv(t, init);
        AfterKeepsInv(t, ops);
        WaitStep(After(t, init), Place(t, p, init), op);
        RunningHasStarted(After(t, ops), t.pending[p]);
      } else {
        ReachedHasStarted(t, p, init);
        StartedStays(After(t, init), t.pending[p], op);
      }
    }
  }

  /** A waiting job has started if and only if its place ever fell below zero. */
  lemma StartsIffReached(t: Trace, p: nat, ops: seq<Op>)
    requires Inv(t) && p < |t.pending|
    ensures t.pending[p] in After(t, ops).started <==> !StillWaits(t, p, ops)
  {
    if StillWaits(t, p, ops) {
      WaitsInPlace(t, p, ops);
      AfterKeepsInv(t, ops);
      WaitingHasNotStarted(After(t, ops), Place(t, p, ops));
    } else {
      ReachedHasStarted(t, p, ops);
    }
  }

  /**
   * No job starves: it has started once more jobs have settled than were ahead of it and were let past.
   * With no priority arrivals that is once more than `p` jobs have settled.
   */
  lemma NoneStarves(t: Trace, p: nat, ops: seq<Op>)
    requires Inv(t) && p < |t.pending|
    ensures Settling(ops) > p + Overtaking(t, ops) ==> t.pending[p] in After(t, ops).started
    ensures Settling(ops) > p && NoPriority(ops) ==> t.pending[p] in After(t, ops).started
  {
    assert ops[..|ops|] == ops;
    if NoPriority(ops) {
      NoOvertaking(t, ops);
    }
    if Settling(ops) > p + Overtaking(t, ops) {
      assert Place(t, p, ops[..|ops|]) < 0;
      ReachedHasStarted(t, p, ops);
    }
  }

  predicate NoPriority(ops: seq<Op>) {
    forall i | 0 <= i < |ops| && ops[i].Arrive? :: !ops[i].priority
  }

  lemma {:induction false} NoOvertaking(t: Trace, ops: seq<Op>)
    requires NoPriority(ops)
    ensures Overtaking(t, ops) == 0
  {
    if ops != [] {
      NoOvertaking(t, ops[..|ops| - 1]);
    }
  }

  // ------------------------------------------------------------------ what is shown

  datatype Change = Enqueued(job: Job, priority: bool) | Settled | Reported(step: Option<string>, episode: Option<string>)

  function Changed(s: State, c: Change): State {
    match c
    case Enqueued(job, priority) => Enqueue(s, job, priority)
    case Settled => Settle(s)
    case Reported(step, episode) =>
      Show(s.(step := step, episodeId := if Named(episode) then episode else s.episodeId))
  }

  function AllChanged(cs: seq<Change>): State {
    if cs == [] then State([], None, None, None, []) else Changed(AllChanged(cs[..|cs| - 1]), cs[|cs| - 1])
  }

  /** The last view shown says how things are; before any there is nothing to say. */
  predicate ShownNow(s: State) {
    if s.shown == [] then s.pending == [] && s.running == None && s.step == None && s.episodeId == None
    else s.shown[|s.shown| - 1] == View(|s.pending|, s.running, s.step, s.episodeId)
  }

  /** A view of another job than the one before, or of none, shows nothing of that job's progress. */
  predicate StartsClean(views: seq<View>) {
    && (views != [] ==> views[0].running != None ==> views[0].step == None && views[0].episodeId == None)
    && forall i | 0 < i < |views| && views[i].running != views[i - 1].running ::
         views[i].step == None && views[i].episodeId == None
  }

  lemma ShownOnceMore(s: State, u: State)
    requires ShownNow(s) && StartsClean(s.shown) && u.shown == s.shown
    requires u.running == s.running || (u.step == None && u.episodeId == None)
    ensures ShownNow(Show(u)) && StartsClean(Show(u).shown)
  {
    var views := Show(u).shown;
    assert forall i | 0 <= i < |s.shown| :: views[i] == s.shown[i];
  }

  lemma DrainIsShown(s: State)
    requires ShownNow(s) && StartsClean(s.shown)
    ensures ShownNow(Drain(s)) && StartsClean(Drain(s).shown)
  {
    if s.running.None? && s.pending != [] {
      ShownOnceMore(s, s.(running := Some(s.pending[0]), pending := s.pending[1..], step := None, episodeId := None));
    }
  }

  /**
   * Whatever is enqueued, settles and reports progress, the last view that was shown is how things are, and
   * no view of a job shows the step or the episode of the one before it.
   */
  lemma {:induction false} ViewsTellTheState(cs: seq<Change>)
    ensures ShownNow(AllChanged(cs)) && StartsClean(AllChanged(cs).shown)
  {
    if cs != [] {
      var s, c := AllChanged(cs[..|cs| - 1]), cs[|cs| - 1];
      ViewsTellTheState(cs[..|cs| - 1]);
      match c
      case Enqueued(job, priority) =>
        if !Busy(s, job.key) {
          var joined := s.(pending := if priority then [job] + s.pending else s.pending + [job]);
          ShownOnceMore(s, joined);
          DrainIsShown(Show(joined));
        }
      case Settled =>
        if s.running.Some? {
          var idle := s.(running := None, step := None, episodeId := None);
          ShownOnceMore(s, idle);
          DrainIsShown(Show(idle));
        }
      case Reported(step, episode) =>
        ShownOnceMore(s, s.(step := step, episodeId := if Named(episode) then episode else s.episodeId));
    }
  }
}
