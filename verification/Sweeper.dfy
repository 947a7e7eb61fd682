/** Every ProjectionRun of one Projection with where it came from, over whole histories: recorded Runs, the dispatch
    after each, sweeps, claims, finishes, reaps, superseding and retries.
    (django_connectors/services/projections.py, django_connectors/projections/runner.py execute and dispatch_pending) */
module Sweeper {
  import opened Convergence

  type RunId = nat

  /** One write to the tables. `Sweep` computes what is outstanding and inserts it; `Finish` is a worker's last write,
      which does not look at what the row says by then. */
  datatype Event =
    | Record(run: IngestionRun)
    | Dispatch(r: nat, version: nat, now: int)
    | Sweep(horizon: int, version: nat, now: int)
    | Replay(version: nat, now: int)
    | Claim(i: RunId)
    | Finish(i: RunId, ok: bool)
    | Reap(i: RunId)
    | Supersede(i: RunId)
    | Retry(i: RunId, version: nat, now: int)

  /** `dispatched` are the recorded Runs whose inline dispatch has happened, `swept` those that a sweep's horizon has
      included since they were recorded; `taken` are the ended ProjectionRuns since retried, or with a load that a later
      sweep's horizon included; `entered` are those whose body a worker is in. */
  datatype State = State(recorded: seq<IngestionRun>, runs: seq<ProjectionRun>, dispatched: set<nat>, swept: set<nat>,
                         taken: set<RunId>, entered: set<RunId>)

  predicate Shares(a: seq<LoadId>, b: seq<LoadId>) { exists l :: l in a && l in b }

  function WithinHorizon(recorded: seq<IngestionRun>, horizon: int): set<nat> {
    set r | 0 <= r < |recorded| && recorded[r].createdAt >= horizon
  }

  /** The ended runs with a load of some Run within the horizon. */
  function EndedWithin(s: State, horizon: int): set<RunId> {
    set i | 0 <= i < |s.runs| && !Active(s.runs[i]) && Shares(s.runs[i].loads, HorizonLoads(s.recorded, horizon))
  }

  predicate Enabled(s: State, e: Event) {
    match e
    case Record(run) => forall r :: 0 <= r < |s.recorded| ==> !Shares(run.loads, s.recorded[r].loads)
    case Dispatch(r, _, _) => r < |s.recorded| && r !in s.dispatched
    case Sweep(_, _, _) => true
    case Replay(_, _) => true
    case Claim(i) => i < |s.runs| && s.runs[i].status.Queued?
    case Finish(i, _) => i < |s.runs| && i in s.entered
    case Reap(i) => i < |s.runs| && s.runs[i].status.Running?
    case Supersede(i) => i < |s.runs|
    case Retry(i, _, _) => i < |s.runs| && s.runs[i].status.Failed?
  }

  /** What an event writes to the table of runs. */
  function RunsAfter(runs: seq<ProjectionRun>, recorded: seq<IngestionRun>, e: Event): seq<ProjectionRun> {
    match e
    case Record(_) => runs
    case Dispatch(r, version, now) =>
      if r >= |recorded| || recorded[r].loads == [] then runs
      else runs + [ProjectionRun(Queued, false, version, recorded[r].loads, now)]
    case Sweep(horizon, version, now) => Swept(runs, recorded, horizon, version, now)
    case Replay(version, now) => runs + [ProjectionRun(Queued, true, version, [], now)]
    case Claim(i) => Written(runs, i, Running)
    case Finish(i, ok) => Written(runs, i, if ok then Succeeded else Failed)
    case Reap(i) => Written(runs, i, Failed)
    case Supersede(i) => Written(runs, i, Superseded)
    case Retry(i, version, now) =>
      if i >= |runs| then runs else runs + [ProjectionRun(Queued, runs[i].full, version, runs[i].loads, now)]
  }

  /** What one call of the executor writes to the row of run `i`: nothing, when another worker has it; that it is
      superseded; or a claim and a finish. */
  ghost predicate Executed(before: seq<ProjectionRun>, recorded: seq<IngestionRun>, i: RunId, after: seq<ProjectionRun>)
  {
    || after == before
    || after == RunsAfter(before, recorded, Supersede(i))
    || exists ok :: after == RunsAfter(RunsAfter(before, recorded, Claim(i)), recorded, Finish(i, ok))
  }

  lemma ExecutedEnds(runs: seq<ProjectionRun>, recorded: seq<IngestionRun>, i: RunId, ok: bool)
    requires i < |runs|
    ensures Executed(runs, recorded, i, runs) && Executed(runs, recorded, i, WithStatus(runs, i, Superseded))
    ensures Executed(runs, recorded, i, WithStatus(runs, i, if ok then Succeeded else Failed))
  {
    var claimed := RunsAfter(runs, recorded, Claim(i));
    assert WithStatus(runs, i, if ok then Succeeded else Failed) == RunsAfter(claimed, recorded, Finish(i, ok));
  }

  function Written(runs: seq<ProjectionRun>, i: RunId, status: Status): seq<ProjectionRun> {
    if i < |runs| then WithStatus(runs, i, status) else runs
  }

  function After(s: State, e: Event): State {
    var s := s.(runs := RunsAfter(s.runs, s.recorded, e), taken := s.taken + TakenBy(s, e));
    match e
    case Record(run) => s.(recorded := s.recorded + [run])
    case Dispatch(r, _, _) => s.(dispatched := s.dispatched + {r})
    case Sweep(horizon, _, _) => s.(swept := s.swept + WithinHorizon(s.recorded, horizon))
    case Claim(i) => s.(entered := s.entered + {i})
    case Finish(i, _) => s.(entered := s.entered - {i})
    case _ => s
  }

  /** The ended runs whose loads this event takes over: a sweep those its horizon includes, a retry the one it
      retries. */
  function TakenBy(s: State, e: Event): set<RunId> {
    match e
    case Sweep(horizon, _, _) => EndedWithin(s, horizon)
    case Retry(i, _, _) => {i}
    case _ => {}
  }

  /** The operational conditions: no sweep includes a Run between its record and its dispatch, no run is retried after
      its loads were taken over, and no worker finishes a run that was reaped or superseded under it. */
  predicate Proper(s: State, e: Event) {
    match e
    case Dispatch(r, _, _) => r !in s.swept
    case Retry(i, _, _) => i !in s.taken
    case Finish(i, _) => i < |s.runs| && s.runs[i].status.Running?
    case _ => true
  }

  function Start(): State { State([], [], {}, {}, {}, {}) }

  ghost predicate Trace(states: seq<State>, events: seq<Event>) {
    && |states| == |events| + 1
    && states[0] == Start()
    && forall n :: 0 <= n < |events| ==> Enabled(states[n], events[n]) && states[n + 1] == After(states[n], events[n])
  }

  ghost predicate ProperUpTo(states: seq<State>, events: seq<Event>, n: nat)
    requires n <= |events| && |states| == |events| + 1
  {
    forall k :: 0 <= k < n ==> Proper(states[k], events[k])
  }

  // ---------------------------------------------------------------- the invariant

  /** Loads are recorded once. */
  predicate RecordedOnce(s: State) {
    forall a, b :: 0 <= a < b < |s.recorded| ==> !Shares(s.recorded[a].loads, s.recorded[b].loads)
  }

  /** The load is one of a Run that was dispatched, or that a sweep included. */
  predicate ComesFrom(s: State, l: LoadId) {
    exists r :: 0 <= r < |s.recorded| && l in s.recorded[r].loads && (r in s.dispatched || r in s.swept)
  }

  predicate FromRecorded(s: State) {
    forall i, l :: 0 <= i < |s.runs| && l in s.runs[i].loads ==> ComesFrom(s, l)
  }

  /** Of two runs with a load in common the earlier one was taken over. */
  predicate EarlierTaken(s: State) {
    forall a, b :: 0 <= a < b < |s.runs| && Shares(s.runs[a].loads, s.runs[b].loads) ==> a in s.taken
  }

  /** A run that was taken over has ended. */
  predicate TakenEnded(s: State) {
    forall i :: i in s.taken ==> i < |s.runs| && !Active(s.runs[i])
  }

  /** Every load of a Run that a sweep included is in some run. */
  predicate SweptCarried(s: State) {
    && (forall r :: r in s.swept ==> r < |s.recorded|)
    && (forall r, l :: r in s.swept && l in s.recorded[r].loads ==>
          exists i :: 0 <= i < |s.runs| && l in s.runs[i].loads)
  }

  /** A run that was taken over shares a load with what took it. */
  predicate TakenShared(s: State) {
    forall i :: i in s.taken && i < |s.runs| && s.runs[i].loads != [] ==>
      exists j :: 0 <= j < |s.runs| && j != i && Shares(s.runs[i].loads, s.runs[j].loads)
  }

  ghost predicate Inv(s: State) {
    && RecordedOnce(s) && FromRecorded(s) && EarlierTaken(s) && TakenEnded(s) && SweptCarried(s) && TakenShared(s)
    && (forall r :: r in s.dispatched ==> r < |s.recorded|)
  }

  lemma InvIsDisjoint(s: State)
    requires EarlierTaken(s) && TakenEnded(s)
    ensures Disjoint(s.runs)
  {
    forall i, j, l | 0 <= i < j < |s.runs| && Active(s.runs[i]) && Active(s.runs[j]) && l in s.runs[i].loads
      ensures l !in s.runs[j].loads
    {
      SharesBy(s.runs[i].loads, s.runs[j].loads, l);
    }
  }

  lemma SharesBy(a: seq<LoadId>, b: seq<LoadId>, l: LoadId)
    ensures l in a && l in b ==> Shares(a, b)
  {
  }

  lemma SharesBack(a: seq<LoadId>, b: seq<LoadId>)
    ensures Shares(a, b) <==> Shares(b, a)
  {
  }

  // ---------------------------------------------------------------- every event keeps it

  lemma HorizonLoadIsRecorded(recorded: seq<IngestionRun>, horizon: int, l: LoadId)
    ensures l in HorizonLoads(recorded, horizon)
       <==> exists r :: 0 <= r < |recorded| && recorded[r].createdAt >= horizon && l in recorded[r].loads
  {
    if recorded != [] {
      var n := |recorded| - 1;
      HorizonLoadIsRecorded(recorded[..n], horizon, l);
      if r :| 0 <= r < |recorded| && recorded[r].createdAt >= horizon && l in recorded[r].loads {
        if r < n { assert recorded[..n][r] == recorded[r]; }
      }
    }
  }

  /** An event leaves every earlier run's loads, and ends or adds runs as its kind says. */
  lemma RunsOnlyGrow(s: State, e: Event)
    ensures var after := After(s, e).runs;
            |s.runs| <= |after| <= |s.runs| + 1 && forall i :: 0 <= i < |s.runs| ==> after[i].loads == s.runs[i].loads
  {
  }

  lemma AddedLoads(s: State, e: Event, l: LoadId)
    requires Enabled(s, e) && |After(s, e).runs| > |s.runs| && l in After(s, e).runs[|s.runs|].loads
    ensures e.Dispatch? ==> l in s.recorded[e.r].loads
    ensures e.Sweep? ==> l in HorizonLoads(s.recorded, e.horizon) && l !in ActiveLoads(s.runs)
    ensures e.Retry? ==> l in s.runs[e.i].loads
    ensures e.Dispatch? || e.Sweep? || e.Retry?
  {
  }

  lemma StepKeepsRecordedOnce(s: State, e: Event)
    requires RecordedOnce(s) && Enabled(s, e)
    ensures RecordedOnce(After(s, e))
  {
    hide RunsAfter, TakenBy, Shares;
    if e.Record? {
      forall a | 0 <= a < |s.recorded| ensures !Shares(s.recorded[a].loads, e.run.loads) {
        SharesBack(s.recorded[a].loads, e.run.loads);
      }
    }
  }

  lemma ComesFromStill(s: State, e: Event, l: LoadId)
    requires ComesFrom(s, l)
    ensures ComesFrom(After(s, e), l)
  {
    hide RunsAfter, TakenBy;
    var r :| 0 <= r < |s.recorded| && l in s.recorded[r].loads && (r in s.dispatched || r in s.swept);
    assert After(s, e).recorded[r] == s.recorded[r];
  }

  lemma AddedComesFrom(s: State, e: Event, l: LoadId)
    requires FromRecorded(s) && Enabled(s, e)
    requires |After(s, e).runs| > |s.runs| && l in After(s, e).runs[|s.runs|].loads
    ensures ComesFrom(After(s, e), l)
  {
    AddedLoads(s, e, l);
    hide RunsAfter, TakenBy;
    if e.Sweep? {
      HorizonLoadIsRecorded(s.recorded, e.horizon, l);
    } else if e.Retry? {
      ComesFromStill(s, e, l);
    } else {
      assert e.r in After(s, e).dispatched;
    }
  }

  lemma StepKeepsRecorded(s: State, e: Event)
    requires Inv(s) && Enabled(s, e)
    ensures RecordedOnce(After(s, e)) && FromRecorded(After(s, e))
    ensures forall r :: r in After(s, e).dispatched ==> r < |After(s, e).recorded|
  {
    StepKeepsRecordedOnce(s, e);
    RunsOnlyGrow(s, e);
    hide RunsAfter, TakenBy, ComesFrom, RecordedOnce, EarlierTaken, TakenEnded, SweptCarried, TakenShared;
    var t := After(s, e);
    forall i, l | 0 <= i < |t.runs| && l in t.runs[i].loads ensures ComesFrom(t, l) {
      if i < |s.runs| {
        ComesFromStill(s, e, l);
      } else {
        AddedComesFrom(s, e, l);
      }
    }
  }

  /** Before its dispatch, and while no sweep has included it, a Run's loads are in no run. */
  lemma NotYetCarried(s: State, r: nat, i: RunId)
    requires Inv(s) && r < |s.recorded| && r !in s.dispatched && r !in s.swept && i < |s.runs|
    ensures !Shares(s.runs[i].loads, s.recorded[r].loads)
  {
    forall l | l in s.runs[i].loads ensures l !in s.recorded[r].loads {
      assert ComesFrom(s, l);
      var q :| 0 <= q < |s.recorded| && l in s.recorded[q].loads && (q in s.dispatched || q in s.swept);
      SharesBy(s.recorded[q].loads, s.recorded[r].loads, l);
      SharesBy(s.recorded[r].loads, s.recorded[q].loads, l);
    }
  }

  lemma StepKeepsEarlierTaken(s: State, e: Event)
    requires Inv(s) && Enabled(s, e) && Proper(s, e)
    ensures EarlierTaken(After(s, e))
  {
    var t := After(s, e);
    RunsOnlyGrow(s, e);
    forall a, b | 0 <= a < b < |t.runs| && Shares(t.runs[a].loads, t.runs[b].loads) ensures a in t.taken {
      if b == |s.runs| {
        var l :| l in t.runs[a].loads && l in t.runs[b].loads;
        AddedLoads(s, e, l);
        AddedTakes(s, e, a, l);
      }
    }
  }

  lemma AddedTakes(s: State, e: Event, a: RunId, l: LoadId)
    requires Inv(s) && Enabled(s, e) && Proper(s, e) && a < |s.runs| && l in s.runs[a].loads
    requires e.Dispatch? ==> l in s.recorded[e.r].loads
    requires e.Sweep? ==> l in HorizonLoads(s.recorded, e.horizon) && l !in ActiveLoads(s.runs)
    requires e.Retry? ==> l in s.runs[e.i].loads
    requires e.Dispatch? || e.Sweep? || e.Retry?
    ensures a in After(s, e).taken
  {
    if e.Dispatch? {
      SharesBy(s.runs[a].loads, s.recorded[e.r].loads, l);
      NotYetCarried(s, e.r, a);
    } else if e.Sweep? {
      assert Shares(s.runs[a].loads, HorizonLoads(s.recorded, e.horizon));
    } else if a < e.i {
      assert Shares(s.runs[a].loads, s.runs[e.i].loads);
    } else if e.i < a {
      assert Shares(s.runs[e.i].loads, s.runs[a].loads);
    }
  }

  lemma StepKeepsTakenEnded(s: State, e: Event)
    requires Inv(s) && Enabled(s, e) && Proper(s, e)
    ensures TakenEnded(After(s, e))
  {
  }

  lemma StepKeepsSweptCarried(s: State, e: Event)
    requires Inv(s) && Enabled(s, e)
    ensures SweptCarried(After(s, e))
  {
    var t := After(s, e);
    RunsOnlyGrow(s, e);
    forall r, l | r in t.swept && r < |t.recorded| && l in t.recorded[r].loads
      ensures exists i :: 0 <= i < |t.runs| && l in t.runs[i].loads
    {
      if r in s.swept {
        var i :| 0 <= i < |s.runs| && l in s.runs[i].loads;
        assert l in t.runs[i].loads;
      } else {
        HorizonLoadIsRecorded(s.recorded, e.horizon, l);
        SweepCarries(s, e, l);
      }
    }
  }

  lemma SweepCarries(s: State, e: Event, l: LoadId)
    requires e.Sweep? && l in HorizonLoads(s.recorded, e.horizon)
    ensures exists i :: 0 <= i < |After(s, e).runs| && l in After(s, e).runs[i].loads
  {
    var t := After(s, e);
    if l in ActiveLoads(s.runs) {
      var i :| 0 <= i < |s.runs| && Active(s.runs[i]) && l in s.runs[i].loads;
      RunsOnlyGrow(s, e);
      assert l in t.runs[i].loads;
    } else {
      assert l in Outstanding(s.runs, s.recorded, e.horizon);
      assert l in t.runs[|s.runs|].loads;
    }
  }

  lemma StepKeepsTakenShared(s: State, e: Event)
    requires Inv(s) && Enabled(s, e)
    ensures TakenShared(After(s, e))
  {
    var t := After(s, e);
    RunsOnlyGrow(s, e);
    forall i | i in t.taken && i < |t.runs| && t.runs[i].loads != []
      ensures exists j :: 0 <= j < |t.runs| && j != i && Shares(t.runs[i].loads, t.runs[j].loads)
    {
      if i in s.taken {
        var j :| 0 <= j < |s.runs| && j != i && Shares(s.runs[i].loads, s.runs[j].loads);
        assert Shares(t.runs[i].loads, t.runs[j].loads);
      } else if e.Retry? {
        SharesBy(t.runs[i].loads, t.runs[|s.runs|].loads, t.runs[i].loads[0]);
      } else {
        var j := SweepTakesOver(s, e, i);
      }
    }
  }

  /** The run that carries, after a sweep, a load of an ended run the sweep's horizon included. */
  lemma SweepTakesOver(s: State, e: Event, i: RunId) returns (j: RunId)
    requires e.Sweep? && i in EndedWithin(s, e.horizon)
    ensures j < |After(s, e).runs| && j != i && Shares(After(s, e).runs[i].loads, After(s, e).runs[j].loads)
  {
    var t := After(s, e);
    RunsOnlyGrow(s, e);
    var l :| l in s.runs[i].loads && l in HorizonLoads(s.recorded, e.horizon);
    if l in ActiveLoads(s.runs) {
      j :| 0 <= j < |s.runs| && Active(s.runs[j]) && l in s.runs[j].loads;
    } else {
      assert l in Outstanding(s.runs, s.recorded, e.horizon);
      j := |s.runs|;
    }
    SharesBy(t.runs[i].loads, t.runs[j].loads, l);
  }

  lemma StepKeepsInv(s: State, e: Event)
    requires Inv(s) && Enabled(s, e) && Proper(s, e)
    ensures Inv(After(s, e))
  {
    StepKeepsRecorded(s, e);
    StepKeepsEarlierTaken(s, e);
    StepKeepsTakenEnded(s, e);
    StepKeepsSweptCarried(s, e);
    StepKeepsTakenShared(s, e);
  }

  lemma {:induction false} HistoryKeepsInv(states: seq<State>, events: seq<Event>, n: nat)
    requires Trace(states, events) && n <= |events| && ProperUpTo(states, events, n)
    ensures Inv(states[n])
  {
    if n > 0 {
      hide Inv, Enabled, Proper, After;
      HistoryKeepsInv(states, events, n - 1);
      StepKeepsInv(states[n - 1], events[n - 1]);
    } else {
      NothingYet();
    }
  }

  lemma NothingYet()
    ensures Inv(Start())
  {
  }

  // ---------------------------------------------------------------- conservation over histories

  /** The active runs that hold a load. */
  function Holders(runs: seq<ProjectionRun>, l: LoadId): set<RunId> {
    set i | 0 <= i < |runs| && Active(runs[i]) && l in runs[i].loads
  }

  /** How many times a load is held: at most once, and zero times exactly when a sweep would find it outstanding. */
  lemma LoadsAreConserved(states: seq<State>, events: seq<Event>, n: nat, horizon: int, l: LoadId)
    requires Trace(states, events) && n <= |events| && ProperUpTo(states, events, n)
    requires l in HorizonLoads(states[n].recorded, horizon)
    ensures var s := states[n];
            && |Holders(s.runs, l)| <= 1
            && (Holders(s.runs, l) == {} <==> l in Outstanding(s.runs, s.recorded, horizon))
  {
    var s := states[n];
    HistoryKeepsInv(states, events, n);
    InvIsDisjoint(s);
    hide Inv, Trace, ProperUpTo;
    var held := Holders(s.runs, l);
    AtMostOne(held);
    if i :| i in held { assert l in ActiveLoads(s.runs); }
    if l in ActiveLoads(s.runs) {
      var i :| 0 <= i < |s.runs| && Active(s.runs[i]) && l in s.runs[i].loads;
      assert i in held;
    }
  }

  lemma AtMostOne(held: set<nat>)
    requires forall i, j :: i in held && j in held ==> i == j
    ensures |held| <= 1
  {
    if i :| i in held { assert held == {i}; }
  }

  /** Over every history of such events the load sets of active runs stay pairwise disjoint. */
  lemma ActiveLoadsStayDisjoint(states: seq<State>, events: seq<Event>, n: nat)
    requires Trace(states, events) && n <= |events| && ProperUpTo(states, events, n)
    ensures Disjoint(states[n].runs)
  {
    HistoryKeepsInv(states, events, n);
    InvIsDisjoint(states[n]);
  }

  // ---------------------------------------------------------------- what the conditions mean in the history

  /** A sweep since the Run was recorded had it within its horizon. */
  ghost predicate WasSwept(states: seq<State>, events: seq<Event>, n: nat, r: nat)
    requires n <= |events| && |states| == |events| + 1
  {
    exists q :: 0 <= q < n && events[q].Sweep? && r in WithinHorizon(states[q].recorded, events[q].horizon)
  }

  lemma {:induction false} SweptIff(states: seq<State>, events: seq<Event>, n: nat, r: nat)
    requires Trace(states, events) && n <= |events|
    ensures r in states[n].swept <==> WasSwept(states, events, n, r)
  {
    hide RunsAfter, TakenBy;
    if n > 0 {
      SweptIff(states, events, n - 1, r);
      assert states[n] == After(states[n - 1], events[n - 1]);
    }
  }

  /** It was retried since, or a sweep since it ended included one of its loads. */
  ghost predicate WasTaken(states: seq<State>, events: seq<Event>, n: nat, i: RunId)
    requires n <= |events| && |states| == |events| + 1
  {
    exists q :: 0 <= q < n && i in TakenBy(states[q], events[q])
  }

  lemma {:induction false} TakenIff(states: seq<State>, events: seq<Event>, n: nat, i: RunId)
    requires Trace(states, events) && n <= |events|
    ensures i in states[n].taken <==> WasTaken(states, events, n, i)
  {
    hide RunsAfter, TakenBy;
    if n > 0 {
      TakenIff(states, events, n - 1, i);
      assert states[n] == After(states[n - 1], events[n - 1]);
    }
  }

  // ---------------------------------------------------------------- exactly when an event breaks it

  /** Every other run with one of these loads has ended. */
  predicate OthersEnded(s: State, loads: seq<LoadId>, but: set<RunId>) {
    forall i :: 0 <= i < |s.runs| && i !in but && Shares(s.runs[i].loads, loads) ==> !Active(s.runs[i])
  }

  /** Outside the operational conditions an event is still harmless when whatever took the loads over has ended. */
  predicate Harmless(s: State, e: Event) {
    match e
    case Dispatch(r, _, _) => r < |s.recorded| && OthersEnded(s, s.recorded[r].loads, {})
    case Retry(i, _, _) => i < |s.runs| && OthersEnded(s, s.runs[i].loads, {i})
    case Finish(i, ok) => i < |s.runs| && (!ok || OthersEnded(s, s.runs[i].loads, {i}))
    case _ => true
  }

  lemma AppendedDisjointIff(s: State, run: ProjectionRun)
    requires Disjoint(s.runs) && Active(run)
    ensures Disjoint(s.runs + [run]) <==> OthersEnded(s, run.loads, {})
  {
    DisjointIffUnclaimed(s.runs, run);
    hide Disjoint;
    if l :| l in run.loads && l in ActiveLoads(s.runs) {
      var i :| 0 <= i < |s.runs| && Active(s.runs[i]) && l in s.runs[i].loads;
      SharesBy(s.runs[i].loads, run.loads, l);
    }
    if i :| 0 <= i < |s.runs| && Active(s.runs[i]) && Shares(s.runs[i].loads, run.loads) {
      var l :| l in s.runs[i].loads && l in run.loads;
      assert l in ActiveLoads(s.runs);
    }
  }

  lemma RevivedDisjointIff(s: State, i: RunId, status: Status)
    requires Disjoint(s.runs) && i < |s.runs|
    ensures Disjoint(WithStatus(s.runs, i, status))
       <==> Active(s.runs[i]) || !Active(s.runs[i].(status := status)) || OthersEnded(s, s.runs[i].loads, {i})
  {
    StatusKeepsDisjointIff(s.runs, i, status);
    hide Disjoint;
    forall j, l | 0 <= j < |s.runs| && j != i && Active(s.runs[j]) && l in s.runs[j].loads && l in s.runs[i].loads
      ensures !OthersEnded(s, s.runs[i].loads, {i})
    {
      SharesBy(s.runs[j].loads, s.runs[i].loads, l);
    }
    if j :| 0 <= j < |s.runs| && j != i && Active(s.runs[j]) && Shares(s.runs[j].loads, s.runs[i].loads) {
      var l :| l in s.runs[j].loads && l in s.runs[i].loads;
      assert l in s.runs[i].loads;
    }
  }

  /** While the conditions have held, an event keeps active load sets disjoint exactly when it meets them too, or what
      took the loads over has ended. A proper event is always harmless. */
  lemma StepKeepsDisjointIff(s: State, e: Event)
    requires Inv(s) && Enabled(s, e) && (e.Dispatch? ==> s.recorded[e.r].loads != [])
    ensures Disjoint(After(s, e).runs) <==> Harmless(s, e)
    ensures Proper(s, e) ==> Harmless(s, e)
  {
    InvIsDisjoint(s);
    if Proper(s, e) {
      StepKeepsInv(s, e);
      InvIsDisjoint(After(s, e));
    }
    hide Disjoint, Inv, OthersEnded, Swept;
    match e
    case Dispatch(r, version, now) =>
      AppendedDisjointIff(s, ProjectionRun(Queued, false, version, s.recorded[r].loads, now));
    case Sweep(_, _, _) =>
    case Retry(i, version, now) =>
      AppendedDisjointIff(s, ProjectionRun(Queued, s.runs[i].full, version, s.runs[i].loads, now));
      RetriedHasEnded(s, i);
    case Finish(i, ok) => RevivedDisjointIff(s, i, if ok then Succeeded else Failed);
    case _ =>
  }

  lemma RetriedHasEnded(s: State, i: RunId)
    requires i < |s.runs| && !Active(s.runs[i])
    ensures OthersEnded(s, s.runs[i].loads, {i}) <==> OthersEnded(s, s.runs[i].loads, {})
  {
  }

  /** A dispatch after a sweep: while no run has ended, it queues its loads a second time exactly when a sweep since the
      Run was recorded had it within its horizon. */
  lemma DispatchAfterSweepIff(states: seq<State>, events: seq<Event>, n: nat, r: nat, version: nat, now: int)
    requires Trace(states, events) && n <= |events| && ProperUpTo(states, events, n)
    requires Enabled(states[n], Dispatch(r, version, now)) && states[n].recorded[r].loads != []
    requires forall i :: 0 <= i < |states[n].runs| ==> Active(states[n].runs[i])
    ensures Disjoint(After(states[n], Dispatch(r, version, now)).runs) <==> !WasSwept(states, events, n, r)
  {
    var s, e := states[n], Dispatch(r, version, now);
    HistoryKeepsInv(states, events, n);
    SweptIff(states, events, n, r);
    StepKeepsDisjointIff(s, e);
    hide WasSwept, ProperUpTo, Trace, Disjoint;
    if r in s.swept {
      var l := s.recorded[r].loads[0];
      assert l in s.recorded[r].loads;
      var i :| 0 <= i < |s.runs| && l in s.runs[i].loads;
      SharesBy(s.runs[i].loads, s.recorded[r].loads, l);
    }
  }

  /** A retry of a failed run, or a late success of one that was reaped or superseded: while every other run is active,
      it holds a load twice exactly when the run was retried since, or a sweep since it ended included one of its
      loads. */
  lemma RevivalAfterTakeoverIff(states: seq<State>, events: seq<Event>, n: nat, e: Event)
    requires Trace(states, events) && n <= |events| && ProperUpTo(states, events, n)
    requires Enabled(states[n], e) && (e.Retry? || (e.Finish? && e.ok && !Active(states[n].runs[e.i])))
    requires states[n].runs[e.i].loads != []
    requires forall j :: 0 <= j < |states[n].runs| && j != e.i ==> Active(states[n].runs[j])
    ensures Disjoint(After(states[n], e).runs) <==> !WasTaken(states, events, n, e.i)
  {
    var s, i := states[n], e.i;
    HistoryKeepsInv(states, events, n);
    TakenIff(states, events, n, i);
    StepKeepsDisjointIff(s, e);
    hide WasTaken, ProperUpTo, Trace, Disjoint, TakenBy, RunsAfter, After, Inv, OthersEnded;
    TakenIffOthersActive(s, i);
  }

  /** While every other run is active, an ended run was taken over exactly when one of them has a load of it. */
  lemma TakenIffOthersActive(s: State, i: RunId)
    requires Inv(s) && i < |s.runs| && s.runs[i].loads != []
    requires forall j :: 0 <= j < |s.runs| && j != i ==> Active(s.runs[j])
    ensures OthersEnded(s, s.runs[i].loads, {i}) <==> i !in s.taken
  {
    if i in s.taken {
      var j :| 0 <= j < |s.runs| && j != i && Shares(s.runs[i].loads, s.runs[j].loads);
      SharesBack(s.runs[i].loads, s.runs[j].loads);
    } else {
      NothingTookIt(s, i);
    }
  }

  /** Of an ended run that was not taken over, no active run has a load. */
  lemma NothingTookIt(s: State, i: RunId)
    requires Inv(s) && i < |s.runs| && i !in s.taken
    ensures OthersEnded(s, s.runs[i].loads, {i})
  {
    forall j | 0 <= j < |s.runs| && j != i && Shares(s.runs[j].loads, s.runs[i].loads) ensures !Active(s.runs[j]) {
      var l :| l in s.runs[j].loads && l in s.runs[i].loads;
      SharesBy(s.runs[i].loads, s.runs[j].loads, l);
      assert j < i;
    }
  }

  lemma Longer(states: seq<State>, events: seq<Event>, e: Event)
    requires Trace(states, events) && Enabled(states[|events|], e)
    ensures Trace(states + [After(states[|events|], e)], events + [e])
  {
    hide Enabled, After;
    var longer, more := states + [After(states[|events|], e)], events + [e];
    assert forall k :: 0 <= k <= |events| ==> longer[k] == states[k];
    assert forall k :: 0 <= k < |events| ==> more[k] == events[k];
  }

  lemma Extended(states: seq<State>, events: seq<Event>, e: Event) returns (longer: seq<State>, more: seq<Event>)
    requires Trace(states, events) && Enabled(states[|events|], e)
    requires ProperUpTo(states, events, |events|) && Proper(states[|events|], e)
    ensures more == events + [e] && Trace(longer, more) && ProperUpTo(longer, more, |more|)
    ensures |longer| == |states| + 1 && longer[..|states|] == states && longer[|more|] == After(states[|events|], e)
  {
    Longer(states, events, e);
    hide Enabled, Proper, After;
    longer, more := states + [After(states[|events|], e)], events + [e];
    assert forall k :: 0 <= k < |events| ==> longer[k] == states[k] && more[k] == events[k];
  }

  /** Such a history, for any Run with loads: recorded, swept within the horizon, then dispatched. */
  lemma SweptThenDispatched(run: IngestionRun, horizon: int, version: nat, now: int)
    returns (states: seq<State>, events: seq<Event>)
    requires run.loads != [] && horizon <= run.createdAt
    ensures Trace(states, events) && events == [Record(run), Sweep(horizon, version, now), Dispatch(0, version, now)]
    ensures !Disjoint(states[3].runs)
  {
    var sweep, dispatch := Sweep(horizon, version, now), Dispatch(0, version, now);
    states, events := [Start()], [];
    states, events := Extended(states, events, Record(run));
    assert states[1] == State([run], [], {}, {}, {}, {});
    states, events := Extended(states, events, sweep);
    assert 0 in WithinHorizon(states[1].recorded, horizon) && events[1].Sweep?;
    assert forall i :: 0 <= i < |states[2].runs| ==> Active(states[2].runs[i]);
    hide Trace, Disjoint, RunsAfter, TakenBy, Active, ProperUpTo;
    DispatchAfterSweepIff(states, events, 2, 0, version, now);
    Longer(states, events, dispatch);
    states, events := states + [After(states[2], dispatch)], events + [dispatch];
  }

  function TheRun(status: Status, run: IngestionRun, version: nat, now: int): ProjectionRun {
    ProjectionRun(status, false, version, run.loads, now)
  }

  lemma RunEnds(run: IngestionRun, version: nat, now: int, late: bool) returns (states: seq<State>, events: seq<Event>)
    requires run.loads != []
    ensures events == [Record(run), Dispatch(0, version, now), Claim(0), if late then Reap(0) else Finish(0, false)]
    ensures Trace(states, events) && ProperUpTo(states, events, 4)
    ensures states[4] == State([run], [TheRun(Failed, run, version, now)], {0}, {}, {}, if late then {0} else {})
  {
    states, events := [Start()], [];
    states, events := Extended(states, events, Record(run));
    assert states[1] == State([run], [], {}, {}, {}, {});
    states, events := Extended(states, events, Dispatch(0, version, now));
    assert states[2] == State([run], [TheRun(Queued, run, version, now)], {0}, {}, {}, {});
    states, events := Extended(states, events, Claim(0));
    assert states[3] == State([run], [TheRun(Running, run, version, now)], {0}, {}, {}, {0});
    states, events := Extended(states, events, if late then Reap(0) else Finish(0, false));
  }

  lemma SweepTakesTheLoads(s: State, horizon: int, version: nat, now: int)
    requires |s.recorded| == |s.runs| == 1 && s.runs[0].status.Failed? && s.runs[0].loads == s.recorded[0].loads != []
    requires horizon <= s.recorded[0].createdAt
    ensures 0 in EndedWithin(s, horizon)
    ensures var t := After(s, Sweep(horizon, version, now));
            t.runs[0] == s.runs[0] && t.entered == s.entered && forall j :: 0 < j < |t.runs| ==> Active(t.runs[j])
  {
    var l := s.runs[0].loads[0];
    HorizonLoadIsRecorded(s.recorded, horizon, l);
    SharesBy(s.runs[0].loads, HorizonLoads(s.recorded, horizon), l);
  }

  /** Such histories, for any Run with loads: its run fails, or is reaped while its worker lives on; a sweep takes its
      loads over; and then the run is retried, or the worker reports success after all. */
  lemma TakenOverThenRevived(run: IngestionRun, horizon: int, version: nat, now: int, late: bool)
    returns (states: seq<State>, events: seq<Event>)
    requires run.loads != [] && horizon <= run.createdAt
    ensures Trace(states, events)
    ensures events == [Record(run), Dispatch(0, version, now), Claim(0), if late then Reap(0) else Finish(0, false),
                       Sweep(horizon, version, now), if late then Finish(0, true) else Retry(0, version, now)]
    ensures !Disjoint(states[6].runs)
  {
    states, events := RunEnds(run, version, now, late);
    SweepTakesTheLoads(states[4], horizon, version, now);
    hide Disjoint, EndedWithin, RunsAfter, Trace, Active;
    states, events := Extended(states, events, Sweep(horizon, version, now));
    var revives := if late then Finish(0, true) else Retry(0, version, now);
    assert WasTaken(states, events, 5, 0) by { assert 0 in TakenBy(states[4], events[4]); }
    RevivalAfterTakeoverIff(states, events, 5, revives);
    Longer(states, events, revives);
    states, events := states + [After(states[5], revives)], events + [revives];
  }
}
