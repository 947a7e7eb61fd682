/** The services that queue, execute, reap and sweep ProjectionRuns, on one Projection's rows.
    (django_connectors/services/projections.py, projections/runner.py) */
module ProjectionService {
  import opened Values
  import opened ProjectionRunner
  import opened Convergence
  import Histories = Sweeper

  class Service {
    const cfg: Config
    const host: Host
    var active: bool            // enabled, with status ACTIVE
    var version: nat
    var runs: seq<ProjectionRun>
    var startedAt: map<nat, int>
    var recorded: seq<IngestionRun>
    var landing: LandingTable

    constructor (cfg: Config, host: Host)
      ensures this.cfg == cfg && this.host == host && active && version == 1
      ensures runs == [] && recorded == [] && landing == map[]
    {
      this.cfg, this.host := cfg, host;
      active, version, runs, startedAt, recorded, landing := true, 1, [], map[], [], map[];
    }

    ghost function Now(): System
      reads this, host
    {
      System(landing, host.table, runs, recorded)
    }

    method QueueProjection(loads: seq<LoadId>, full: bool, now: int) returns (i: nat)
      modifies this`runs
      ensures i == |old(runs)| && runs == old(runs) + [ProjectionRun(Queued, full, version, loads, now)]
    {
      i := |runs|;
      runs := runs + [ProjectionRun(Queued, full, version, loads, now)];
    }

    /** The rows a run reads, in an order this model leaves open. */
    method ScopeOf(run: ProjectionRun) returns (keys: seq<Key>)
      ensures IsScope(landing, run, keys)
    {
      keys := [];
      var left := landing.Keys;
      while left != {}
        invariant left <= landing.Keys
        invariant forall i :: 0 <= i < |keys| ==> keys[i] in landing.Keys - left && InScope(landing[keys[i]], run)
        invariant forall i, j :: 0 <= i < j < |keys| ==> keys[i] != keys[j]
        invariant forall k :: k in landing.Keys - left && InScope(landing[k], run) ==> k in keys
      {
        var k :| k in left;
        if InScope(landing[k], run) { keys := keys + [k]; }
        left := left - {k};
      }
    }

    /** Execute one ProjectionRun. A superseded mapping refuses it; only a QUEUED row can be claimed; the
        claimed body ends in SUCCEEDED with the scope replayed, or in FAILED with part of it applied.
        `event` is the step of the whole system that this call was. */
    method Execute(i: nat, now: int, batchSize: nat, ghost idOf: Key -> Identity) returns (ghost event: Option<Event>)
      requires i < |runs| && batchSize >= 1
      modifies this`runs, this`startedAt, host
      ensures |runs| == |old(runs)|
      ensures forall j :: 0 <= j < |runs| && j != i ==> runs[j] == old(runs)[j]
      ensures runs[i] == old(runs)[i].(status := runs[i].status)
      ensures old(runs)[i].version < version ==> runs[i].status == Superseded && host.table == old(host.table)
      ensures old(runs)[i].version >= version && !old(runs)[i].status.Queued?
          ==> runs == old(runs) && startedAt == old(startedAt) && host.table == old(host.table)
      ensures old(runs)[i].version >= version && old(runs)[i].status.Queued? ==> runs[i].status in {Succeeded, Failed}
      ensures forall j :: j in startedAt ==>
                startedAt[j] == now || (j in old(startedAt) && startedAt[j] == old(startedAt)[j])
      ensures startedAt == old(startedAt) || (old(runs)[i].status.Queued? && startedAt == old(startedAt)[i := now])
      ensures EndedAs(cfg, landing, version, old(host.patience) >= |landing|, old(runs)[i], runs[i])
      ensures host.patience >= old(host.patience) - |landing|
      ensures Histories.Executed(old(runs), recorded, i, runs)
      ensures event.None? ==> Now() == old(Now())
      ensures event.Some? ==> Next(cfg, idOf, old(Now()), event.value, Now())
    {
      hide Histories.Executed, Next;
      Histories.ExecutedEnds(runs, recorded, i, true);
      if runs[i].version < version {
        event := Some(Mark(i, Superseded));
        MarksIsNext(cfg, idOf, Now(), i, Superseded);
        runs := WithStatus(runs, i, Superseded);
        return;
      }
      if !runs[i].status.Queued? {
        return None;
      }
      startedAt := startedAt[i := now];
      var ok := RunClaimed(i, batchSize, idOf);
      event := Some(if ok then Complete(i) else CutShort(i, Failed));
      Histories.ExecutedEnds(runs, recorded, i, ok);
      runs := WithStatus(runs, i, if ok then Succeeded else Failed);
    }

    /** `_run`: the claimed run's rows go through the mapping to the host's writer. */
    method RunClaimed(i: nat, batchSize: nat, ghost idOf: Key -> Identity) returns (ok: bool)
      requires i < |runs| && batchSize >= 1
      modifies host
      ensures ok ==> Completable(cfg, landing, runs[i])
      ensures !ok && old(host.patience) >= |landing| ==> !Completable(cfg, landing, runs[i])
      ensures host.patience >= old(host.patience) - |landing|
      ensures Next(cfg, idOf, old(Now()), if ok then Complete(i) else CutShort(i, Failed),
                   Now().(runs := WithStatus(runs, i, if ok then Succeeded else Failed)))
    {
      hide Next, IsScope, Records, IsReplay, IsPartial, Completable, Fatal;
      ghost var before := Now();
      var keys := ScopeOf(runs[i]);
      var rows := RowsOf(landing, keys);
      var result := ProjectionRunner.Run(cfg, rows, batchSize, host);
      FewRecords(cfg, landing, runs[i], keys);
      CompletableIff(cfg, landing, runs[i], keys);
      ExecutesIsNext(cfg, idOf, before, i, keys, host.table, result.Ok?);
      return result.Ok?;
    }

    /** After a succeeded Run: its loads are queued at once, whether or not a sweep has queued them already, and run
        here unless a dispatcher takes them. */
    method DispatchAfterRun(loads: seq<LoadId>, inline: bool, now: int, batchSize: nat, ghost idOf: Key -> Identity)
      returns (dispatched: Option<nat>)
      requires batchSize >= 1
      modifies this`runs, this`startedAt, host
      ensures dispatched.Some? <==> active && loads != []
      ensures dispatched.None? ==> runs == old(runs) && host.table == old(host.table)
      ensures dispatched.Some? ==>
                && dispatched.value == |old(runs)| == |runs| - 1 && runs[..|old(runs)|] == old(runs)
                && runs[dispatched.value].loads == loads && !runs[dispatched.value].full
                && runs[dispatched.value].version == version
                && (if inline then runs[dispatched.value].status in {Succeeded, Failed}
                    else runs[dispatched.value].status.Queued? && host.table == old(host.table))
      ensures dispatched.Some? ==> forall r :: 0 <= r < |recorded| && recorded[r].loads == loads ==>
                var queued := Histories.RunsAfter(old(runs), recorded, Histories.Dispatch(r, version, now));
                if inline then Histories.Executed(queued, recorded, dispatched.value, runs) else runs == queued
      ensures Reaches(cfg, idOf, old(Now()), Now())
      ensures dispatched.Some? && inline ==>
                EndedAs(cfg, landing, version, old(host.patience) >= |landing|,
                        ProjectionRun(Queued, false, version, loads, now), runs[dispatched.value])
    {
      hide Next, Reaches, EndedAs;
      ghost var start := Now();
      ReachesItself(cfg, idOf, start);
      if !active || loads == [] { return None; }
      var i := QueueProjection(loads, false, now);
      QueuesIsNext(cfg, idOf, start, runs[i]);
      ReachesNext(cfg, idOf, start, start, Queue(runs[i]), Now());
      if inline {
        ExecuteReaching(i, now, batchSize, idOf, start);
      }
      return Some(i);
    }

    /** `Execute`, seen from a state the system has come from. */
    method ExecuteReaching(i: nat, now: int, batchSize: nat, ghost idOf: Key -> Identity, ghost start: System)
      requires i < |runs| && batchSize >= 1 && Reaches(cfg, idOf, start, Now())
      modifies this`runs, this`startedAt, host
      ensures Reaches(cfg, idOf, start, Now())
      ensures |runs| == |old(runs)| && runs[i] == old(runs)[i].(status := runs[i].status)
      ensures forall j :: 0 <= j < |runs| && j != i ==> runs[j] == old(runs)[j]
      ensures EndedAs(cfg, landing, version, old(host.patience) >= |landing|, old(runs)[i], runs[i])
      ensures startedAt == old(startedAt) || (old(runs)[i].status.Queued? && startedAt == old(startedAt)[i := now])
      ensures host.patience >= old(host.patience) - |landing|
      ensures old(runs)[i].version >= version && old(runs)[i].status.Queued? ==> runs[i].status in {Succeeded, Failed}
      ensures Histories.Executed(old(runs), recorded, i, runs)
    {
      hide Next, Reaches, EndedAs, Histories.Executed;
      ghost var before := Now();
      ghost var event := Execute(i, now, batchSize, idOf);
      if event.Some? { ReachesNext(cfg, idOf, start, before, event.value, Now()); }
    }

    /** Queue a run for every recorded load of the horizon that no succeeded, queued or running run has. */
    method DispatchPending(now: int, lookback: nat) returns (created: Option<nat>)
      modifies this`runs
      ensures runs == if active then Swept(old(runs), recorded, now - lookback, version, now) else old(runs)
      ensures active ==> runs == Histories.RunsAfter(old(runs), recorded, Histories.Sweep(now - lookback, version, now))
      ensures created.Some? <==> runs != old(runs)
      ensures created.Some? ==> created.value == |old(runs)| == |runs| - 1 && runs[created.value].status.Queued?
    {
      hide Outstanding, ActiveLoads, HorizonLoads, Without;
      if !active { return None; }
      var landed := LandedSince(recorded, now - lookback);
      var projected := ProjectedBy(runs);
      var outstanding := Difference(landed, projected);
      assert outstanding == Outstanding(runs, recorded, now - lookback) by {
        OutstandingIs(runs, recorded, now - lookback);
      }
      if outstanding == [] { return None; }
      runs := runs + [ProjectionRun(Queued, false, version, outstanding, now)];
      return Some(|runs| - 1);
    }

    /** A run still QUEUED past the grace is one the queue dropped: it is executed here. No other run changes. */
    method ExecuteDropped(now: int, queueGrace: nat, batchSize: nat, ghost idOf: Key -> Identity)
      requires batchSize >= 1
      modifies this`runs, this`startedAt, host
      ensures |runs| == |old(runs)| && Reaches(cfg, idOf, old(Now()), Now())
      ensures forall j :: 0 <= j < |runs| ==>
                if active && Dropped(old(runs)[j], now, queueGrace)
                then EndedAs(cfg, landing, version, old(host.patience >= |runs| * |landing|), old(runs)[j], runs[j])
                else runs[j] == old(runs)[j]
      ensures forall j :: 0 <= j < |runs| && !old(runs)[j].status.Queued? ==> SameAt(old(startedAt), startedAt, j)
      ensures host.patience >= old(host.patience) - |runs| * |landing|
    {
      hide Next, Reaches, EndedAs;
      ghost var start, few := Now(), |landing|;
      ghost var steady := host.patience >= |runs| * few;
      ReachesItself(cfg, idOf, start);
      for i := 0 to |runs|
        invariant |runs| == |old(runs)| && Reaches(cfg, idOf, start, Now())
        invariant forall j :: 0 <= j < i ==>
                    if active && Dropped(old(runs)[j], now, queueGrace)
                    then EndedAs(cfg, landing, version, steady, old(runs)[j], runs[j])
                    else runs[j] == old(runs)[j]
        invariant forall j :: i <= j < |runs| ==> runs[j] == old(runs)[j]
        invariant forall j :: 0 <= j < |runs| && !old(runs)[j].status.Queued? ==> SameAt(old(startedAt), startedAt, j)
        invariant host.patience >= old(host.patience) - i * few
      {
        OneMore(i, |runs|, few);
        if runs[i].status.Queued? && runs[i].createdAt < now - queueGrace && active {
          ghost var patience := host.patience;
          ExecuteReaching(i, now, batchSize, idOf, start);
          SteadierEnds(cfg, landing, version, patience >= few, steady, old(runs)[i], runs[i]);
        }
      }
    }

    /** A run still RUNNING past the timeout is one a killed worker left: it is failed. No other run changes. */
    method FailAbandoned(now: int, runTimeout: nat, ghost idOf: Key -> Identity)
      modifies this`runs
      ensures |runs| == |old(runs)| && Reaches(cfg, idOf, old(Now()), Now())
      ensures forall j :: 0 <= j < |runs| ==>
                runs[j] == if Abandoned(old(runs)[j], startedAt, j, now, runTimeout)
                           then old(runs)[j].(status := Failed) else old(runs)[j]
    {
      hide Next, Reaches;
      ghost var start := Now();
      ReachesItself(cfg, idOf, start);
      for i := 0 to |runs|
        invariant |runs| == |old(runs)| && Reaches(cfg, idOf, start, Now())
        invariant forall j :: 0 <= j < i ==>
                    runs[j] == if Abandoned(old(runs)[j], startedAt, j, now, runTimeout)
                               then old(runs)[j].(status := Failed) else old(runs)[j]
        invariant forall j :: i <= j < |runs| ==> runs[j] == old(runs)[j]
      {
        if runs[i].status.Running? && i in startedAt && startedAt[i] < now - runTimeout {
          ghost var before := Now();
          runs := WithStatus(runs, i, Failed);
          MarksIsNext(cfg, idOf, before, i, Failed);
          ReachesNext(cfg, idOf, start, before, Mark(i, Failed), Now());
        }
      }
    }

    /** Answer what stopped being credible with age: a dropped run is executed and an abandoned one failed. Every
        other run stays as it is, so nothing stale stays queued or running and no run comes back to life. */
    method ReapStale(now: int, queueGrace: nat, runTimeout: nat, batchSize: nat, ghost idOf: Key -> Identity)
      requires batchSize >= 1
      modifies this`runs, this`startedAt, host
      ensures Reaches(cfg, idOf, old(Now()), Now())
      ensures |runs| == |old(runs)| && forall j :: 0 <= j < |runs| ==>
                if active && Dropped(old(runs)[j], now, queueGrace)
                then EndedAs(cfg, landing, version, old(host.patience >= |runs| * |landing|), old(runs)[j], runs[j])
                else if Abandoned(old(runs)[j], old(startedAt), j, now, runTimeout)
                then runs[j] == old(runs)[j].(status := Failed)
                else runs[j] == old(runs)[j]
      ensures SameButStatus(old(runs), runs)
      ensures forall j :: 0 <= j < |runs| && !old(runs)[j].status.Queued? && !old(runs)[j].status.Running? ==>
                runs[j] == old(runs)[j]
      ensures forall j :: 0 <= j < |runs| && runs[j].status.Queued? ==> !active || runs[j].createdAt >= now - queueGrace
      ensures forall j :: 0 <= j < |runs| && runs[j].status.Running? ==>
                !(j in startedAt && startedAt[j] < now - runTimeout)
      ensures host.patience >= old(host.patience) - |runs| * |landing|
    {
      hide Next, Reaches, Completable;
      ghost var start := Now();
      ExecuteDropped(now, queueGrace, batchSize, idOf);
      ghost var mid := Now();
      FailAbandoned(now, runTimeout, idOf);
      ReachesOn(cfg, idOf, start, mid, Now());
      assert forall j :: 0 <= j < |runs| ==> runs[j] == mid.runs[j].(status := runs[j].status);
      assert forall j :: 0 <= j < |runs| && mid.runs[j].status.Running? ==>
          !old(runs)[j].status.Queued? && SameAt(old(startedAt), startedAt, j);
    }

    /** One sweep: reap, queue what is outstanding, run it. Afterwards every load of the horizon is held
        by a queued, running or succeeded run, unless the run the sweep itself queued for it has failed. */
    method Sweep(now: int, lookback: nat, queueGrace: nat, runTimeout: nat, batchSize: nat, ghost idOf: Key -> Identity)
      returns (created: Option<nat>)
      requires active && batchSize >= 1 && Disjoint(runs)
      modifies this`runs, this`startedAt, host
      ensures Disjoint(runs)
      ensures created.Some? ==> created.value == |old(runs)| == |runs| - 1
      ensures forall l :: l in HorizonLoads(recorded, now - lookback) ==>
                || l in ActiveLoads(runs)
                || (created.Some? && !Active(runs[created.value]) && l in runs[created.value].loads)
      ensures Reaches(cfg, idOf, old(Now()), Now())
      ensures |runs| >= |old(runs)| && forall j :: 0 <= j < |old(runs)| ==>
                if Dropped(old(runs)[j], now, queueGrace)
                then EndedAs(cfg, landing, version, old(host.patience >= |runs| * |landing|), old(runs)[j], runs[j])
                else if Abandoned(old(runs)[j], old(startedAt), j, now, runTimeout)
                then runs[j] == old(runs)[j].(status := Failed)
                else runs[j] == old(runs)[j]
      ensures var outstanding := Outstanding(runs[..|old(runs)|], recorded, now - lookback);
              if outstanding == [] then created.None? && |runs| == |old(runs)|
              else created.Some? && EndedAs(cfg, landing, version,
                                            old(host.patience >= |runs| * |landing| + |landing|),
                                            ProjectionRun(Queued, false, version, outstanding, now),
                                            runs[created.value])
    {
      hide Outstanding, ActiveLoads, HorizonLoads, Without, Swept, Disjoint, Next, Reaches, EndedAs;
      ghost var start := Now();
      ReapStale(now, queueGrace, runTimeout, batchSize, idOf);
      ghost var reaped := Now();
      ghost var patience := host.patience;
      StillDisjoint(old(runs), runs);
      SweepConserves(runs, recorded, now - lookback, version, now);
      created := DispatchPending(now, lookback);
      ghost var swept := runs;
      SweptIs(reaped.runs, recorded, now - lookback, version, now);
      if created.Some? {
        QueuesIsNext(cfg, idOf, reaped, runs[created.value]);
        ReachesNext(cfg, idOf, start, reaped, Queue(runs[created.value]), Now());
        ExecuteReaching(created.value, now, batchSize, idOf, start);
        StillDisjoint(swept, runs);
        LoadsStayActive(swept, runs, created.value);
        SteadierEnds(cfg, landing, version, patience >= |landing|,
                     old(host.patience >= |runs| * |landing| + |landing|), swept[created.value], runs[created.value]);
      }
      assert runs[..|reaped.runs|] == reaped.runs;
    }

    /** Re-run a failed ProjectionRun over the same scope, as a new row. */
    method RetryProjectionRun(i: nat, now: int, batchSize: nat, ghost idOf: Key -> Identity) returns (ok: bool)
      requires i < |runs| && batchSize >= 1
      modifies this`runs, this`startedAt, host
      ensures ok <==> old(runs)[i].status.Failed?
      ensures !ok ==> runs == old(runs) && host.table == old(host.table)
      ensures ok ==> |runs| == |old(runs)| + 1 && runs[..|old(runs)|] == old(runs)
      ensures ok ==> var retry := runs[|old(runs)|];
                     && retry.status in {Succeeded, Failed}
                     && retry.loads == old(runs)[i].loads && retry.full == old(runs)[i].full
                     && retry.version == version
      ensures ok ==> var retried := Histories.RunsAfter(old(runs), recorded, Histories.Retry(i, version, now));
                     Histories.Executed(retried, recorded, |old(runs)|, runs)
      ensures Reaches(cfg, idOf, old(Now()), Now())
      ensures ok ==> EndedAs(cfg, landing, version, old(host.patience) >= |landing|,
                             ProjectionRun(Queued, old(runs)[i].full, version, old(runs)[i].loads, now),
                             runs[|old(runs)|])
    {
      hide Next, Reaches, EndedAs;
      ghost var start := Now();
      ReachesItself(cfg, idOf, start);
      if !runs[i].status.Failed? { return false; }
      var retry := QueueProjection(runs[i].loads, runs[i].full, now);
      QueuesIsNext(cfg, idOf, start, runs[retry]);
      ReachesNext(cfg, idOf, start, start, Queue(runs[retry]), Now());
      ExecuteReaching(retry, now, batchSize, idOf, start);
      return true;
    }
  }

  predicate Dropped(run: ProjectionRun, now: int, queueGrace: nat) {
    run.status.Queued? && run.createdAt < now - queueGrace
  }

  predicate Abandoned(run: ProjectionRun, startedAt: map<nat, int>, i: nat, now: int, runTimeout: nat) {
    run.status.Running? && i in startedAt && startedAt[i] < now - runTimeout
  }

  predicate SameAt(before: map<nat, int>, after: map<nat, int>, i: nat) {
    (i in after <==> i in before) && (i in after ==> after[i] == before[i])
  }

  /** What one call of the executor leaves of a run: a superseded mapping refuses it; one no longer queued is left
      alone; any other ends, and when the writer does not raise it ends well exactly if no row in scope stops it. */
  ghost predicate EndedAs(cfg: Config, landing: LandingTable, version: nat, steady: bool, before: ProjectionRun,
                          after: ProjectionRun)
  {
    && after == before.(status := after.status)
    && if before.version < version then after.status.Superseded?
       else if !before.status.Queued? then after == before
       else
         || (after.status.Succeeded? && Completable(cfg, landing, before))
         || (after.status.Failed? && (steady ==> !Completable(cfg, landing, before)))
  }

  lemma SteadierEnds(cfg: Config, landing: LandingTable, version: nat, steady: bool, wasSteady: bool,
                     before: ProjectionRun, after: ProjectionRun)
    requires EndedAs(cfg, landing, version, steady, before, after) && (wasSteady ==> steady)
    ensures EndedAs(cfg, landing, version, wasSteady, before, after)
  {
  }

  lemma OneMore(i: nat, n: nat, few: nat)
    requires i < n
    ensures (i + 1) * few == i * few + few && i * few + few <= n * few
  {
    assert n * few == (i + 1) * few + (n - i - 1) * few;
  }

  lemma CompletableIff(cfg: Config, landing: LandingTable, run: ProjectionRun, keys: seq<Key>)
    requires IsScope(landing, run, keys)
    ensures Completable(cfg, landing, run) <==> forall k :: 0 <= k < |keys| ==> !Fatal(cfg, RowsOf(landing, keys)[k])
  {
    hide Fatal;
    forall k | k in landing && InScope(landing[k], run)
      ensures exists i :: 0 <= i < |keys| && RowsOf(landing, keys)[i] == landing[k].row
    {
      var i :| 0 <= i < |keys| && keys[i] == k;
      assert RowsOf(landing, keys)[i] == landing[k].row;
    }
    if Completable(cfg, landing, run) {
      assert forall k :: 0 <= k < |keys| ==> InScope(landing[keys[k]], run);
    }
  }

  lemma {:induction false} NoMoreRecords(cfg: Config, rows: seq<Row>)
    ensures |Records(cfg, rows)| <= |rows|
  {
    if rows != [] { NoMoreRecords(cfg, rows[..|rows| - 1]); }
  }

  /** A scope gives the writer at most one record for each landed row. */
  lemma FewRecords(cfg: Config, landing: LandingTable, run: ProjectionRun, keys: seq<Key>)
    requires IsScope(landing, run, keys)
    ensures |Records(cfg, RowsOf(landing, keys))| <= |landing|
  {
    NoMoreRecords(cfg, RowsOf(landing, keys));
    KeysCount(keys);
    Subset((set k | k in keys), landing.Keys);
    assert |landing.Keys| == |landing|;
  }

  lemma {:induction false} KeysCount(keys: seq<Key>)
    requires forall i, j :: 0 <= i < j < |keys| ==> keys[i] != keys[j]
    ensures |(set k | k in keys)| == |keys|
  {
    if keys != [] {
      var init, last := keys[..|keys| - 1], keys[|keys| - 1];
      KeysCount(init);
      assert keys == init + [last];
      assert (set k | k in keys) == (set k | k in init) + {last};
      assert last !in init;
    } else {
      assert (set k | k in keys) == {};
    }
  }

  lemma SweptIs(runs: seq<ProjectionRun>, recorded: seq<IngestionRun>, horizon: int, version: nat, now: int)
    ensures Outstanding(runs, recorded, horizon) == [] ==> Swept(runs, recorded, horizon, version, now) == runs
    ensures Outstanding(runs, recorded, horizon) != [] ==>
              Swept(runs, recorded, horizon, version, now)
                == runs + [ProjectionRun(Queued, false, version, Outstanding(runs, recorded, horizon), now)]
  {
  }

  lemma MarksIsNext(cfg: Config, idOf: Key -> Identity, s: System, i: nat, status: Status)
    requires i < |s.runs| && !status.Succeeded?
    ensures Next(cfg, idOf, s, Mark(i, status), s.(runs := WithStatus(s.runs, i, status)))
  {
  }

  lemma QueuesIsNext(cfg: Config, idOf: Key -> Identity, s: System, run: ProjectionRun)
    requires run.status.Queued?
    ensures Next(cfg, idOf, s, Queue(run), s.(runs := s.runs + [run]))
  {
  }

  /** A body that ended, well or not, is a step of the whole system. */
  lemma ExecutesIsNext(cfg: Config, idOf: Key -> Identity, s: System, i: nat, keys: seq<Key>, after: HostTable,
                       ok: bool)
    requires i < |s.runs| && IsScope(s.landing, s.runs[i], keys)
    requires ok ==> IsReplay(s.host, Records(cfg, RowsOf(s.landing, keys)), after)
    requires ok ==> forall k :: 0 <= k < |keys| ==> !Fatal(cfg, RowsOf(s.landing, keys)[k])
    requires !ok ==> IsPartial(s.host, Records(cfg, RowsOf(s.landing, keys)), after)
    ensures ok ==> Next(cfg, idOf, s, Complete(i), s.(host := after, runs := WithStatus(s.runs, i, Succeeded)))
    ensures !ok ==>
              Next(cfg, idOf, s, CutShort(i, Failed), s.(host := after, runs := WithStatus(s.runs, i, Failed)))
  {
  }

  ghost predicate SameButStatus(before: seq<ProjectionRun>, after: seq<ProjectionRun>) {
    |before| == |after| && forall j :: 0 <= j < |after| ==> after[j] == before[j].(status := after[j].status)
  }

  /** The load ids of the succeeded Runs created since `horizon`. */
  method LandedSince(recorded: seq<IngestionRun>, horizon: int) returns (landed: seq<LoadId>)
    ensures landed == HorizonLoads(recorded, horizon)
  {
    landed := [];
    for i := 0 to |recorded|
      invariant landed == HorizonLoads(recorded[..i], horizon)
    {
      assert recorded[..i + 1][..i] == recorded[..i];
      if recorded[i].createdAt >= horizon { landed := landed + recorded[i].loads; }
    }
    assert recorded[..|recorded|] == recorded;
  }

  method ProjectedBy(runs: seq<ProjectionRun>) returns (projected: set<LoadId>)
    ensures projected == ActiveLoads(runs)
  {
    projected := {};
    for i := 0 to |runs|
      invariant projected == ActiveLoads(runs[..i])
    {
      ActiveLoadsGrow(runs, i);
      if Active(runs[i]) { projected := projected + set l | l in runs[i].loads; }
    }
    assert runs[..|runs|] == runs;
  }

  method Difference(landed: seq<LoadId>, projected: set<LoadId>) returns (outstanding: seq<LoadId>)
    ensures outstanding == Without(landed, projected)
  {
    outstanding := [];
    for i := 0 to |landed|
      invariant outstanding == Without(landed[..i], projected)
    {
      assert landed[..i + 1][..i] == landed[..i];
      if landed[i] !in projected { outstanding := outstanding + [landed[i]]; }
    }
    assert landed[..|landed|] == landed;
  }

  lemma OutstandingIs(runs: seq<ProjectionRun>, recorded: seq<IngestionRun>, horizon: int)
    ensures Outstanding(runs, recorded, horizon) == Without(HorizonLoads(recorded, horizon), ActiveLoads(runs))
  {
  }

  lemma ActiveLoadsGrow(runs: seq<ProjectionRun>, i: nat)
    requires i < |runs|
    ensures ActiveLoads(runs[..i + 1])
         == ActiveLoads(runs[..i]) + if Active(runs[i]) then (set l | l in runs[i].loads) else {}
  {
    var more := runs[..i + 1];
    forall l | l in ActiveLoads(more)
      ensures l in ActiveLoads(runs[..i]) + if Active(runs[i]) then (set l | l in runs[i].loads) else {}
    {
      var j :| 0 <= j < |more| && Active(more[j]) && l in more[j].loads;
      if j < i { assert runs[..i][j] == more[j]; }
    }
    forall l | l in ActiveLoads(runs[..i]) ensures l in ActiveLoads(more) {
      var j :| 0 <= j < i && Active(runs[..i][j]) && l in runs[..i][j].loads;
      assert more[j] == runs[..i][j];
    }
    forall l | Active(runs[i]) && l in runs[i].loads ensures l in ActiveLoads(more) {
      assert more[i] == runs[i];
    }
  }

  lemma StillDisjoint(before: seq<ProjectionRun>, after: seq<ProjectionRun>)
    requires Disjoint(before) && |before| == |after|
    requires forall j :: 0 <= j < |after| ==> after[j].loads == before[j].loads
    requires forall j :: 0 <= j < |after| && Active(after[j]) ==> Active(before[j])
    ensures Disjoint(after)
  {
  }

  lemma LoadsStayActive(before: seq<ProjectionRun>, after: seq<ProjectionRun>, i: nat)
    requires |before| == |after| && i < |after| && after[i].loads == before[i].loads
    requires forall j :: 0 <= j < |after| && j != i ==> after[j] == before[j]
    ensures forall l :: l in ActiveLoads(before) ==>
              l in ActiveLoads(after) || (!Active(after[i]) && l in after[i].loads)
  {
    forall l | l in ActiveLoads(before) ensures l in ActiveLoads(after) || (!Active(after[i]) && l in after[i].loads) {
      var j :| 0 <= j < |before| && Active(before[j]) && l in before[j].loads;
      if j != i { assert after[j] == before[j]; }
      if Active(after[j]) { assert l in ActiveLoads(after); }
    }
  }

  // ---------------------------------------------------------------- one body per ProjectionRun

  /** The statements that reach the ProjectionRun table, from any number of workers, sweepers and redeliveries.
      A claim is one conditional UPDATE; every other write is unconditional, and none writes QUEUED. */
  datatype Statement = Insert | Claim(i: nat) | Write(i: nat, status: Status)

  datatype RunTable = RunTable(statuses: seq<Status>, entered: seq<nat>)

  function After(t: RunTable, statement: Statement): RunTable
    requires |t.statuses| == |t.entered|
  {
    match statement
    case Insert => RunTable(t.statuses + [Queued], t.entered + [0])
    case Claim(i) =>
      if i < |t.statuses| && t.statuses[i].Queued? then
        RunTable(t.statuses[i := Running], t.entered[i := t.entered[i] + 1])
      else t
    case Write(i, status) =>
      if i < |t.statuses| && !status.Queued? then t.(statuses := t.statuses[i := status]) else t
  }

  function AfterAll(statements: seq<Statement>): (t: RunTable)
    ensures |t.statuses| == |t.entered|
  {
    if statements == [] then RunTable([], [])
    else After(AfterAll(statements[..|statements| - 1]), statements[|statements| - 1])
  }

  /** However claims, reaps, finishes and superseding writes interleave, no body is entered twice. */
  lemma {:induction false} BodyEnteredAtMostOnce(statements: seq<Statement>, i: nat)
    requires i < |AfterAll(statements).statuses|
    ensures var t := AfterAll(statements);
            t.entered[i] <= 1 && (t.statuses[i].Queued? ==> t.entered[i] == 0)
  {
    var n := |statements| - 1;
    if i < |AfterAll(statements[..n]).statuses| {
      BodyEnteredAtMostOnce(statements[..n], i);
    }
  }
}
