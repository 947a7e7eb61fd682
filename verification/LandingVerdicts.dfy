/** How the Runs of one call of `run_binding` end, told from what happened to it: the lease, the Binding, what waited,
    the source, and how each stage of dlt came back.
    (django_connectors/services/runs.py run_binding, django_connectors/landing/runner.py) */
module LandingVerdicts {
  import opened Sequences
  import opened Values
  import opened LandingRunner

  /** dlt reported jobs that failed. */
  predicate JobsFailed(f: Fate) { f.reported && f.failedJobs }

  /** A drain gets everything that waits out of the way and nothing in it fails. */
  predicate DrainsWell(p: Pipeline, f: Fate) {
    && (p.extracted != [] ==> f.normalize.Returned? && f.moved >= |p.extracted|)
    && f.load.Returned? && !JobsFailed(f)
    && f.loaded + f.aborted >= |p.extracted| + |p.normalized|
  }

  /** The worker dies inside a drain: while it normalizes, or while it loads what there is to load. */
  predicate DrainDies(p: Pipeline, f: Fate) {
    || (p.extracted != [] && f.normalize.Died?)
    || ((p.extracted != [] ==> f.normalize.Returned?) && f.load.Died?
        && (p.normalized != [] || (p.extracted != [] && f.moved > 0)))
  }

  /** Extract, normalize and load all return, and no job failed. */
  predicate RunsWell(f: Fate) {
    f.extract.Returned? && f.normalize.Returned? && f.load.Returned? && !JobsFailed(f)
  }

  /** The worker dies in the first stage that does not return. */
  predicate RunDies(f: Fate) {
    || f.extract.Died?
    || (f.extract.Returned? && (f.normalize.Died? || (f.normalize.Returned? && f.load.Died?)))
  }

  /** Nothing waits, or the recovery Run took it all away and was recorded. */
  predicate ClearToRun(p: Pipeline, c: Call) { HasPendingData(p) ==> DrainsWell(p, c.drain) && c.drainSaved }

  /** The worker is gone before the recovery Run was recorded. */
  predicate LostInRecovery(p: Pipeline, c: Call) {
    HasPendingData(p) && (DrainDies(p, c.drain) || !c.drainSaved)
  }

  // ---------------------------------------------------------------- one judgement

  lemma LoadReplies(p: Pipeline, f: Fate)
    ensures var (q, reply) := Load(p, f);
            && (reply.Info? <==> f.load.Returned?) && (reply.Death? <==> f.load.Died?)
            && (reply.Info? ==> (reply.info.Some? <==> f.reported))
            && (reply.Info? && f.reported ==> reply.info.value.failedJobs == f.failedJobs)
            && (q.normalized == [] <==> f.loaded + f.aborted >= |p.normalized|) && q.extracted == p.extracted
  {
  }

  lemma NormalizeLeaves(p: Pipeline, f: Fate)
    ensures var q := Normalize(p, f);
            && (q.extracted == [] <==> f.moved >= |p.extracted|)
            && |q.normalized| == |p.normalized| + if f.moved >= |p.extracted| then |p.extracted| else f.moved
  {
  }

  /** With an exclusive lease only a failed job, an exception or a death keeps a Run from success. */
  lemma JudgedIs(w: World, run: RunId, q: Pipeline, reply: Reply)
    requires Inv(w) && Honest(w.pipeline, q, reply)
    ensures Judged(w.runs, run, reply).Done?
       <==> reply.Info? && !(reply.info.Some? && reply.info.value.failedJobs)
    ensures Judged(w.runs, run, reply).Dead? <==> reply.Death?
  {
    NothingIsStolen(w, run, q, reply);
    hide Inv, Honest;
  }

  // ---------------------------------------------------------------- the recovery Run

  function Ready(p: Pipeline, f: Fate): Pipeline { if p.extracted != [] then Normalize(p, f) else p }

  lemma DrainLoads(p: Pipeline, runs: seq<RunRow>, run: RunId, f: Fate)
    requires Inv(World(p, runs))
    ensures var reply := Load(Ready(p, f), f).1;
            && (Judged(runs, run, reply).Done? <==> f.load.Returned? && !JobsFailed(f))
            && (Judged(runs, run, reply).Dead? <==> f.load.Died?)
  {
    NormalizeIsHonest(p, f);
    LoadIsHonest(Ready(p, f), f);
    var (q, reply) := Load(Ready(p, f), f);
    assert Honest(p, q, reply);
    JudgedIs(World(p, runs), run, q, reply);
    LoadReplies(Ready(p, f), f);
    hide Inv, Honest, PipelineInv, Normalize, Load, Judged;
  }

  lemma DrainEnds(p: Pipeline, runs: seq<RunRow>, run: RunId, f: Fate)
    requires Inv(World(p, runs)) && HasPendingData(p)
    ensures Drained(p, runs, run, f).1.Done? <==> DrainsWell(p, f)
    ensures Drained(p, runs, run, f).1.Dead? <==> DrainDies(p, f)
  {
    hide Inv, Normalize, Load, Claimed;
    DrainLoads(p, runs, run, f);
    NormalizeLeaves(p, f);
    LoadReplies(Ready(p, f), f);
  }

  lemma RecoveryEnds(w: World, c: Call)
    requires Inv(w)
    ensures var r := Recovered(w, c);
            && (r.goesOn <==> ClearToRun(w.pipeline, c)) && (r.died <==> LostInRecovery(w.pipeline, c))
            && |r.world.runs| == |w.runs| + (if HasPendingData(w.pipeline) then 1 else 0)
            && r.world.runs[..|w.runs|] == w.runs
            && (HasPendingData(w.pipeline) ==>
                  r.world.runs[|w.runs|].recovery && RecoveryStatus(w.pipeline, c, r.world.runs[|w.runs|].status))
  {
    if HasPendingData(w.pipeline) {
      var row := RunRow(true, Running, []);
      AppendKeepsInv(w, row);
      DrainEnds(w.pipeline, w.runs + [row], |w.runs|, c.drain);
      hide Drained, Inv, DrainsWell, DrainDies;
    }
  }

  /** A recovery Run has succeeded exactly when it drained well and was saved, is still RUNNING exactly when the worker
      died on it, and has failed otherwise. */
  predicate RecoveryStatus(p: Pipeline, c: Call, status: Status) {
    && (status.Succeeded? <==> DrainsWell(p, c.drain) && c.drainSaved)
    && (status.Running? <==> DrainDies(p, c.drain) || !c.drainSaved)
    && !status.Skipped?
  }

  // ---------------------------------------------------------------- the ordinary Run

  /** The ordinary Run of a call is SKIPPED exactly without the lease, SUCCEEDED exactly when nothing stood in its way
      and every stage came back without a failed job, still RUNNING exactly when the worker was lost, and FAILED
      otherwise. */
  predicate OrdinaryStatus(p: Pipeline, c: Call, status: Status) {
    && (status.Skipped? <==> !c.leased)
    && (status.Succeeded? <==>
          c.leased && c.runnable && ClearToRun(p, c) && c.sourceBuilt && RunsWell(c.run) && c.runSaved)
    && (status.Running? <==>
          && c.leased && c.runnable
          && (LostInRecovery(p, c) || (ClearToRun(p, c) && (!c.runSaved || (c.sourceBuilt && RunDies(c.run))))))
  }

  lemma ExecutionEnds(w: World, run: RunId, sourceBuilt: bool, f: Fate)
    requires Inv(w) && MintsFresh(w.pipeline, f) && !HasPendingData(w.pipeline)
    ensures var outcome := Executed(w.pipeline, w.runs, run, false, sourceBuilt, f).1;
            && (outcome.Done? <==> sourceBuilt && RunsWell(f))
            && (outcome.Dead? <==> sourceBuilt && RunDies(f))
  {
    PipelineRunIsHonest(w.pipeline, run, f);
    var (q, reply) := PipelineRun(w.pipeline, run, f);
    JudgedIs(w, run, q, reply);
    LoadReplies(Normalize(Extract(w.pipeline, run, f), f), f);
    hide Inv, Honest, MintsFresh, Normalize, Load, Extract, Judged;
  }

  /** How the Runs of one call end, whatever dlt, the source and the worker do. Runs on record before it stay. */
  lemma CallEnds(w: World, c: Call)
    requires Inv(w) && MintsFresh(w.pipeline, c.run)
    ensures var runs, n := RanBinding(w, c).runs, |w.runs|;
            && |runs| == n + (if c.leased && c.runnable && HasPendingData(w.pipeline) then 2 else 1)
            && runs[..n] == w.runs
            && !runs[n].recovery && OrdinaryStatus(w.pipeline, c, runs[n].status)
            && (|runs| == n + 2 ==> runs[n + 1].recovery && RecoveryStatus(w.pipeline, c, runs[n + 1].status))
  {
    if c.leased && c.runnable {
      var started := World(w.pipeline, w.runs + [RunRow(false, Running, [])]);
      AppendKeepsInv(w, RunRow(false, Running, []));
      RecoveredKeepsInv(started, c);
      RecoveryEnds(started, c);
      var recovery := Recovered(started, c);
      if recovery.goesOn {
        ExecutionEnds(recovery.world, |w.runs|, c.sourceBuilt, c.run);
      }
      hide Inv, Recovered, Executed, MintsFresh, ClearToRun, LostInRecovery, RunsWell, RunDies, RecoveryStatus;
      assert recovery.world.runs[|w.runs|] == recovery.world.runs[..|w.runs| + 1][|w.runs|];
      assert recovery.world.runs[..|w.runs|] == recovery.world.runs[..|w.runs| + 1][..|w.runs|];
    }
  }

  /** The Runs of a call made in `before` are among `runs`, and ended as they had to. */
  ghost predicate Ends(before: World, c: Call, runs: seq<RunRow>) {
    var i := |before.runs|;
    && i < |runs| && runs[..i] == before.runs
    && !runs[i].recovery && OrdinaryStatus(before.pipeline, c, runs[i].status)
    && (c.leased && c.runnable && HasPendingData(before.pipeline) ==>
          i + 1 < |runs| && runs[i + 1].recovery && RecoveryStatus(before.pipeline, c, runs[i + 1].status))
  }

  lemma EndsStill(before: World, c: Call, earlier: seq<RunRow>, runs: seq<RunRow>)
    requires Ends(before, c, earlier) && |earlier| <= |runs| && runs[..|earlier|] == earlier
    ensures Ends(before, c, runs)
  {
    hide OrdinaryStatus, RecoveryStatus;
    var i := |before.runs|;
    assert runs[..i] == runs[..|earlier|][..i];
    assert forall k :: 0 <= k < |earlier| ==> runs[k] == runs[..|earlier|][k];
  }

  /** Every call of every history ends so, and what a later call does changes no earlier Run. */
  lemma {:induction false} EveryCallEnds(calls: seq<Call>, n: nat)
    requires AlwaysMintsFresh(calls) && n < |calls|
    ensures Ends(History(calls[..n]), calls[n], History(calls).runs)
  {
    hide Ends, AlwaysMintsFresh, Inv, RanBinding, History, MintsFresh;
    var last := |calls| - 1;
    HistoryIsPrefixed(calls, last);
    LastCallEnds(calls, last);
    if n < last {
      assert calls[..last][..n] == calls[..n] && calls[..last][n] == calls[n];
      EveryCallEnds(calls[..last], n);
      EndsStill(History(calls[..n]), calls[n], History(calls[..last]).runs, History(calls).runs);
    }
  }

  lemma LastCallEnds(calls: seq<Call>, last: nat)
    requires AlwaysMintsFresh(calls) && last == |calls| - 1
    ensures var earlier := History(calls[..last]);
            && Ends(earlier, calls[last], History(calls).runs)
            && |earlier.runs| < |History(calls).runs| && History(calls).runs[..|earlier.runs|] == earlier.runs
  {
    HistoryIsPrefixed(calls, last);
    hide AlwaysMintsFresh, Inv, RanBinding, History, MintsFresh, OrdinaryStatus, RecoveryStatus;
    HistoryKeepsInv(calls[..last]);
    CallEnds(History(calls[..last]), calls[last]);
  }

  lemma HistoryIsPrefixed(calls: seq<Call>, last: nat)
    requires AlwaysMintsFresh(calls) && last == |calls| - 1
    ensures AlwaysMintsFresh(calls[..last]) && MintsFresh(History(calls[..last]).pipeline, calls[last].run)
    ensures History(calls) == RanBinding(History(calls[..last]), calls[last])
  {
    hide RanBinding, MintsFresh;
    assert forall k :: 0 <= k < last ==> calls[..last][..k] == calls[..k];
  }

  // ---------------------------------------------------------------- what they have on record

  /** With nothing waiting, one call of dlt lands nothing but what this Run minted. */
  lemma OnlyMintedLands(p: Pipeline, run: RunId, f: Fate)
    requires !HasPendingData(p)
    ensures PipelineRun(p, run, f).0.landed <= p.landed + Elements(f.minted)
  {
    ExtractsOnly(p, run, f);
    var ready := Normalize(Extract(p, run, f), f);
    assert Load(ready, f).0.landed == p.landed + Elements(LoadedBy(ready, f));
  }

  /** An ordinary Run that succeeds has on record exactly the packages it extracted that landed. */
  lemma ExecutionRecords(w: World, run: RunId, f: Fate, id: LoadId)
    requires Inv(w) && MintsFresh(w.pipeline, f) && !HasPendingData(w.pipeline)
    ensures var (q, outcome) := Executed(w.pipeline, w.runs, run, false, true, f);
            outcome.Done? ==> (id in outcome.loads <==> f.reported && id in q.landed && id in Elements(f.minted))
  {
    PipelineRunIsHonest(w.pipeline, run, f);
    OnlyMintedLands(w.pipeline, run, f);
    ExtractsOnly(w.pipeline, run, f);
    var (q, reply) := PipelineRun(w.pipeline, run, f);
    NothingIsStolen(w, run, q, reply);
    LoadReplies(Normalize(Extract(w.pipeline, run, f), f), f);
    hide Normalize, Load, Extract, Judged, Distinct;
  }

  /** A recovery Run that succeeds has on record exactly the waiting packages that landed. */
  lemma DrainRecords(p: Pipeline, runs: seq<RunRow>, run: RunId, f: Fate, id: LoadId)
    requires Inv(World(p, runs)) && HasPendingData(p)
    ensures var (q, outcome) := Drained(p, runs, run, f);
            && q.landed <= p.landed + Elements(Pending(p))
            && (outcome.Done? ==>
                  (id in outcome.loads <==> f.reported && id in q.landed && id in Elements(Pending(p))))
  {
    assert PipelineInv(p);
    hide Inv, PipelineInv, Normalize, Load, Judged, Distinct, LoadedBy;
    LoadsReady(p, f);
    DrainJudged(p, runs, run, f);
    DrainLoads(p, runs, run, f);
    LoadReplies(Ready(p, f), f);
  }

  lemma LoadBrings(p: Pipeline, f: Fate)
    ensures var (q, reply) := Load(p, f);
            && q.landed == p.landed + Elements(LoadedBy(p, f))
            && (reply.Info? && reply.info.Some? ==> reply.info.value.loads == LoadedBy(p, f))
  {
    hide LoadedBy, Elements;
  }

  lemma WaitingHasNotLanded(p: Pipeline, f: Fate)
    requires PipelineInv(p)
    ensures Elements(Pending(p)) !! p.landed && Elements(LoadedBy(p, f)) <= Elements(Pending(p))
  {
    LoadIsHonest(p, f);
    ElementsConcat(p.normalized, p.extracted);
    hide Honest, Distinct, LoadedBy, Load;
  }

  /** What a drain loads is taken from what waits. */
  lemma LoadsReady(p: Pipeline, f: Fate)
    requires PipelineInv(p)
    ensures var (q, reply) := Load(Ready(p, f), f);
            && q.landed == p.landed + Elements(LoadedBy(Ready(p, f), f))
            && Elements(LoadedBy(Ready(p, f), f)) <= Elements(Pending(p)) && Elements(Pending(p)) !! p.landed
            && (reply.Info? && reply.info.Some? ==> reply.info.value.loads == LoadedBy(Ready(p, f), f))
    ensures Normalize(p, f).landed == p.landed
  {
    hide PipelineInv, Load, Normalize, LoadedBy, Elements, Pending, Distinct;
    NormalizeIsHonest(p, f);
    WaitingHasNotLanded(Ready(p, f), f);
    LoadBrings(Ready(p, f), f);
  }

  lemma DrainJudged(p: Pipeline, runs: seq<RunRow>, run: RunId, f: Fate)
    requires Inv(World(p, runs))
    ensures var reply := Load(Ready(p, f), f).1;
            Judged(runs, run, reply).Done? ==>
              Judged(runs, run, reply).loads == if reply.info.Some? then reply.info.value.loads else []
    ensures Judged(runs, run, Info(None)) == Done([])
    ensures Judged(runs, run, Exception) == Raises(DltFailed) && Judged(runs, run, Death) == Dead
  {
    NormalizeIsHonest(p, f);
    LoadIsHonest(Ready(p, f), f);
    var (q, reply) := Load(Ready(p, f), f);
    assert Honest(p, q, reply);
    NothingIsStolen(World(p, runs), run, q, reply);
    hide Inv, Honest, Normalize, Load, Claimed;
  }

  /** `row` has `from`'s landed packages on record when it succeeded and dlt reported, and nothing otherwise. */
  predicate Records(row: RunRow, f: Fate, from: seq<LoadId>, landed: set<LoadId>, id: LoadId) {
    id in row.loads <==> row.status.Succeeded? && f.reported && id in landed && id in Elements(from)
  }

  lemma RecoveryRecords(w: World, c: Call, id: LoadId)
    requires Inv(w) && HasPendingData(w.pipeline)
    ensures var world := Recovered(w, c).world;
            && world.pipeline.landed <= w.pipeline.landed + Elements(Pending(w.pipeline))
            && |world.runs| == |w.runs| + 1
            && Records(world.runs[|w.runs|], c.drain, Pending(w.pipeline), world.pipeline.landed, id)
  {
    var row := RunRow(true, Running, []);
    AppendKeepsInv(w, row);
    DrainRecords(w.pipeline, w.runs + [row], |w.runs|, c.drain, id);
    hide Drained, Inv;
  }

  /** The ordinary Run goes on: what it lands is none of what waited. */
  lemma GoneOnRecords(w: World, c: Call, run: RunId, id: LoadId)
    requires Inv(w) && MintsFresh(w.pipeline, c.run) && !HasPendingData(w.pipeline)
    requires run < |w.runs| && w.runs[run] == RunRow(false, Running, [])
    ensures var (p, outcome) := Executed(w.pipeline, w.runs, run, false, c.sourceBuilt, c.run);
            && w.pipeline.landed <= p.landed <= w.pipeline.landed + Elements(c.run.minted)
            && Records(Ended(w.runs[run], outcome, c.runSaved), c.run, c.run.minted, p.landed, id)
  {
    PipelineRunIsHonest(w.pipeline, run, c.run);
    ExecutionRecords(w, run, c.run, id);
    OnlyMintedLands(w.pipeline, run, c.run);
    hide PipelineRun, Judged, PipelineInv, Inv, MintsFresh;
  }

  /** After one call its ordinary Run has on record exactly what it extracted that landed, and its recovery Run exactly
      what waited before and landed; a Run that did not succeed has nothing. */
  lemma CallRecords(w: World, c: Call, id: LoadId)
    requires Inv(w) && MintsFresh(w.pipeline, c.run)
    ensures var after, n := RanBinding(w, c), |w.runs|;
            && n < |after.runs| <= n + 2
            && Records(after.runs[n], c.run, c.run.minted, after.pipeline.landed, id)
            && (|after.runs| == n + 2 ==>
                  Records(after.runs[n + 1], c.drain, Pending(w.pipeline), after.pipeline.landed, id))
  {
    if c.leased && c.runnable {
      var row := RunRow(false, Running, []);
      var started := World(w.pipeline, w.runs + [row]);
      AppendKeepsInv(w, row);
      RecoveredKeepsInv(started, c);
      var world := Recovered(started, c).world;
      assert world.runs[|w.runs|] == world.runs[..|w.runs| + 1][|w.runs|] == row;
      MintedWereNotWaiting(w, c, id);
      hide Inv, MintsFresh, Pending, Ended, Recovered, Executed;
      RecoveredIs(started, c);
      if HasPendingData(w.pipeline) { RecoveryRecords(started, c, id); }
      if Recovered(started, c).goesOn { GoneOnRecords(world, c, |w.runs|, id); }
    }
  }

  lemma RecoveredIs(w: World, c: Call)
    ensures !HasPendingData(w.pipeline) ==> Recovered(w, c) == Recovery(w, true, false)
  {
    hide Drained;
  }

  lemma MintedWereNotWaiting(w: World, c: Call, id: LoadId)
    requires Inv(w) && MintsFresh(w.pipeline, c.run)
    ensures id in Elements(Pending(w.pipeline)) || id in w.pipeline.landed ==> id !in Elements(c.run.minted)
  {
  }
}
