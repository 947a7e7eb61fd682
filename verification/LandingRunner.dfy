/** One Binding's landing pipeline under failures and crashes, and which Run each load is credited to.
    The Binding's lease is held throughout, so no two calls below overlap.
    (django_connectors/landing/runner.py, django_connectors/services/runs.py run_binding) */
module LandingRunner {
  import opened Sequences
  import opened Values

  type LoadId = nat
  type RunId = nat

  // ---------------------------------------------------------------- the pipeline, as dlt keeps it

  /** Packages by the stage they wait in, the loads that reached the database, and the Run that extracted each. */
  datatype Pipeline = Pipeline(extracted: seq<LoadId>, normalized: seq<LoadId>, landed: set<LoadId>,
                               origin: map<LoadId, RunId>)

  predicate HasPendingData(p: Pipeline) { p.extracted != [] || p.normalized != [] }

  /** How one call into dlt ends: it returns, it raises, or the worker dies inside it. */
  datatype End = Returned | Raised | Died

  /** Everything about one dlt call that this code does not decide: how each stage ends and how far it got.
      A stage may stop part-way however it ends; `aborted` packages are dropped without landing. */
  datatype Fate = Fate(extract: End, minted: seq<LoadId>, normalize: End, moved: nat,
                       load: End, loaded: nat, aborted: nat, failedJobs: bool, reported: bool)

  datatype LoadInfo = LoadInfo(loads: seq<LoadId>, failedJobs: bool)

  datatype Reply = Info(info: Option<LoadInfo>) | Exception | Death

  function Least(a: nat, b: nat): nat { if a <= b then a else b }

  function Interrupted(end: End): Reply
    requires !end.Returned?
  {
    if end.Raised? then Exception else Death
  }

  function Normalize(p: Pipeline, f: Fate): Pipeline {
    var n := Least(f.moved, |p.extracted|);
    p.(extracted := p.extracted[n..], normalized := p.normalized + p.extracted[..n])
  }

  function LoadedBy(p: Pipeline, f: Fate): seq<LoadId> { p.normalized[..Least(f.loaded, |p.normalized|)] }

  function Load(p: Pipeline, f: Fate): (Pipeline, Reply) {
    var loaded := LoadedBy(p, f);
    var rest := p.normalized[|loaded|..];
    var q := p.(normalized := rest[Least(f.aborted, |rest|)..], landed := p.landed + Elements(loaded));
    (q, if !f.load.Returned? then Interrupted(f.load)
        else Info(if f.reported then Some(LoadInfo(loaded, f.failedJobs)) else None))
  }

  function Extract(p: Pipeline, run: RunId, f: Fate): Pipeline {
    p.(extracted := p.extracted + f.minted, origin := map id | id in p.origin.Keys + Elements(f.minted) ::
         if id in Elements(f.minted) then run else p.origin[id])
  }

  /** `pipeline.run(source)`: waiting packages are loaded instead of extracting anything new. */
  function PipelineRun(p: Pipeline, run: RunId, f: Fate): (Pipeline, Reply) {
    if p.extracted != [] then
      if !f.normalize.Returned? then (Normalize(p, f), Interrupted(f.normalize))
      else if Normalize(p, f).normalized != [] then Load(Normalize(p, f), f)
      else ExtractAndLoad(Normalize(p, f), run, f)
    else if p.normalized != [] then Load(p, f)
    else ExtractAndLoad(p, run, f)
  }

  function ExtractAndLoad(p: Pipeline, run: RunId, f: Fate): (Pipeline, Reply) {
    var extracted := Extract(p, run, f);
    if !f.extract.Returned? then (extracted, Interrupted(f.extract))
    else if !f.normalize.Returned? then (Normalize(extracted, f), Interrupted(f.normalize))
    else Load(Normalize(extracted, f), f)
  }

  // ---------------------------------------------------------------- the runner

  datatype Status = Running | Succeeded | Failed | Skipped

  /** `recovery` Runs drain; the others extract. */
  datatype RunRow = RunRow(recovery: bool, status: Status, loads: seq<LoadId>)

  datatype Error = PendingPackages | FailedJobs | StolenLoads | SourceFailed | DltFailed

  datatype Outcome = Done(loads: seq<LoadId>) | Raises(error: Error) | Dead

  /** The load ids recorded on every Run but this one. */
  function Claimed(runs: seq<RunRow>, run: RunId): set<LoadId> {
    set i, k | 0 <= i < |runs| && i != run && 0 <= k < |runs[i].loads| :: runs[i].loads[k]
  }

  function Verdict(runs: seq<RunRow>, run: RunId, info: Option<LoadInfo>): Outcome {
    if info.None? then Done([])
    else if info.value.failedJobs then Raises(FailedJobs)
    else if Elements(info.value.loads) * Claimed(runs, run) != {} then Raises(StolenLoads)
    else Done(info.value.loads)
  }

  /** Nothing this Run reports is on another Run's record. */
  ghost predicate Unclaimed(runs: seq<RunRow>, run: RunId, loads: seq<LoadId>) {
    forall id, i :: id in loads && 0 <= i < |runs| && i != run ==> id !in runs[i].loads
  }

  /** A reply counts as landed exactly when no job failed and none of its loads is another Run's. */
  lemma VerdictIs(runs: seq<RunRow>, run: RunId, info: LoadInfo)
    ensures Verdict(runs, run, None) == Done([])
    ensures Verdict(runs, run, Some(info)) == Raises(FailedJobs) <==> info.failedJobs
    ensures Verdict(runs, run, Some(info)) == Raises(StolenLoads)
       <==> !info.failedJobs && !Unclaimed(runs, run, info.loads)
    ensures Verdict(runs, run, Some(info)) == Done(info.loads)
       <==> !info.failedJobs && Unclaimed(runs, run, info.loads)
  {
    forall id | id in info.loads
      ensures id in Claimed(runs, run) <==> exists i :: 0 <= i < |runs| && i != run && id in runs[i].loads
    {
      if i :| 0 <= i < |runs| && i != run && id in runs[i].loads {
        var k :| 0 <= k < |runs[i].loads| && runs[i].loads[k] == id;
      }
    }
    hide Claimed;
    forall id
      ensures id in Elements(info.loads) * Claimed(runs, run) <==> id in info.loads && id in Claimed(runs, run)
    {
    }
  }

  function Judged(runs: seq<RunRow>, run: RunId, reply: Reply): Outcome {
    match reply
    case Info(info) => Verdict(runs, run, info)
    case Exception => Raises(DltFailed)
    case Death => Dead
  }

  function Executed(p: Pipeline, runs: seq<RunRow>, run: RunId, allowPending: bool, sourceBuilt: bool,
                    f: Fate): (Pipeline, Outcome)
  {
    if HasPendingData(p) && !allowPending then (p, Raises(PendingPackages))
    else if !sourceBuilt then (p, Raises(SourceFailed))
    else
      var (q, reply) := PipelineRun(p, run, f);
      (q, Judged(runs, run, reply))
  }

  function Drained(p: Pipeline, runs: seq<RunRow>, run: RunId, f: Fate): (Pipeline, Outcome) {
    if !HasPendingData(p) then (p, Done([]))
    else if p.extracted != [] && !f.normalize.Returned? then
      (Normalize(p, f), Judged(runs, run, Interrupted(f.normalize)))
    else
      var ready := if p.extracted != [] then Normalize(p, f) else p;
      var (q, reply) := if ready.normalized != [] then Load(ready, f) else (ready, Info(None));
      var outcome := Judged(runs, run, reply);
      (q, if outcome.Done? && HasPendingData(q) then Raises(PendingPackages) else outcome)
  }

  // ---------------------------------------------------------------- run_binding

  datatype World = World(pipeline: Pipeline, runs: seq<RunRow>)

  /** One call of `run_binding`: whether the lease was free, the Binding could run, the source built, the worker lived
      to save. */
  datatype Call = Call(leased: bool, runnable: bool, sourceBuilt: bool, drain: Fate, drainSaved: bool, run: Fate,
                       runSaved: bool)

  function Ended(row: RunRow, outcome: Outcome, saved: bool): RunRow {
    if outcome.Dead? || !saved then row
    else if outcome.Done? then row.(status := Succeeded, loads := outcome.loads)
    else row.(status := Failed)
  }

  /** The recovery Run, when one is needed; the flag says whether the ordinary Run may go on. */
  datatype Recovery = Recovery(world: World, goesOn: bool, died: bool)

  function Recovered(w: World, c: Call): Recovery {
    if !HasPendingData(w.pipeline) then Recovery(w, true, false)
    else
      var runs := w.runs + [RunRow(true, Running, [])];
      var (p, outcome) := Drained(w.pipeline, runs, |w.runs|, c.drain);
      Recovery(World(p, runs[|w.runs| := Ended(runs[|w.runs|], outcome, c.drainSaved)]),
               outcome.Done? && c.drainSaved, outcome.Dead? || !c.drainSaved)
  }

  function RanBinding(w: World, c: Call): World {
    var run := |w.runs|;
    var started := World(w.pipeline, w.runs + [RunRow(false, Running, [])]);
    if !c.leased then World(w.pipeline, w.runs + [RunRow(false, Skipped, [])])
    else if !c.runnable then World(w.pipeline, w.runs + [RunRow(false, Failed, [])])
    else
      var recovery := Recovered(started, c);
      if recovery.died then recovery.world
      else if !recovery.goesOn then
        recovery.world.(runs := recovery.world.runs[run := RunRow(false, Failed, [])])
      else
        var (p, outcome) := Executed(recovery.world.pipeline, recovery.world.runs, run, false, c.sourceBuilt, c.run);
        World(p, recovery.world.runs[run := Ended(recovery.world.runs[run], outcome, c.runSaved)])
  }

  /** The same, as the code does it: Runs and the pipeline change in place. */
  class BindingLanding {
    var pipeline: Pipeline
    var runs: seq<RunRow>

    constructor ()
      ensures pipeline == Pipeline([], [], {}, map[]) && runs == []
    {
      pipeline, runs := Pipeline([], [], {}, map[]), [];
    }

    method Verify(run: RunId, info: Option<LoadInfo>) returns (outcome: Outcome)
      ensures outcome == Verdict(runs, run, info)
      ensures outcome == Raises(FailedJobs) <==> info.Some? && info.value.failedJobs
      ensures outcome == Raises(StolenLoads)
         <==> info.Some? && !info.value.failedJobs && !Unclaimed(runs, run, info.value.loads)
      ensures outcome.Done? ==> outcome.loads == if info.Some? then info.value.loads else []
    {
      if info.Some? { VerdictIs(runs, run, info.value); }
      if info.None? {
        return Done([]);
      }
      if info.value.failedJobs {
        return Raises(FailedJobs);
      }
      if info.value.loads == [] {
        assert Elements(info.value.loads) == {};
        return Done([]);
      }
      var claimed: set<LoadId> := {};
      for i := 0 to |runs|
        invariant claimed == Claimed(runs[..i], run)
      {
        if i != run {
          claimed := claimed + Elements(runs[i].loads);
        }
        ClaimedGrows(runs, run, i);
      }
      assert runs[..|runs|] == runs;
      if Elements(info.value.loads) * claimed != {} {
        return Raises(StolenLoads);
      }
      outcome := Done(info.value.loads);
    }

    method Conclude(run: RunId, reply: Reply) returns (outcome: Outcome)
      ensures outcome == Judged(runs, run, reply)
    {
      match reply
      case Info(info) => outcome := Verify(run, info);
      case Exception => outcome := Raises(DltFailed);
      case Death => outcome := Dead;
    }

    method Execute(run: RunId, allowPending: bool, sourceBuilt: bool, f: Fate) returns (outcome: Outcome)
      modifies this`pipeline
      ensures (pipeline, outcome) == Executed(old(pipeline), runs, run, allowPending, sourceBuilt, f)
    {
      if HasPendingData(pipeline) && !allowPending {
        return Raises(PendingPackages);
      }
      if !sourceBuilt {
        return Raises(SourceFailed);
      }
      var (after, reply) := PipelineRun(pipeline, run, f);
      pipeline := after;
      outcome := Conclude(run, reply);
    }

    method DrainPending(run: RunId, f: Fate) returns (outcome: Outcome)
      modifies this`pipeline
      ensures (pipeline, outcome) == Drained(old(pipeline), runs, run, f)
      ensures outcome.Done? ==> !HasPendingData(pipeline)
    {
      if !HasPendingData(pipeline) {
        return Done([]);
      }
      if pipeline.extracted != [] {
        pipeline := Normalize(pipeline, f);
        if !f.normalize.Returned? {
          outcome := Conclude(run, Interrupted(f.normalize));
          return;
        }
      }
      var reply := Info(None);
      if pipeline.normalized != [] {
        var (after, answer) := Load(pipeline, f);
        pipeline, reply := after, answer;
      }
      outcome := Conclude(run, reply);
      if outcome.Done? && HasPendingData(pipeline) {
        outcome := Raises(PendingPackages);
      }
    }

    method RunBinding(c: Call)
      modifies this
      ensures World(pipeline, runs) == RanBinding(World(old(pipeline), old(runs)), c)
    {
      if !c.leased {
        runs := runs + [RunRow(false, Skipped, [])];
        return;
      }
      var run := |runs|;
      runs := runs + [RunRow(false, Running, [])];
      if !c.runnable {
        runs := runs[run := RunRow(false, Failed, [])];
        return;
      }
      if HasPendingData(pipeline) {
        var recovery := |runs|;
        runs := runs + [RunRow(true, Running, [])];
        var drained := DrainPending(recovery, c.drain);
        runs := runs[recovery := Ended(runs[recovery], drained, c.drainSaved)];
        if drained.Dead? || !c.drainSaved {
          return;
        }
        if !drained.Done? {
          runs := runs[run := RunRow(false, Failed, [])];
          return;
        }
      }
      var outcome := Execute(run, false, c.sourceBuilt, c.run);
      runs := runs[run := Ended(runs[run], outcome, c.runSaved)];
    }
  }

  lemma ClaimedGrows(runs: seq<RunRow>, run: RunId, i: nat)
    requires i < |runs|
    ensures Claimed(runs[..i + 1], run) == Claimed(runs[..i], run) + if i == run then {} else Elements(runs[i].loads)
  {
    assert runs[..i + 1] == runs[..i] + [runs[i]];
  }

  // ---------------------------------------------------------------- attribution, over every history

  function Pending(p: Pipeline): seq<LoadId> { p.normalized + p.extracted }

  /** No package waits twice, none waits that has landed, and the extracting Run of each is known. */
  predicate PipelineInv(p: Pipeline) {
    && Distinct(Pending(p))
    && Elements(Pending(p)) !! p.landed
    && Elements(Pending(p)) + p.landed <= p.origin.Keys
  }

  /** dlt mints load ids it has never minted before. */
  predicate MintsFresh(p: Pipeline, f: Fate) { Distinct(f.minted) && Elements(f.minted) !! p.origin.Keys }

  /** What one call into dlt may do to the pipeline, and what its reply may name. */
  ghost predicate Honest(p: Pipeline, q: Pipeline, reply: Reply) {
    && PipelineInv(q)
    && p.landed <= q.landed
    && p.origin.Keys <= q.origin.Keys
    && (forall id :: id in p.origin ==> q.origin[id] == p.origin[id])
    && (reply.Info? && reply.info.Some? ==>
          && Distinct(reply.info.value.loads)
          && q.landed == p.landed + Elements(reply.info.value.loads)
          && Elements(reply.info.value.loads) !! p.landed)
  }

  lemma NormalizeIsHonest(p: Pipeline, f: Fate)
    requires PipelineInv(p)
    ensures PipelineInv(Normalize(p, f)) && Normalize(p, f).landed == p.landed && Normalize(p, f).origin == p.origin
    ensures Pending(Normalize(p, f)) == Pending(p)
  {
    var n := Least(f.moved, |p.extracted|);
    assert (p.normalized + p.extracted[..n]) + p.extracted[n..] == p.normalized + p.extracted;
  }

  /** Taking some packages off the front: what is taken and what is left share nothing. */
  lemma TakeFront(waiting: seq<LoadId>, n: nat, m: nat)
    requires n <= m <= |waiting| && Distinct(waiting)
    ensures Distinct(waiting[..n]) && Distinct(waiting[m..])
    ensures Elements(waiting[..n]) <= Elements(waiting) && Elements(waiting[m..]) <= Elements(waiting)
    ensures Elements(waiting[..n]) !! Elements(waiting[m..])
  {
    forall i | 0 <= i < |waiting[m..]| ensures waiting[m..][i] in Elements(waiting) {
      assert waiting[m + i] in Elements(waiting);
    }
  }

  lemma LoadIsHonest(p: Pipeline, f: Fate)
    requires PipelineInv(p)
    ensures var (q, reply) := Load(p, f);
            Honest(p, q, reply) && q.origin == p.origin
    ensures Elements(LoadedBy(p, f)) <= Elements(p.normalized)
  {
    var n := Least(f.loaded, |p.normalized|);
    var m := n + Least(f.aborted, |p.normalized| - n);
    var (q, reply) := Load(p, f);
    TakeFront(Pending(p), n, m);
    assert Pending(p)[..n] == p.normalized[..n];
    assert Pending(p)[m..] == p.normalized[n..][m - n..] + p.extracted == Pending(q);
    hide Distinct;
  }

  lemma ExtractIsHonest(p: Pipeline, run: RunId, f: Fate)
    requires PipelineInv(p) && MintsFresh(p, f)
    ensures var q := Extract(p, run, f);
            && PipelineInv(q) && q.landed == p.landed && p.origin.Keys <= q.origin.Keys
            && (forall id :: id in p.origin ==> q.origin[id] == p.origin[id])
            && (forall id :: id in q.origin ==> q.origin[id] == if id in Elements(f.minted) then run else p.origin[id])
  {
    assert p.normalized + (p.extracted + f.minted) == Pending(p) + f.minted;
    DistinctConcat(Pending(p), f.minted);
    ElementsConcat(Pending(p), f.minted);
  }

  /** A pipeline with nothing waiting normalizes and loads only what it just extracted. */
  lemma ExtractsOnly(p: Pipeline, run: RunId, f: Fate)
    requires !HasPendingData(p)
    ensures forall id :: id in LoadedBy(Normalize(Extract(p, run, f), f), f) ==> id in Elements(f.minted)
    ensures var (_, reply) := Load(Normalize(Extract(p, run, f), f), f);
            reply.Info? && reply.info.Some? ==> reply.info.value.loads == LoadedBy(Normalize(Extract(p, run, f), f), f)
    ensures forall id :: id in Elements(f.minted) ==> id in Extract(p, run, f).origin
  {
    var extracted := Extract(p, run, f);
    assert extracted.extracted == f.minted;
    var n := Least(f.moved, |f.minted|);
    assert Normalize(extracted, f).normalized == f.minted[..n];
  }

  /** Whatever dlt was doing when it stopped, its bookkeeping holds; with nothing waiting beforehand, all it
      reports loading is what this Run extracted. */
  lemma PipelineRunIsHonest(p: Pipeline, run: RunId, f: Fate)
    requires PipelineInv(p) && MintsFresh(p, f)
    ensures var (q, reply) := PipelineRun(p, run, f);
            && Honest(p, q, reply)
            && (forall id :: id in q.origin ==>
                  q.origin[id] == if id !in Elements(f.minted) && id in p.origin then p.origin[id] else run)
            && (!HasPendingData(p) && reply.Info? && reply.info.Some? ==>
                  forall id :: id in reply.info.value.loads ==> id in q.origin && q.origin[id] == run)
  {
    hide Extract, Load, Normalize, PipelineInv, Distinct;
    if p.extracted != [] {
      NormalizeIsHonest(p, f);
      var ready := Normalize(p, f);
      if f.normalize.Returned? {
        if ready.normalized != [] { LoadIsHonest(ready, f); } else { ExtractAndLoadIsHonest(ready, run, f); }
      }
    } else if p.normalized != [] {
      LoadIsHonest(p, f);
    } else {
      ExtractAndLoadIsHonest(p, run, f);
    }
  }

  lemma ExtractAndLoadIsHonest(p: Pipeline, run: RunId, f: Fate)
    requires PipelineInv(p) && MintsFresh(p, f)
    ensures var (q, reply) := ExtractAndLoad(p, run, f);
            && Honest(p, q, reply)
            && (forall id :: id in q.origin ==>
                  q.origin[id] == if id !in Elements(f.minted) && id in p.origin then p.origin[id] else run)
            && (!HasPendingData(p) && reply.Info? && reply.info.Some? ==>
                  forall id :: id in reply.info.value.loads ==> id in q.origin && q.origin[id] == run)
  {
    ExtractIsHonest(p, run, f);
    hide Extract, Load, PipelineInv, Distinct;
    var extracted := Extract(p, run, f);
    NormalizeIsHonest(extracted, f);
    LoadIsHonest(Normalize(extracted, f), f);
    if !HasPendingData(p) {
      ExtractsOnly(p, run, f);
    }
  }

  // ---------------------------------------------------------------- Runs and their loads

  /** What a Run has on record landed, once, and was extracted by that very Run; a recovery Run's was extracted
      by an ordinary Run started before it. */
  predicate Credits(p: Pipeline, runs: seq<RunRow>, i: nat)
    requires i < |runs|
  {
    && Distinct(runs[i].loads)
    && (runs[i].loads != [] ==> runs[i].status.Succeeded?)
    && (forall id :: id in runs[i].loads ==>
          && id in p.landed && id in p.origin
          && (if runs[i].recovery then p.origin[id] < i else p.origin[id] == i))
  }

  ghost predicate Inv(w: World) {
    && PipelineInv(w.pipeline)
    && (forall id :: id in w.pipeline.origin ==>
          w.pipeline.origin[id] < |w.runs| && !w.runs[w.pipeline.origin[id]].recovery)
    && (forall i :: 0 <= i < |w.runs| ==> Credits(w.pipeline, w.runs, i))
    && (forall i, j :: 0 <= i < j < |w.runs| ==> Elements(w.runs[i].loads) !! Elements(w.runs[j].loads))
  }

  /** No load a Run reports was ever on another Run's record: the stolen-load check cannot fire while the
      lease is exclusive. */
  lemma NothingIsStolen(w: World, run: RunId, q: Pipeline, reply: Reply)
    requires Inv(w) && Honest(w.pipeline, q, reply)
    ensures Judged(w.runs, run, reply) != Raises(StolenLoads)
    ensures Judged(w.runs, run, reply).Done? ==>
              Judged(w.runs, run, reply).loads == if reply.info.Some? then reply.info.value.loads else []
  {
    if reply.Info? && reply.info.Some? {
      forall id | id in Claimed(w.runs, run) ensures id in w.pipeline.landed {
        var i, k :| 0 <= i < |w.runs| && i != run && 0 <= k < |w.runs[i].loads| && w.runs[i].loads[k] == id;
        assert Credits(w.pipeline, w.runs, i) && id in w.runs[i].loads;
      }
      assert Elements(reply.info.value.loads) * Claimed(w.runs, run) == {};
    }
  }

  /** Recording what a call reported keeps every Run's record its own. */
  lemma EndingKeepsInv(w: World, run: RunId, q: Pipeline, reply: Reply, outcome: Outcome, saved: bool)
    requires Inv(w) && Honest(w.pipeline, q, reply) && run < |w.runs| && w.runs[run].loads == []
    requires forall id :: id in q.origin ==> q.origin[id] < |w.runs| && !w.runs[q.origin[id]].recovery
    requires outcome.Done? ==> outcome.loads == if reply.Info? && reply.info.Some? then reply.info.value.loads else []
    requires outcome.Done? ==> forall id :: id in outcome.loads ==>
               id in q.origin && if w.runs[run].recovery then q.origin[id] < run else q.origin[id] == run
    ensures Inv(World(q, w.runs[run := Ended(w.runs[run], outcome, saved)]))
  {
    var runs := w.runs[run := Ended(w.runs[run], outcome, saved)];
    hide PipelineInv, Distinct;
    forall i | 0 <= i < |runs| ensures Credits(q, runs, i) {
      assert Credits(w.pipeline, w.runs, i);
    }
    forall i | 0 <= i < |runs| && i != run ensures Elements(runs[i].loads) !! Elements(runs[run].loads) {
      assert Credits(w.pipeline, w.runs, i);
    }
  }

  lemma DrainIsHonest(p: Pipeline, runs: seq<RunRow>, run: RunId, f: Fate) returns (reply: Reply)
    requires PipelineInv(p)
    ensures var (q, outcome) := Drained(p, runs, run, f);
            && Honest(p, q, reply) && q.origin == p.origin
            && (outcome.Done? ==> outcome == Judged(runs, run, reply) && !HasPendingData(q))
  {
    hide PipelineInv, Distinct, Load, Normalize;
    reply := Info(None);
    if HasPendingData(p) {
      NormalizeIsHonest(p, f);
      var ready := if p.extracted != [] then Normalize(p, f) else p;
      if p.extracted != [] && !f.normalize.Returned? {
        reply := Interrupted(f.normalize);
      } else if ready.normalized != [] {
        LoadIsHonest(ready, f);
        reply := Load(ready, f).1;
      }
    }
  }

  lemma AppendKeepsInv(w: World, row: RunRow)
    requires Inv(w) && row.loads == []
    ensures Inv(World(w.pipeline, w.runs + [row]))
  {
    hide PipelineInv, Distinct;
    var runs := w.runs + [row];
    forall i | 0 <= i < |runs| ensures Credits(w.pipeline, runs, i) {
      if i < |w.runs| { assert Credits(w.pipeline, w.runs, i); } else { NothingDistinct(); }
    }
  }

  lemma NothingDistinct()
    ensures Distinct<LoadId>([])
  {
  }

  lemma RecoveredKeepsInv(w: World, c: Call)
    requires Inv(w)
    ensures var r := Recovered(w, c);
            && Inv(r.world) && r.world.pipeline.origin == w.pipeline.origin
            && |r.world.runs| >= |w.runs| && r.world.runs[..|w.runs|] == w.runs
            && (r.goesOn ==> !HasPendingData(r.world.pipeline))
  {
    if HasPendingData(w.pipeline) {
      var row := RunRow(true, Running, []);
      var runs := w.runs + [row];
      AppendKeepsInv(w, row);
      var reply := DrainIsHonest(w.pipeline, runs, |w.runs|, c.drain);
      var (p, outcome) := Drained(w.pipeline, runs, |w.runs|, c.drain);
      NothingIsStolen(World(w.pipeline, runs), |w.runs|, p, reply);
      hide Drained, PipelineInv;
      if outcome.Done? {
        forall id | id in outcome.loads ensures id in p.origin && p.origin[id] < |w.runs| {
          var i :| 0 <= i < |outcome.loads| && outcome.loads[i] == id;
          assert id in Elements(outcome.loads);
        }
      }
      EndingKeepsInv(World(w.pipeline, runs), |w.runs|, p, reply, outcome, c.drainSaved);
    }
  }

  lemma RanBindingKeepsInv(w: World, c: Call)
    requires Inv(w) && MintsFresh(w.pipeline, c.run)
    ensures Inv(RanBinding(w, c))
  {
    hide PipelineInv, Distinct, Honest, Credits;
    var run := |w.runs|;
    var started := World(w.pipeline, w.runs + [RunRow(false, Running, [])]);
    AppendKeepsInv(w, RunRow(false, Running, []));
    AppendKeepsInv(w, RunRow(false, Failed, []));
    AppendKeepsInv(w, RunRow(false, Skipped, []));
    var recovery := Recovered(started, c);
    RecoveredKeepsInv(started, c);
    if c.leased && c.runnable && !recovery.died {
      var world := recovery.world;
      assert world.runs[run] == world.runs[..|started.runs|][run] == RunRow(false, Running, []);
      if recovery.goesOn {
        ExecutedKeepsInv(world, run, c.sourceBuilt, c.run, c.runSaved);
      } else {
        UntouchedIsHonest(world.pipeline);
        EndingKeepsInv(world, run, world.pipeline, Exception, Raises(PendingPackages), true);
      }
    }
  }

  lemma UntouchedIsHonest(p: Pipeline)
    requires PipelineInv(p)
    ensures Honest(p, p, Exception)
  {
  }

  lemma ExecutedKeepsInv(w: World, run: RunId, sourceBuilt: bool, f: Fate, saved: bool)
    requires Inv(w) && MintsFresh(w.pipeline, f) && run < |w.runs| && w.runs[run] == RunRow(false, Running, [])
    requires !HasPendingData(w.pipeline)
    ensures var (p, outcome) := Executed(w.pipeline, w.runs, run, false, sourceBuilt, f);
            && Inv(World(p, w.runs[run := Ended(w.runs[run], outcome, saved)]))
            && outcome != Raises(StolenLoads)
  {
    PipelineRunIsHonest(w.pipeline, run, f);
    UntouchedIsHonest(w.pipeline);
    var (q, reply) := PipelineRun(w.pipeline, run, f);
    var (p, outcome) := Executed(w.pipeline, w.runs, run, false, sourceBuilt, f);
    NothingIsStolen(w, run, q, reply);
    hide PipelineRun, PipelineInv, Distinct;
    EndingKeepsInv(w, run, p, if sourceBuilt then reply else Exception, outcome, saved);
  }

  // ---------------------------------------------------------------- the promises

  /** A Binding after these calls of `run_binding`, one after another. */
  function History(calls: seq<Call>): World {
    if calls == [] then World(Pipeline([], [], {}, map[]), [])
    else RanBinding(History(calls[..|calls| - 1]), calls[|calls| - 1])
  }

  ghost predicate AlwaysMintsFresh(calls: seq<Call>) {
    forall n :: 0 <= n < |calls| ==> MintsFresh(History(calls[..n]).pipeline, calls[n].run)
  }

  lemma {:induction false} HistoryKeepsInv(calls: seq<Call>)
    requires AlwaysMintsFresh(calls)
    ensures Inv(History(calls))
  {
    hide Inv, RanBinding;
    if calls == [] {
      NothingYet();
    } else {
      var n := |calls| - 1;
      assert forall k :: 0 <= k < n ==> calls[..n][..k] == calls[..k];
      HistoryKeepsInv(calls[..n]);
      RanBindingKeepsInv(History(calls[..n]), calls[n]);
    }
  }

  lemma NothingYet()
    ensures Inv(World(Pipeline([], [], {}, map[]), []))
  {
  }

  /** Over every history of failures and crashes: no load id is on two Runs' records, an ordinary Run records
      only packages it extracted itself, and a recovery Run only packages of Runs before it. */
  lemma LoadsAreCreditedOnce(calls: seq<Call>, i: nat, j: nat)
    requires AlwaysMintsFresh(calls) && i < j < |History(calls).runs|
    ensures var (p, runs) := (History(calls).pipeline, History(calls).runs);
            && (forall id :: id in runs[i].loads ==> id !in runs[j].loads)
            && (runs[j].loads != [] ==> runs[j].status.Succeeded?)
            && (forall id :: id in runs[j].loads ==>
                  && id in p.landed && id in p.origin
                  && if runs[j].recovery then p.origin[id] < j && !runs[p.origin[id]].recovery else p.origin[id] == j)
  {
    HistoryKeepsInv(calls);
    var runs := History(calls).runs;
    hide History, PipelineInv;
    assert Credits(History(calls).pipeline, runs, j);
    forall id | id in runs[i].loads ensures id !in runs[j].loads {
      assert id in Elements(runs[i].loads);
      assert id in runs[j].loads ==> id in Elements(runs[j].loads);
    }
  }

  /** What a call that succeeds has on record is exactly what it landed, when dlt reports at all. */
  lemma RecordIsComplete(w: World, run: RunId, f: Fate)
    requires Inv(w) && MintsFresh(w.pipeline, f) && !HasPendingData(w.pipeline) && f.reported
    ensures var (q, outcome) := Executed(w.pipeline, w.runs, run, false, true, f);
            && (outcome.Done? ==> q.landed == w.pipeline.landed + Elements(outcome.loads))
            && (outcome.Done? ==> Elements(outcome.loads) !! w.pipeline.landed)
  {
    PipelineRunIsHonest(w.pipeline, run, f);
    var (q, reply) := PipelineRun(w.pipeline, run, f);
    NothingIsStolen(w, run, q, reply);
  }

  /** Refusing to run over waiting packages is what makes attribution true: `execute` records only its own
      packages whatever dlt does, exactly when nothing waits or `allow_pending` is off. */
  lemma OwnLoadsIff(w: World, run: RunId, allowPending: bool)
    requires Inv(w)
    ensures (forall f: Fate :: MintsFresh(w.pipeline, f) ==> RecordsOnlyMinted(w, run, allowPending, f))
       <==> !allowPending || !HasPendingData(w.pipeline)
  {
    if allowPending && HasPendingData(w.pipeline) {
      var p := w.pipeline;
      var f := Fate(Returned, [], Returned, |p.extracted|, Returned, |p.normalized| + |p.extracted|, 0, false, true);
      WaitingIsLoaded(w, run, f);
      assert MintsFresh(p, f);
    } else {
      forall f: Fate | MintsFresh(w.pipeline, f) ensures RecordsOnlyMinted(w, run, allowPending, f) {
        if !HasPendingData(w.pipeline) {
          PipelineRunIsHonest(w.pipeline, run, f);
          var (q, reply) := PipelineRun(w.pipeline, run, f);
          NothingIsStolen(w, run, q, reply);
          ExtractsOnly(w.pipeline, run, f);
        }
      }
    }
  }

  predicate RecordsOnlyMinted(w: World, run: RunId, allowPending: bool, f: Fate) {
    var (_, outcome) := Executed(w.pipeline, w.runs, run, allowPending, true, f);
    outcome.Done? ==> forall id :: id in outcome.loads ==> id in Elements(f.minted)
  }

  lemma WaitingIsLoaded(w: World, run: RunId, f: Fate)
    requires Inv(w) && HasPendingData(w.pipeline)
    requires f == Fate(Returned, [], Returned, |w.pipeline.extracted|, Returned,
                       |w.pipeline.normalized| + |w.pipeline.extracted|, 0, false, true)
    ensures !RecordsOnlyMinted(w, run, true, f)
  {
    PipelineRunIsHonest(w.pipeline, run, f);
    var (q, reply) := PipelineRun(w.pipeline, run, f);
    NothingIsStolen(w, run, q, reply);
    assert w.pipeline.extracted[..|w.pipeline.extracted|] == w.pipeline.extracted;
    assert reply.info.value.loads == Pending(w.pipeline);
    hide PipelineRun, Honest, Inv, Load, Normalize, Extract;
    var (_, outcome) := Executed(w.pipeline, w.runs, run, true, true, f);
    assert outcome == Judged(w.runs, run, reply) && outcome.Done? && outcome.loads == Pending(w.pipeline);
    assert outcome.loads[0] in outcome.loads && outcome.loads[0] !in Elements(f.minted);
  }
}
