/** Loads, projection runs and sweeps around one Projection, and what the host ends up holding.
    (django_connectors/services/projections.py, projections/runner.py execute and dispatch_pending,
    landing/access.py binding_relation) */
module Convergence {
  import opened Values
  import opened ProjectionRunner

  type Key = seq<Value>
  type LoadId = string

  datatype Landed = Landed(row: Row, load: LoadId)

  type LandingTable = map<Key, Landed>

  datatype Status = Queued | Running | Succeeded | Failed | Superseded

  /** A ProjectionRun; `full` covers the whole table and records no load ids. */
  datatype ProjectionRun = ProjectionRun(status: Status, full: bool, version: nat, loads: seq<LoadId>, createdAt: int)

  /** A succeeded ingestion Run of the Binding and the load ids it recorded. */
  datatype IngestionRun = IngestionRun(createdAt: int, loads: seq<LoadId>)

  // ---------------------------------------------------------------- the scope of one execution

  predicate InScope(landed: Landed, run: ProjectionRun) { run.full || landed.load in run.loads }

  /** `keys` lists the landed rows a run reads, each once. The source sorts them; no order is assumed here. */
  ghost predicate IsScope(landing: LandingTable, run: ProjectionRun, keys: seq<Key>) {
    && (forall i :: 0 <= i < |keys| ==> keys[i] in landing && InScope(landing[keys[i]], run))
    && (forall i, j :: 0 <= i < j < |keys| ==> keys[i] != keys[j])
    && (forall k :: k in landing && InScope(landing[k], run) ==> k in keys)
  }

  /** A run over these rows can end well: none of them stops it. */
  predicate Completable(cfg: Config, landing: LandingTable, run: ProjectionRun) {
    forall k :: k in landing && InScope(landing[k], run) ==> !Fatal(cfg, landing[k].row)
  }

  function RowsOf(landing: LandingTable, keys: seq<Key>): (rows: seq<Row>)
    requires forall i :: 0 <= i < |keys| ==> keys[i] in landing
    ensures |rows| == |keys| && forall i :: 0 <= i < |keys| ==> rows[i] == landing[keys[i]].row
  {
    seq(|keys|, i requires 0 <= i < |keys| => landing[keys[i]].row)
  }

  /** The target identity is an injective function of the merge key. */
  ghost predicate Injective(idOf: Key -> Identity) {
    forall k1, k2 :: idOf(k1) == idOf(k2) ==> k1 == k2
  }

  ghost predicate IdentityFollowsKey(cfg: Config, idOf: Key -> Identity, landing: LandingTable) {
    forall k :: k in landing ==> forall r :: r in RecordOf(cfg, landing[k].row) ==> r.identity == idOf(k)
  }

  /** The host holds what this one row projects to. */
  predicate Reflects(cfg: Config, host: HostTable, row: Row) {
    var records := RecordOf(cfg, row);
    records == [] ||
    match records[0]
    case Upsert(id, values) => Lookup(host, id) == Some(values)
    case Delete(id) => Lookup(host, id) == None
  }

  lemma {:induction false} RecordsComeFromRows(cfg: Config, rows: seq<Row>, r: Record)
    ensures r in Records(cfg, rows) <==> exists i :: 0 <= i < |rows| && r in RecordOf(cfg, rows[i])
  {
    hide RecordOf;
    if rows != [] {
      var n := |rows| - 1;
      RecordsComeFromRows(cfg, rows[..n], r);
      if r in Records(cfg, rows[..n]) {
        var i :| 0 <= i < n && r in RecordOf(cfg, rows[..n][i]);
        assert rows[..n][i] == rows[i];
      }
      if i :| 0 <= i < |rows| && r in RecordOf(cfg, rows[i]) {
        if i < n { assert rows[..n][i] == rows[i]; }
      }
    }
  }

  /** The only record a scope's stream holds for a key's identity is that key's own. */
  lemma StreamAtIdentity(cfg: Config, idOf: Key -> Identity, landing: LandingTable, keys: seq<Key>, k: Key, r: Record)
    requires Injective(idOf) && IdentityFollowsKey(cfg, idOf, landing) && k in landing
    requires forall i :: 0 <= i < |keys| ==> keys[i] in landing
    ensures r in Records(cfg, RowsOf(landing, keys)) && r.identity == idOf(k)
        ==> k in keys && RecordOf(cfg, landing[k].row) == [r]
    ensures k in keys && RecordOf(cfg, landing[k].row) == [r] ==> r in Records(cfg, RowsOf(landing, keys))
  {
    var rows := RowsOf(landing, keys);
    RecordsComeFromRows(cfg, rows, r);
    if r in Records(cfg, rows) && r.identity == idOf(k) {
      var i :| 0 <= i < |rows| && r in RecordOf(cfg, rows[i]);
      assert idOf(keys[i]) == idOf(k);
    }
    if k in keys && RecordOf(cfg, landing[k].row) == [r] {
      var i :| 0 <= i < |keys| && keys[i] == k;
      assert r in RecordOf(cfg, rows[i]);
    }
  }

  /** A completed execution makes the host reflect every row it read. */
  lemma ExecutionReflects(cfg: Config, idOf: Key -> Identity, landing: LandingTable, run: ProjectionRun, keys: seq<Key>,
                          before: HostTable, after: HostTable, k: Key)
    requires Injective(idOf) && IdentityFollowsKey(cfg, idOf, landing) && IsScope(landing, run, keys)
    requires IsReplay(before, Records(cfg, RowsOf(landing, keys)), after)
    requires k in landing && (InScope(landing[k], run) || Reflects(cfg, before, landing[k].row))
    ensures Reflects(cfg, after, landing[k].row)
  {
    var records := RecordOf(cfg, landing[k].row);
    var stream := Records(cfg, RowsOf(landing, keys));
    if records != [] {
      var id := idOf(k);
      assert records[0] in records && records[0].identity == id;
      forall r: Record ensures r in stream && r.identity == id <==> k in keys && r == records[0] {
        StreamAtIdentity(cfg, idOf, landing, keys, k, r);
      }
      LastUpsertIsThere(stream, id);
      assert Lookup(after, id) == Outcome(Lookup(before, id), stream, id);
    }
  }

  /** An execution cut short leaves every row the host already reflected as it was. */
  lemma PartialKeepsReflected(cfg: Config, idOf: Key -> Identity, landing: LandingTable, run: ProjectionRun,
                              keys: seq<Key>,
                              before: HostTable, after: HostTable, k: Key)
    requires Injective(idOf) && IdentityFollowsKey(cfg, idOf, landing) && IsScope(landing, run, keys)
    requires IsPartial(before, Records(cfg, RowsOf(landing, keys)), after)
    requires k in landing && Reflects(cfg, before, landing[k].row)
    ensures Reflects(cfg, after, landing[k].row)
  {
    var records := RecordOf(cfg, landing[k].row);
    if records != [] {
      var id := idOf(k);
      assert records[0] in records;
      if id in after { StreamAtIdentity(cfg, idOf, landing, keys, k, Upsert(id, after[id])); }
      StreamAtIdentity(cfg, idOf, landing, keys, k, Delete(id));
    }
  }

  // ---------------------------------------------------------------- the whole system, over any interleaving

  datatype System = System(landing: LandingTable, host: HostTable, runs: seq<ProjectionRun>,
                           recorded: seq<IngestionRun>)

  datatype Event =
    | Load(load: LoadId, package: map<Key, Row>, replaced: set<Key>, recordedAt: Option<int>)
    | Queue(run: ProjectionRun)
    | Complete(i: nat)
    | CutShort(i: nat, status: Status)
    | Mark(i: nat, status: Status)

  function Mentioned(runs: seq<ProjectionRun>): set<LoadId> {
    set i, l | 0 <= i < |runs| && l in runs[i].loads :: l
  }

  function LoadsIn(landing: LandingTable): set<LoadId> {
    set k | k in landing :: landing[k].load
  }

  /** A delete-insert load: `replaced` rows go, the package's rows come in under the new load id. */
  function Merged(landing: LandingTable, load: LoadId, package: map<Key, Row>, replaced: set<Key>): LandingTable {
    (landing - replaced) + map k | k in package :: Landed(package[k], load)
  }

  function WithStatus(runs: seq<ProjectionRun>, i: nat, status: Status): seq<ProjectionRun>
    requires i < |runs|
  {
    runs[i := runs[i].(status := status)]
  }

  /** One step. A load id is new when it lands; a body that completes is what makes a run succeed. */
  ghost predicate Next(cfg: Config, idOf: Key -> Identity, s: System, e: Event, t: System) {
    match e
    case Load(load, package, replaced, recordedAt) =>
      && load !in Mentioned(s.runs) + LoadsIn(s.landing)
      && t == s.(landing := Merged(s.landing, load, package, replaced),
                 recorded := s.recorded + if recordedAt.Some? then [IngestionRun(recordedAt.value, [load])] else [])
      && IdentityFollowsKey(cfg, idOf, t.landing)
    case Queue(run) => run.status == Queued && t == s.(runs := s.runs + [run])
    case Complete(i) =>
      && i < |s.runs| && Completable(cfg, s.landing, s.runs[i])
      && (exists keys :: IsScope(s.landing, s.runs[i], keys)
            && IsReplay(s.host, Records(cfg, RowsOf(s.landing, keys)), t.host))
      && t == s.(host := t.host, runs := WithStatus(s.runs, i, Succeeded))
    case CutShort(i, status) =>
      && i < |s.runs| && !status.Succeeded?
      && (exists keys :: IsScope(s.landing, s.runs[i], keys)
            && IsPartial(s.host, Records(cfg, RowsOf(s.landing, keys)), t.host))
      && t == s.(host := t.host, runs := WithStatus(s.runs, i, status))
    case Mark(i, status) =>
      && i < |s.runs| && !status.Succeeded?
      && t == s.(runs := WithStatus(s.runs, i, status))
  }

  ghost predicate Trace(cfg: Config, idOf: Key -> Identity, states: seq<System>, events: seq<Event>) {
    && |states| == |events| + 1
    && states[0] == System(map[], states[0].host, [], [])
    && forall i :: 0 <= i < |events| ==> Next(cfg, idOf, states[i], events[i], states[i + 1])
  }

  predicate Covered(runs: seq<ProjectionRun>, load: LoadId) {
    exists i :: 0 <= i < |runs| && runs[i].status.Succeeded? && load in runs[i].loads
  }

  /** Every landed row whose load some run has covered is reflected by the host, no matter what else ran since. */
  ghost predicate CoveredRowsReflected(cfg: Config, s: System) {
    forall k :: k in s.landing && Covered(s.runs, s.landing[k].load) ==> Reflects(cfg, s.host, s.landing[k].row)
  }

  ghost predicate Inv(cfg: Config, idOf: Key -> Identity, s: System) {
    IdentityFollowsKey(cfg, idOf, s.landing) && CoveredRowsReflected(cfg, s)
  }

  lemma LoadKeepsInv(cfg: Config, idOf: Key -> Identity, s: System, e: Event, t: System)
    requires Inv(cfg, idOf, s) && Next(cfg, idOf, s, e, t) && e.Load?
    ensures CoveredRowsReflected(cfg, t)
  {
    hide Reflects, IdentityFollowsKey;
    forall k | k in t.landing && Covered(t.runs, t.landing[k].load)
      ensures Reflects(cfg, t.host, t.landing[k].row)
    {
      var c :| 0 <= c < |s.runs| && s.runs[c].status.Succeeded? && t.landing[k].load in s.runs[c].loads;
      assert t.landing[k].load in Mentioned(s.runs);
      assert s.landing[k] == t.landing[k];
    }
  }

  /** Only a completed run covers loads, and the rows it covers are in its scope. */
  lemma CoveredBefore(s: System, e: Event, runs: seq<ProjectionRun>, load: LoadId)
    requires match e
             case Load(_, _, _, _) => false
             case Queue(run) => run.status == Queued && runs == s.runs + [run]
             case Complete(i) => i < |s.runs| && runs == WithStatus(s.runs, i, Succeeded)
             case CutShort(i, status) => i < |s.runs| && !status.Succeeded? && runs == WithStatus(s.runs, i, status)
             case Mark(i, status) => i < |s.runs| && !status.Succeeded? && runs == WithStatus(s.runs, i, status)
    requires Covered(runs, load)
    ensures Covered(s.runs, load) || (e.Complete? && load in s.runs[e.i].loads)
  {
    var c :| 0 <= c < |runs| && runs[c].status.Succeeded? && load in runs[c].loads;
    if c < |s.runs| && !(e.Complete? && c == e.i) { assert s.runs[c] == runs[c]; }
  }

  lemma StepKeepsInv(cfg: Config, idOf: Key -> Identity, s: System, e: Event, t: System)
    requires Injective(idOf) && Inv(cfg, idOf, s) && Next(cfg, idOf, s, e, t)
    ensures Inv(cfg, idOf, t)
  {
    hide Reflects, IsReplay, IsPartial, Records, RecordOf, Covered, IdentityFollowsKey, Injective, Completable;
    hide WithStatus;
    if e.Load? {
      LoadKeepsInv(cfg, idOf, s, e, t);
    } else {
      forall k | k in t.landing && Covered(t.runs, t.landing[k].load)
        ensures Reflects(cfg, t.host, t.landing[k].row)
      {
        CoveredBefore(s, e, t.runs, t.landing[k].load);
        if e.Complete? {
          var keys :|
            && IsScope(s.landing, s.runs[e.i], keys)
            && IsReplay(s.host, Records(cfg, RowsOf(s.landing, keys)), t.host);
          ExecutionReflects(cfg, idOf, s.landing, s.runs[e.i], keys, s.host, t.host, k);
        } else if e.CutShort? {
          var keys :|
            && IsScope(s.landing, s.runs[e.i], keys)
            && IsPartial(s.host, Records(cfg, RowsOf(s.landing, keys)), t.host);
          PartialKeepsReflected(cfg, idOf, s.landing, s.runs[e.i], keys, s.host, t.host, k);
        }
      }
    }
  }

  /** `t` is what some sequence of steps makes of `s`. */
  ghost predicate Leads(cfg: Config, idOf: Key -> Identity, s: System, states: seq<System>, events: seq<Event>,
                        t: System)
  {
    && |states| == |events| + 1 && states[0] == s && states[|events|] == t
    && forall i :: 0 <= i < |events| ==> Next(cfg, idOf, states[i], events[i], states[i + 1])
  }

  ghost predicate Reaches(cfg: Config, idOf: Key -> Identity, s: System, t: System) {
    exists states, events :: Leads(cfg, idOf, s, states, events, t)
  }

  lemma ReachesItself(cfg: Config, idOf: Key -> Identity, s: System)
    ensures Reaches(cfg, idOf, s, s)
  {
    assert Leads(cfg, idOf, s, [s], [], s);
  }

  lemma ReachesNext(cfg: Config, idOf: Key -> Identity, s: System, t: System, e: Event, u: System)
    requires Reaches(cfg, idOf, s, t) && Next(cfg, idOf, t, e, u)
    ensures Reaches(cfg, idOf, s, u)
  {
    hide Next;
    var states, events :| Leads(cfg, idOf, s, states, events, t);
    var more := states + [u];
    assert forall i :: 0 <= i <= |events| ==> more[i] == states[i];
    assert Leads(cfg, idOf, s, more, events + [e], u);
  }

  lemma ReachesOn(cfg: Config, idOf: Key -> Identity, s: System, t: System, u: System)
    requires Reaches(cfg, idOf, s, t) && Reaches(cfg, idOf, t, u)
    ensures Reaches(cfg, idOf, s, u)
  {
    hide Next;
    var first, one :| Leads(cfg, idOf, s, first, one, t);
    var second, two :| Leads(cfg, idOf, t, second, two, u);
    var states, events := first + second[1..], one + two;
    assert forall i :: 0 <= i <= |one| ==> states[i] == first[i];
    assert forall i :: 0 <= i <= |two| ==> states[|one| + i] == second[i];
    forall i | 0 <= i < |events| ensures Next(cfg, idOf, states[i], events[i], states[i + 1]) {
      if i >= |one| { assert Next(cfg, idOf, second[i - |one|], two[i - |one|], second[i - |one| + 1]); }
    }
    assert Leads(cfg, idOf, s, states, events, u);
  }

  lemma {:induction false} LeadsKeepsInv(cfg: Config, idOf: Key -> Identity, s: System, states: seq<System>,
                                         events: seq<Event>, t: System)
    requires Injective(idOf) && Inv(cfg, idOf, s) && Leads(cfg, idOf, s, states, events, t)
    ensures Inv(cfg, idOf, t)
  {
    hide Next, Inv, Injective;
    if events != [] {
      var n := |events| - 1;
      assert Leads(cfg, idOf, s, states[..n + 1], events[..n], states[n]);
      LeadsKeepsInv(cfg, idOf, s, states[..n + 1], events[..n], states[n]);
      StepKeepsInv(cfg, idOf, states[n], events[n], t);
    }
  }

  /** Whatever is reached keeps every covered row reflected. */
  lemma ReachesKeepsInv(cfg: Config, idOf: Key -> Identity, s: System, t: System)
    requires Injective(idOf) && Inv(cfg, idOf, s) && Reaches(cfg, idOf, s, t)
    ensures Inv(cfg, idOf, t)
  {
    hide Inv, Injective, Leads;
    var states, events :| Leads(cfg, idOf, s, states, events, t);
    LeadsKeepsInv(cfg, idOf, s, states, events, t);
  }

  lemma {:induction false} TraceKeepsInv(cfg: Config, idOf: Key -> Identity, states: seq<System>, events: seq<Event>,
                                         i: nat)
    requires Injective(idOf) && Trace(cfg, idOf, states, events) && i < |states|
    ensures Inv(cfg, idOf, states[i])
  {
    hide Next, Injective;
    if i == 0 {
      assert states[0].landing == map[];
    } else {
      hide Inv;
      TraceKeepsInv(cfg, idOf, states, events, i - 1);
      StepKeepsInv(cfg, idOf, states[i - 1], events[i - 1], states[i]);
    }
  }

  /** Replaying every landed row over this host changes nothing. */
  ghost predicate ReplayIsNoOp(cfg: Config, s: System) {
    forall keys, run: ProjectionRun :: run.full && IsScope(s.landing, run, keys)
      ==> IsReplay(s.host, Records(cfg, RowsOf(s.landing, keys)), s.host)
  }

  lemma AllReflectedIsReplayed(cfg: Config, idOf: Key -> Identity, s: System)
    requires Injective(idOf) && IdentityFollowsKey(cfg, idOf, s.landing)
    requires forall k :: k in s.landing ==> Reflects(cfg, s.host, s.landing[k].row)
    ensures ReplayIsNoOp(cfg, s)
  {
    forall keys, run: ProjectionRun, id | run.full && IsScope(s.landing, run, keys)
      ensures Lookup(s.host, id) == Outcome(Lookup(s.host, id), Records(cfg, RowsOf(s.landing, keys)), id)
    {
      ReflectedIdentityIsReplayed(cfg, idOf, s, keys, id);
    }
  }

  lemma ReflectedIdentityIsReplayed(cfg: Config, idOf: Key -> Identity, s: System, keys: seq<Key>, id: Identity)
    requires Injective(idOf) && IdentityFollowsKey(cfg, idOf, s.landing)
    requires forall k :: k in s.landing ==> Reflects(cfg, s.host, s.landing[k].row)
    requires forall i :: 0 <= i < |keys| ==> keys[i] in s.landing
    ensures Lookup(s.host, id) == Outcome(Lookup(s.host, id), Records(cfg, RowsOf(s.landing, keys)), id)
  {
    var rows := RowsOf(s.landing, keys);
    var stream := Records(cfg, rows);
    LastUpsertIsThere(stream, id);
    if r: Record :| r in stream && r.identity == id {
      RecordsComeFromRows(cfg, rows, r);
      var i :| 0 <= i < |rows| && r in RecordOf(cfg, rows[i]);
      var k := keys[i];
      assert id == idOf(k) && Reflects(cfg, s.host, s.landing[k].row);
      forall q: Record | q in stream && q.identity == id ensures q == r {
        StreamAtIdentity(cfg, idOf, s.landing, keys, k, q);
      }
    }
  }

  /** Convergence: whatever the order of loads, completed, failed, partial, retried and swept runs, once
      each load id still in the landing table was covered by some completed run, the host holds exactly
      what a full replay would write. */
  lemma Convergence(cfg: Config, idOf: Key -> Identity, states: seq<System>, events: seq<Event>)
    requires Injective(idOf) && Trace(cfg, idOf, states, events)
    requires var s := states[|events|]; forall k :: k in s.landing ==> Covered(s.runs, s.landing[k].load)
    ensures ReplayIsNoOp(cfg, states[|events|])
  {
    TraceKeepsInv(cfg, idOf, states, events, |events|);
    AllReflectedIsReplayed(cfg, idOf, states[|events|]);
  }

  // ---------------------------------------------------------------- the sweeper's set difference

  predicate Active(run: ProjectionRun) { run.status.Succeeded? || run.status.Queued? || run.status.Running? }

  function ActiveLoads(runs: seq<ProjectionRun>): set<LoadId> {
    set i, l | 0 <= i < |runs| && Active(runs[i]) && l in runs[i].loads :: l
  }

  /** The load ids of the Binding's succeeded Runs since the horizon, oldest first. */
  function HorizonLoads(recorded: seq<IngestionRun>, horizon: int): seq<LoadId> {
    if recorded == [] then []
    else
      var last := recorded[|recorded| - 1];
      HorizonLoads(recorded[..|recorded| - 1], horizon) + if last.createdAt >= horizon then last.loads else []
  }

  function Without(loads: seq<LoadId>, projected: set<LoadId>): (left: seq<LoadId>)
    ensures forall l :: l in left <==> l in loads && l !in projected
  {
    if loads == [] then []
    else
      var last := loads[|loads| - 1];
      Without(loads[..|loads| - 1], projected) + if last in projected then [] else [last]
  }

  function Outstanding(runs: seq<ProjectionRun>, recorded: seq<IngestionRun>, horizon: int): seq<LoadId> {
    Without(HorizonLoads(recorded, horizon), ActiveLoads(runs))
  }

  ghost predicate Disjoint(runs: seq<ProjectionRun>) {
    forall i, j, l :: 0 <= i < j < |runs| && Active(runs[i]) && Active(runs[j]) && l in runs[i].loads
      ==> l !in runs[j].loads
  }

  /** Adding or reviving a run keeps loads covered once exactly when no active run has one of them. */
  lemma DisjointIffUnclaimed(runs: seq<ProjectionRun>, run: ProjectionRun)
    requires Disjoint(runs) && Active(run)
    ensures Disjoint(runs + [run]) <==> forall l :: l in run.loads ==> l !in ActiveLoads(runs)
  {
    var more := runs + [run];
    assert more[|runs|] == run && forall i :: 0 <= i < |runs| ==> more[i] == runs[i];
    if l :| l in run.loads && l in ActiveLoads(runs) {
      var i :| 0 <= i < |runs| && Active(runs[i]) && l in runs[i].loads;
      assert Active(more[i]) && l in more[i].loads && l in more[|runs|].loads;
    } else {
      forall i, j, l | 0 <= i < j < |more| && Active(more[i]) && Active(more[j]) && l in more[i].loads
        ensures l !in more[j].loads
      {
        if j == |runs| { assert l in ActiveLoads(runs); }
      }
    }
  }

  /** The sweep that `dispatch_pending` makes of the run table. */
  function Swept(runs: seq<ProjectionRun>, recorded: seq<IngestionRun>, horizon: int, version: nat,
                 now: int): seq<ProjectionRun>
  {
    var outstanding := Outstanding(runs, recorded, horizon);
    if outstanding == [] then runs
    else runs + [ProjectionRun(Queued, false, version, outstanding, now)]
  }

  /** A sweep covers every load of the horizon once and makes an immediate second sweep idle. */
  lemma SweepConserves(runs: seq<ProjectionRun>, recorded: seq<IngestionRun>, horizon: int, version: nat, now: int)
    requires Disjoint(runs)
    ensures var swept := Swept(runs, recorded, horizon, version, now);
            && Disjoint(swept)
            && (forall l :: l in HorizonLoads(recorded, horizon) ==> l in ActiveLoads(swept))
            && (forall l :: l in ActiveLoads(swept) <==> l in ActiveLoads(runs) || l in HorizonLoads(recorded, horizon))
            && Swept(swept, recorded, horizon, version, now) == swept
  {
    var swept := Swept(runs, recorded, horizon, version, now);
    var outstanding := Outstanding(runs, recorded, horizon);
    if outstanding != [] {
      DisjointIffUnclaimed(runs, swept[|runs|]);
      forall l ensures l in ActiveLoads(swept) <==> l in ActiveLoads(runs) || l in outstanding {
        if l in ActiveLoads(runs) {
          var i :| 0 <= i < |runs| && Active(runs[i]) && l in runs[i].loads;
          assert swept[i] == runs[i];
        }
        if l in outstanding { assert swept[|runs|].loads == outstanding; }
        if l in ActiveLoads(swept) {
          var i :| 0 <= i < |swept| && Active(swept[i]) && l in swept[i].loads;
          if i < |runs| { assert swept[i] == runs[i]; }
        }
      }
    }
    EmptyIffNone(Outstanding(swept, recorded, horizon));
    EmptyIffNone(outstanding);
  }

  lemma EmptyIffNone(loads: seq<LoadId>)
    ensures loads == [] <==> forall l :: l !in loads
  {
    if loads != [] { assert loads[0] in loads; }
  }

  ghost predicate RevivesUnclaimed(runs: seq<ProjectionRun>, i: nat, status: Status)
    requires i < |runs|
  {
    || Active(runs[i])
    || !Active(runs[i].(status := status))
    || forall j, l :: 0 <= j < |runs| && Active(runs[j]) && l in runs[j].loads ==> l !in runs[i].loads
  }

  lemma StatusKeepsDisjointIff(runs: seq<ProjectionRun>, i: nat, status: Status)
    requires Disjoint(runs) && i < |runs|
    ensures Disjoint(WithStatus(runs, i, status)) <==> RevivesUnclaimed(runs, i, status)
  {
    var after := WithStatus(runs, i, status);
    assert forall j :: 0 <= j < |runs| ==> after[j].loads == runs[j].loads && (j != i ==> after[j] == runs[j]);
    if RevivesUnclaimed(runs, i, status) {
      forall a, b, l | 0 <= a < b < |after| && Active(after[a]) && Active(after[b]) && l in after[a].loads
        ensures l !in after[b].loads
      {
      }
    } else {
      var j, l :| 0 <= j < |runs| && Active(runs[j]) && l in runs[j].loads && l in runs[i].loads;
      assert Active(after[j]) && Active(after[i]) && l in after[j].loads && l in after[i].loads;
    }
  }

  /** A quiet sweeper means a converged host: when nothing is outstanding, nothing is queued or running,
      and every load still in the landing table was recorded since the horizon, a replay is a no-op. */
  lemma QuietSweeperHasConverged(cfg: Config, idOf: Key -> Identity, states: seq<System>, events: seq<Event>,
                                 horizon: int)
    requires Injective(idOf) && Trace(cfg, idOf, states, events)
    requires var s := states[|events|];
             && Outstanding(s.runs, s.recorded, horizon) == []
             && (forall i :: 0 <= i < |s.runs| ==> !s.runs[i].status.Queued? && !s.runs[i].status.Running?)
             && (forall k :: k in s.landing ==> s.landing[k].load in HorizonLoads(s.recorded, horizon))
    ensures ReplayIsNoOp(cfg, states[|events|])
  {
    var s := states[|events|];
    forall k | k in s.landing ensures Covered(s.runs, s.landing[k].load) {
      var load := s.landing[k].load;
      EmptyIffNone(Outstanding(s.runs, s.recorded, horizon));
      assert load in ActiveLoads(s.runs);
      var i :| 0 <= i < |s.runs| && Active(s.runs[i]) && load in s.runs[i].loads;
      assert s.runs[i].status.Succeeded?;
    }
    Convergence(cfg, idOf, states, events);
  }
}
