/** A mapping edited while its projection runs are queued, retried and swept.
    (django_connectors/services/projections.py update_mapping and replay_projection, projections/runner.py execute) */
module MappingChange {
  import opened Values
  import opened Compiler
  import opened Mapping
  import opened ProjectionRunner
  import opened Convergence

  /** The mapping each version stands for, and the identity it gives the row of each merge key. */
  type Mappings = nat -> Config
  type Identities = nat -> (Key -> Identity)

  /** `covered` are the loads some run has completed over since the last edit. */
  datatype Versioned = Versioned(system: System, version: nat, covered: set<LoadId>)

  /** `seen` is the version of the copy of the Projection a step works from. */
  datatype Change = Edit | Run(e: Event, seen: nat)

  predicate Executes(c: Change) { c.Run? && (c.e.Complete? || c.e.CutShort?) }

  /** What a completed run covers: its load ids, or for a replay every load then in the table. */
  function CoveredBy(s: System, i: nat): set<LoadId>
    requires i < |s.runs|
  {
    if s.runs[i].full then LoadsIn(s.landing) else set l | l in s.runs[i].loads
  }

  /** One step. An edit bumps the version and touches nothing else. An execution compiles the mapping of the copy it
      works from, and a run queued under an older version than that copy is superseded instead. A load id is never
      used again. */
  ghost predicate Step(mappings: Mappings, ids: Identities, v: Versioned, c: Change, w: Versioned) {
    match c
    case Edit => w == Versioned(v.system, v.version + 1, {})
    case Run(e, seen) =>
      && seen <= v.version
      && (!Executes(c) ==> seen == v.version)
      && Next(mappings(seen), ids(seen), v.system, e, w.system)
      && w.version == v.version
      && (e.Load? ==> e.load !in v.covered)
      && (e.Queue? ==> e.run.version <= v.version)
      && (Executes(c) ==> v.system.runs[e.i].version >= seen)
      && w.covered == v.covered + if e.Complete? then CoveredBy(v.system, e.i) else {}
  }

  /** Under the present mapping a landed row's records carry the identity its merge key gives. An edit may change how
      identity is derived. */
  ghost predicate Keyed(mappings: Mappings, ids: Identities, v: Versioned) {
    && Injective(ids(v.version))
    && IdentityFollowsKey(mappings(v.version), ids(v.version), v.system.landing)
  }

  ghost predicate Trace(mappings: Mappings, ids: Identities, states: seq<Versioned>, changes: seq<Change>) {
    && |states| == |changes| + 1
    && states[0] == Versioned(System(map[], states[0].system.host, [], []), 1, {})
    && (forall i :: 0 <= i < |states| ==> Keyed(mappings, ids, states[i]))
    && (forall i :: 0 <= i < |changes| ==> Step(mappings, ids, states[i], changes[i], states[i + 1]))
  }

  /** Every landed row whose load is covered since the last edit is reflected under the present mapping. */
  ghost predicate PresentlyReflected(mappings: Mappings, v: Versioned) {
    forall k :: k in v.system.landing && v.system.landing[k].load in v.covered
      ==> Reflects(mappings(v.version), v.system.host, v.system.landing[k].row)
  }

  // ---------------------------------------------------------------- what an execution may do

  /** An execution works from a copy of the Projection as it is now. */
  predicate UpToDate(v: Versioned, c: Change) { Executes(c) ==> c.seen == v.version }

  /** Some row in the run's scope makes `cfg` write this record. */
  predicate Writes(cfg: Config, landing: LandingTable, run: ProjectionRun, r: Record) {
    exists k :: k in landing && InScope(landing[k], run) && r in RecordOf(cfg, landing[k].row)
  }

  /** Whatever `cfg` writes for the run's scope under the identity of `wanted` is `wanted` itself. */
  ghost predicate WritesNoOther(cfg: Config, landing: LandingTable, run: ProjectionRun, wanted: Record) {
    forall r: Record :: Writes(cfg, landing, run, r) && r.identity == wanted.identity ==> r == wanted
  }

  /** A completed run under `cfg` leaves `wanted` behind: a delete in its scope beats every upsert, upserts must all be
      the wanted one, and where nothing is written the host has to hold it already. */
  ghost predicate Settles(cfg: Config, s: System, run: ProjectionRun, wanted: Record) {
    match wanted
    case Delete(id) =>
      || Writes(cfg, s.landing, run, wanted)
      || (id !in s.host && WritesNoOther(cfg, s.landing, run, wanted))
    case Upsert(id, values) =>
      && WritesNoOther(cfg, s.landing, run, wanted)
      && (Writes(cfg, s.landing, run, wanted) || Lookup(s.host, id) == Some(values))
  }

  /** No row in the run's scope is fatal under the mapping of the copy. */
  ghost predicate Completes(mappings: Mappings, v: Versioned, c: Change)
    requires Executes(c) && c.e.i < |v.system.runs|
  {
    Completable(mappings(c.seen), v.system.landing, v.system.runs[c.e.i])
  }

  /** For every covered row, what the mapping of the copy writes leaves what the present mapping would write; a run that
      cannot complete for a fatal row does no harm by completing. */
  ghost predicate Harmless(mappings: Mappings, v: Versioned, c: Change) {
    Executes(c) && c.e.i < |v.system.runs| && (c.e.Complete? ==> Completes(mappings, v, c)) ==>
      var s, run, now, copy := v.system, v.system.runs[c.e.i], mappings(v.version), mappings(c.seen);
      var covered := v.covered + if c.e.Complete? then CoveredBy(s, c.e.i) else {};
      forall k, wanted ::
        && k in s.landing && s.landing[k].load in covered
        && wanted in RecordOf(now, s.landing[k].row)
        ==> if c.e.Complete? then Settles(copy, s, run, wanted) else WritesNoOther(copy, s.landing, run, wanted)
  }

  /** The host holds what this record says. */
  predicate Holds(host: HostTable, r: Record) {
    match r
    case Upsert(id, values) => Lookup(host, id) == Some(values)
    case Delete(id) => Lookup(host, id) == None
  }

  lemma ReflectsIff(cfg: Config, host: HostTable, row: Row)
    ensures Reflects(cfg, host, row) <==> forall wanted :: wanted in RecordOf(cfg, row) ==> Holds(host, wanted)
  {
    var records := RecordOf(cfg, row);
    if records != [] {
      assert records[0] in records && forall r :: r in records ==> r == records[0];
    }
  }

  lemma StreamIsWritten(cfg: Config, landing: LandingTable, run: ProjectionRun, keys: seq<Key>, r: Record)
    requires IsScope(landing, run, keys)
    ensures r in Records(cfg, RowsOf(landing, keys)) <==> Writes(cfg, landing, run, r)
  {
    hide RecordOf;
    var rows := RowsOf(landing, keys);
    RecordsComeFromRows(cfg, rows, r);
    if Writes(cfg, landing, run, r) {
      var k :| k in landing && InScope(landing[k], run) && r in RecordOf(cfg, landing[k].row);
      var i :| 0 <= i < |keys| && keys[i] == k;
      assert r in RecordOf(cfg, rows[i]);
    }
  }

  lemma SettledIsHeld(copy: Config, s: System, run: ProjectionRun, keys: seq<Key>, after: HostTable, wanted: Record)
    requires IsScope(s.landing, run, keys) && IsReplay(s.host, Records(copy, RowsOf(s.landing, keys)), after)
    requires Settles(copy, s, run, wanted)
    ensures Holds(after, wanted)
  {
    hide Records, RecordOf, Writes;
    var stream, id := Records(copy, RowsOf(s.landing, keys)), wanted.identity;
    LastUpsertIsThere(stream, id);
    assert Lookup(after, id) == Outcome(Lookup(s.host, id), stream, id);
    forall r: Record ensures r in stream <==> Writes(copy, s.landing, run, r) {
      StreamIsWritten(copy, s.landing, run, keys, r);
    }
  }

  // ---------------------------------------------------------------- the runs an unsettled row allows

  /** What replaying `stream` leaves. */
  function Replayed(before: HostTable, stream: seq<Record>): HostTable {
    var ids := before.Keys + set r | r in stream :: r.identity;
    map id | id in ids && Outcome(Lookup(before, id), stream, id).Some? :: Outcome(Lookup(before, id), stream, id).value
  }

  lemma ReplayedIsReplay(before: HostTable, stream: seq<Record>)
    ensures IsReplay(before, stream, Replayed(before, stream))
  {
    forall id ensures Lookup(Replayed(before, stream), id) == Outcome(Lookup(before, id), stream, id) {
      LastUpsertIsThere(stream, id);
      if LastUpsert(stream, id).Some? { assert Upsert(id, LastUpsert(stream, id).value) in stream; }
    }
  }

  lemma {:induction false} Listed(keys: set<Key>) returns (list: seq<Key>)
    ensures forall k :: k in list <==> k in keys
    ensures forall i, j :: 0 <= i < j < |list| ==> list[i] != list[j]
  {
    list := [];
    if keys != {} {
      var k :| k in keys;
      list := Listed(keys - {k});
      list := list + [k];
    }
  }

  /** A run may read its rows in an order that ends with any one of them. */
  lemma ScopeEndingWith(landing: LandingTable, run: ProjectionRun, last: Option<Key>) returns (keys: seq<Key>)
    requires last.Some? ==> last.value in landing && InScope(landing[last.value], run)
    ensures IsScope(landing, run, keys)
    ensures last.Some? ==> keys != [] && keys[|keys| - 1] == last.value
  {
    var scope := set k | k in landing && InScope(landing[k], run);
    if last.Some? {
      keys := Listed(scope - {last.value});
      keys := keys + [last.value];
    } else {
      keys := Listed(scope);
    }
    forall i | 0 <= i < |keys| ensures keys[i] in scope {
      assert keys[i] in keys;
    }
  }

  lemma EndsWith(cfg: Config, landing: LandingTable, keys: seq<Key>, r: Record)
    requires forall i :: 0 <= i < |keys| ==> keys[i] in landing
    requires keys != [] && RecordOf(cfg, landing[keys[|keys| - 1]].row) == [r]
    ensures var stream := Records(cfg, RowsOf(landing, keys)); stream != [] && stream[|stream| - 1] == r
  {
    hide RecordOf;
  }

  /** Where the condition fails some completed run leaves something else. */
  lemma UnsettledIsNotHeld(copy: Config, s: System, run: ProjectionRun, wanted: Record) returns (keys: seq<Key>)
    requires !Settles(copy, s, run, wanted)
    ensures IsScope(s.landing, run, keys)
    ensures !Holds(Replayed(s.host, Records(copy, RowsOf(s.landing, keys))), wanted)
  {
    hide RecordOf, Records, Writes, Replayed;
    var id := wanted.identity;
    if other: Record :| Writes(copy, s.landing, run, other) && other.identity == id && other != wanted {
      var last := WrittenFrom(copy, s.landing, run, other);
      keys := ScopeEndingWith(s.landing, run, Some(last));
      EndsWith(copy, s.landing, keys, other);
    } else {
      keys := ScopeEndingWith(s.landing, run, None);
    }
    var stream := Records(copy, RowsOf(s.landing, keys));
    ReplayedIsReplay(s.host, stream);
    assert Lookup(Replayed(s.host, stream), id) == Outcome(Lookup(s.host, id), stream, id);
    forall r: Record ensures r in stream <==> Writes(copy, s.landing, run, r) {
      StreamIsWritten(copy, s.landing, run, keys, r);
    }
    LastUpsertIsThere(stream, id);
  }

  lemma WrittenFrom(cfg: Config, landing: LandingTable, run: ProjectionRun, r: Record) returns (k: Key)
    requires Writes(cfg, landing, run, r)
    ensures k in landing && InScope(landing[k], run) && RecordOf(cfg, landing[k].row) == [r]
  {
    k :| k in landing && InScope(landing[k], run) && r in RecordOf(cfg, landing[k].row);
  }

  /** A run cut short right after its first write may leave any record of its scope. */
  lemma OtherIsNotHeld(copy: Config, s: System, run: ProjectionRun, wanted: Record, other: Record)
    returns (keys: seq<Key>)
    requires Writes(copy, s.landing, run, other) && other.identity == wanted.identity && other != wanted
    ensures IsScope(s.landing, run, keys)
    ensures IsPartial(s.host, Records(copy, RowsOf(s.landing, keys)), AppliedOne(s.host, other))
    ensures !Holds(AppliedOne(s.host, other), wanted)
  {
    hide RecordOf, Records, Writes;
    keys := ScopeEndingWith(s.landing, run, None);
    StreamIsWritten(copy, s.landing, run, keys, other);
  }

  lemma PartialKeepsHeld(copy: Config, s: System, run: ProjectionRun, keys: seq<Key>, after: HostTable, wanted: Record)
    requires IsScope(s.landing, run, keys) && IsPartial(s.host, Records(copy, RowsOf(s.landing, keys)), after)
    requires WritesNoOther(copy, s.landing, run, wanted) && Holds(s.host, wanted)
    ensures Holds(after, wanted)
  {
    hide Records, RecordOf, Writes;
    var id := wanted.identity;
    if id in after { StreamIsWritten(copy, s.landing, run, keys, Upsert(id, after[id])); }
    StreamIsWritten(copy, s.landing, run, keys, Delete(id));
  }

  // ---------------------------------------------------------------- exactly when an execution does no harm

  /** A covered row's record is there before the run, unless the run is what covers the row. */
  lemma HeldBefore(mappings: Mappings, v: Versioned, k: Key, wanted: Record)
    requires PresentlyReflected(mappings, v)
    requires k in v.system.landing && v.system.landing[k].load in v.covered
    requires wanted in RecordOf(mappings(v.version), v.system.landing[k].row)
    ensures Holds(v.system.host, wanted)
  {
    ReflectsIff(mappings(v.version), v.system.host, v.system.landing[k].row);
  }

  /** An execution the version check lets pass, from whatever copy. */
  predicate Passes(v: Versioned, c: Change) {
    && Executes(c)
    && c.seen <= v.version
    && c.e.i < |v.system.runs|
    && v.system.runs[c.e.i].version >= c.seen
    && (c.e.CutShort? ==> !c.e.status.Succeeded?)
  }

  lemma HarmlessKeepsReflected(mappings: Mappings, ids: Identities, v: Versioned, c: Change, w: Versioned)
    requires PresentlyReflected(mappings, v) && Executes(c) && Step(mappings, ids, v, c, w)
    requires Harmless(mappings, v, c)
    ensures PresentlyReflected(mappings, w)
  {
    hide Reflects, IsReplay, IsPartial, Records, RecordOf, Settles, WritesNoOther, Holds;
    var s, run, now, copy := v.system, v.system.runs[c.e.i], mappings(v.version), mappings(c.seen);
    forall k | k in s.landing && s.landing[k].load in w.covered ensures Reflects(now, w.system.host, s.landing[k].row) {
      forall wanted | wanted in RecordOf(now, s.landing[k].row) ensures Holds(w.system.host, wanted) {
        if c.e.Complete? {
          var keys :|
            && IsScope(s.landing, run, keys)
            && IsReplay(s.host, Records(copy, RowsOf(s.landing, keys)), w.system.host);
          SettledIsHeld(copy, s, run, keys, w.system.host, wanted);
        } else {
          var keys :|
            && IsScope(s.landing, run, keys)
            && IsPartial(s.host, Records(copy, RowsOf(s.landing, keys)), w.system.host);
          HeldBefore(mappings, v, k, wanted);
          PartialKeepsHeld(copy, s, run, keys, w.system.host, wanted);
        }
      }
      ReflectsIff(now, w.system.host, s.landing[k].row);
    }
  }

  /** The state an execution of `keys` ends in. */
  function Ended(v: Versioned, c: Change, host: HostTable): Versioned
    requires Passes(v, c)
  {
    var s := v.system;
    Versioned(s.(host := host, runs := WithStatus(s.runs, c.e.i, if c.e.Complete? then Succeeded else c.e.status)),
              v.version, v.covered + if c.e.Complete? then CoveredBy(s, c.e.i) else {})
  }

  lemma HarmfulBreaks(mappings: Mappings, ids: Identities, v: Versioned, c: Change) returns (w: Versioned)
    requires Passes(v, c) && !Harmless(mappings, v, c)
    ensures Step(mappings, ids, v, c, w) && !PresentlyReflected(mappings, w)
  {
    hide Reflects, IsReplay, IsPartial, Records, RecordOf, Settles, Holds, Writes, Replayed, AppliedOne;
    var s, run, now, copy := v.system, v.system.runs[c.e.i], mappings(v.version), mappings(c.seen);
    var covered := v.covered + if c.e.Complete? then CoveredBy(s, c.e.i) else {};
    var k, wanted :|
      && k in s.landing && s.landing[k].load in covered
      && wanted in RecordOf(now, s.landing[k].row)
      && !if c.e.Complete? then Settles(copy, s, run, wanted) else WritesNoOther(copy, s.landing, run, wanted);
    if c.e.Complete? {
      var keys := UnsettledIsNotHeld(copy, s, run, wanted);
      var stream := Records(copy, RowsOf(s.landing, keys));
      ReplayedIsReplay(s.host, stream);
      w := Ended(v, c, Replayed(s.host, stream));
    } else {
      var other: Record :| Writes(copy, s.landing, run, other) && other.identity == wanted.identity && other != wanted;
      var keys := OtherIsNotHeld(copy, s, run, wanted, other);
      w := Ended(v, c, AppliedOne(s.host, other));
    }
    ReflectsIff(now, w.system.host, s.landing[k].row);
  }

  /** An execution that passes the version check, from whatever copy of the Projection, keeps every covered row
      reflected in all its outcomes if and only if the mapping it compiled leaves what the present one would write. */
  lemma ExecutionKeepsReflectedIff(mappings: Mappings, ids: Identities, v: Versioned, c: Change)
    requires PresentlyReflected(mappings, v) && Passes(v, c)
    ensures (forall w :: Step(mappings, ids, v, c, w) ==> PresentlyReflected(mappings, w)) <==> Harmless(mappings, v, c)
  {
    hide PresentlyReflected, Step, Harmless;
    if Harmless(mappings, v, c) {
      forall w | Step(mappings, ids, v, c, w) ensures PresentlyReflected(mappings, w) {
        HarmlessKeepsReflected(mappings, ids, v, c, w);
      }
    } else {
      var w := HarmfulBreaks(mappings, ids, v, c);
    }
  }

  /** From an up-to-date copy nothing can go wrong: the rows' identities keep their records apart. */
  lemma UpToDateIsHarmless(mappings: Mappings, ids: Identities, v: Versioned, c: Change)
    requires Keyed(mappings, ids, v) && PresentlyReflected(mappings, v)
    requires Executes(c) && UpToDate(v, c) && c.e.i < |v.system.runs|
    ensures Harmless(mappings, v, c)
  {
    hide Reflects, RecordOf;
    var s, run, now := v.system, v.system.runs[c.e.i], mappings(v.version);
    var covered := v.covered + if c.e.Complete? then CoveredBy(s, c.e.i) else {};
    forall k, wanted | k in s.landing && s.landing[k].load in covered && wanted in RecordOf(now, s.landing[k].row)
      ensures WritesNoOther(now, s.landing, run, wanted)
      ensures c.e.Complete? ==> Settles(now, s, run, wanted)
    {
      OnlyItsOwnRow(now, ids(v.version), s.landing, run, k, wanted);
      if InScope(s.landing[k], run) {
        assert Writes(now, s.landing, run, wanted);
      } else if s.landing[k].load in v.covered {
        HeldBefore(mappings, v, k, wanted);
      }
    }
  }

  lemma OnlyItsOwnRow(cfg: Config, idOf: Key -> Identity, landing: LandingTable, run: ProjectionRun, k: Key,
                      wanted: Record)
    requires Injective(idOf) && IdentityFollowsKey(cfg, idOf, landing)
    requires k in landing && wanted in RecordOf(cfg, landing[k].row)
    ensures WritesNoOther(cfg, landing, run, wanted)
  {
    forall r: Record | Writes(cfg, landing, run, r) && r.identity == wanted.identity ensures r == wanted {
      var j := WrittenFrom(cfg, landing, run, r);
      assert r in RecordOf(cfg, landing[j].row);
      assert idOf(j) == idOf(k);
    }
  }

  /** Every event, from an up-to-date copy or a harmless one, keeps the covered rows reflected. */
  lemma StepKeepsReflected(mappings: Mappings, ids: Identities, v: Versioned, c: Change, w: Versioned)
    requires Keyed(mappings, ids, v) && PresentlyReflected(mappings, v)
    requires Step(mappings, ids, v, c, w)
    requires UpToDate(v, c) || Harmless(mappings, v, c)
    ensures PresentlyReflected(mappings, w)
  {
    hide Reflects, IsReplay, IsPartial, Records, RecordOf;
    if Executes(c) {
      if UpToDate(v, c) { UpToDateIsHarmless(mappings, ids, v, c); }
      HarmlessKeepsReflected(mappings, ids, v, c, w);
    } else if c.Run? {
      var cfg, s, t := mappings(v.version), v.system, w.system;
      forall k | k in t.landing && t.landing[k].load in w.covered ensures Reflects(cfg, t.host, t.landing[k].row) {
        if c.e.Load? { assert s.landing[k] == t.landing[k]; }
      }
    }
  }

  // ---------------------------------------------------------------- over histories

  /** Every execution so far worked from an up-to-date copy, or from one whose mapping left what the present one would
      write. */
  ghost predicate AlwaysSound(mappings: Mappings, states: seq<Versioned>, changes: seq<Change>)
    requires |states| == |changes| + 1
  {
    forall i :: 0 <= i < |changes| ==> UpToDate(states[i], changes[i]) || Harmless(mappings, states[i], changes[i])
  }

  ghost predicate SoundTrace(mappings: Mappings, ids: Identities, states: seq<Versioned>, changes: seq<Change>) {
    Trace(mappings, ids, states, changes) && AlwaysSound(mappings, states, changes)
  }

  lemma {:induction false} TraceKeepsReflected(mappings: Mappings, ids: Identities,
                                               states: seq<Versioned>, changes: seq<Change>, i: nat)
    requires SoundTrace(mappings, ids, states, changes) && i < |states|
    ensures PresentlyReflected(mappings, states[i])
  {
    if i > 0 {
      hide Step, PresentlyReflected, Keyed, Harmless;
      TraceKeepsReflected(mappings, ids, states, changes, i - 1);
      StepKeepsReflected(mappings, ids, states[i - 1], changes[i - 1], states[i]);
    }
  }

  /** Convergence under edits, identity edits included: once every landed load is covered since the last edit, by
      incremental runs or by one replay, the host holds exactly what a full replay under the present mapping would
      write. */
  lemma ConvergenceUnderEdits(mappings: Mappings, ids: Identities, states: seq<Versioned>, changes: seq<Change>, i: nat)
    requires SoundTrace(mappings, ids, states, changes) && i < |states|
    requires LoadsIn(states[i].system.landing) <= states[i].covered
    ensures ReplayIsNoOp(mappings(states[i].version), states[i].system)
  {
    var v := states[i];
    TraceKeepsReflected(mappings, ids, states, changes, i);
    assert Keyed(mappings, ids, v);
    assert forall k :: k in v.system.landing ==> v.system.landing[k].load in LoadsIn(v.system.landing);
    AllReflectedIsReplayed(mappings(v.version), ids(v.version), v.system);
  }

  ghost predicate NoEdit(changes: seq<Change>, from: nat, to: nat)
    requires from <= to <= |changes|
  {
    forall n :: from <= n < to ==> !changes[n].Edit?
  }

  lemma {:induction false} CoverageGrows(mappings: Mappings, ids: Identities,
                                         states: seq<Versioned>, changes: seq<Change>, i: nat, j: nat)
    requires Trace(mappings, ids, states, changes) && i <= j < |states| && NoEdit(changes, i, j)
    ensures states[i].covered <= states[j].covered && states[i].version == states[j].version
    decreases j
  {
    hide Next, Keyed;
    if i < j {
      CoverageGrows(mappings, ids, states, changes, i, j - 1);
      assert Step(mappings, ids, states[j - 1], changes[j - 1], states[j]);
    }
  }

  /** A replay that completes after an edit sticks: whatever runs queued before the edit are delivered, retried or
      swept afterwards, a row the replay read and no later load replaced stays as the new mapping makes it. */
  lemma ReplayAfterAnEditSticks(mappings: Mappings, ids: Identities, states: seq<Versioned>, changes: seq<Change>,
                                i: nat, j: nat, k: Key)
    requires SoundTrace(mappings, ids, states, changes)
    requires i < j < |states| && NoEdit(changes, i, j)
    requires changes[i].Run? && changes[i].e.Complete?
    requires changes[i].e.i < |states[i].system.runs| && states[i].system.runs[changes[i].e.i].full
    requires k in states[i].system.landing && k in states[j].system.landing
    requires states[j].system.landing[k] == states[i].system.landing[k]
    ensures Reflects(mappings(states[j].version), states[j].system.host, states[j].system.landing[k].row)
  {
    hide Next, Reflects, Keyed, Harmless;
    TraceKeepsReflected(mappings, ids, states, changes, j);
    assert Step(mappings, ids, states[i], changes[i], states[i + 1]);
    assert states[i].system.landing[k].load in LoadsIn(states[i].system.landing);
    CoverageGrows(mappings, ids, states, changes, i + 1, j);
  }

  // ---------------------------------------------------------------- an outdated copy

  /** Two fields: the identity copies a column, the other is whatever constant this version of the mapping writes. */
  function WritesVersion(env: Env, version: nat): Config {
    var field := Field(false, CastSpec("boolean", []), {});
    var nodes := [NodeMember("key", SourceRef("key", [], None, None)), NodeMember("note", Constant(Int(version)))];
    Config(env, Target(map["key" := field, "note" := field], ["key"]), CompiledMapping(nodes, []), false)
  }

  ghost predicate CoercesAll(env: Env) { forall spec, value :: env.coerce(spec, value) == Some(value) }

  lemma WritesItsVersion(env: Env, version: nat)
    requires CoercesAll(env)
    ensures var row: Row := map["key" := Int(7)];
            RecordOf(WritesVersion(env, version), row)
              == [Upsert([Int(7)], map["key" := Int(7), "note" := Int(version)])]
  {
    var cfg, row: Row := WritesVersion(env, version), map["key" := Int(7)];
    var nodes, values: Row := cfg.mapping.nodes, map["key" := Int(7), "note" := Int(version)];
    assert nodes[1..][0] == nodes[1] && nodes[1..][1..] == [];
    assert Evaluate(env, nodes[0].node, row) == Ok(Int(7)) && Evaluate(env, nodes[1].node, row) == Ok(Int(version));
    assert Applied(env, nodes[1..], row, None) == Ok(map["note" := Int(version)]) by {
      assert map["note" := Int(version)] + map[] == map["note" := Int(version)];
    }
    assert map["key" := Int(7)] + map["note" := Int(version)] == values;
    assert Applied(env, nodes, row, None) == Ok(values);
    assert CoerceField(env, cfg.target, "key", Int(7)) == Ok(Int(7));
    assert CoerceField(env, cfg.target, "note", Int(version)) == Ok(Int(version)) by {
      assert "note" !in cfg.target.fields || env.coerce(CastSpec("boolean", []), Int(version)) == Some(Int(version));
    }
    assert forall name :: name in values ==> name == "key" || name == "note";
    assert CoerceValues(env, cfg.target, values).Ok? && CoerceValues(env, cfg.target, values).value == values;
    assert IdentityOf(cfg.target, values) == [Int(7)];
  }

  lemma OneUpsert(before: HostTable, id: Identity, values: Row)
    ensures IsReplay(before, [Upsert(id, values)], before[id := values])
  {
    var stream := [Upsert(id, values)];
    assert stream[..0] == [] && LastUpsert([], id) == None;
    forall other ensures Lookup(before[id := values], other) == Outcome(Lookup(before, other), stream, other) {
      assert LastUpsert(stream, other) == if other == id then Some(values) else LastUpsert([], other);
    }
  }

  lemma OneRow(cfg: Config, landing: LandingTable, run: ProjectionRun, k: Key)
    requires landing.Keys == {k} && InScope(landing[k], run)
    ensures IsScope(landing, run, [k]) && Records(cfg, RowsOf(landing, [k])) == RecordOf(cfg, landing[k].row)
  {
    hide RecordOf;
    assert [k][0] == k;
    var rows := RowsOf(landing, [k]);
    assert rows == [landing[k].row] && rows[..0] == [] && Records(cfg, []) == [];
  }

  /** A mapping that writes `values` for a row is reflected by a host that holds them, and by no other. */
  lemma ReflectsItsUpsert(cfg: Config, host: HostTable, row: Row, id: Identity, values: Row)
    requires RecordOf(cfg, row) == [Upsert(id, values)]
    ensures Reflects(cfg, host, row) <==> Lookup(host, id) == Some(values)
  {
  }

  function ByVersion(env: Env): Mappings { (n: nat) => WritesVersion(env, n) }

  /** Every version of this mapping gives a row its merge key as identity. */
  function SameKey(): Identities { (n: nat) => ((k: Key) => k) }

  const KEY: Key := [Int(7)]
  const ROW: Row := map["key" := Int(7)]

  function Noted(version: nat): Row { map["key" := Int(7), "note" := Int(version)] }

  function Incremental(version: nat, status: Status): ProjectionRun { ProjectionRun(status, false, version, ["L"], 0) }

  function Replay(version: nat, status: Status): ProjectionRun { ProjectionRun(status, true, version, [], 0) }

  /** One row landed, and these runs since. */
  function Around(host: HostTable, runs: seq<ProjectionRun>, version: nat, covered: set<LoadId>): Versioned {
    Versioned(System(map[KEY := Landed(ROW, "L")], host, runs, [IngestionRun(0, ["L"])]), version, covered)
  }

  lemma KeyedByVersion(env: Env, v: Versioned)
    requires CoercesAll(env)
    requires v.system.landing == map[] || v.system.landing == map[KEY := Landed(ROW, "L")]
    ensures Keyed(ByVersion(env), SameKey(), v)
  {
    WritesItsVersion(env, v.version);
    hide RecordOf, WritesVersion;
  }

  // ---------------------------------------------------------------- a history for every pair of versions

  lemma Extended(mappings: Mappings, ids: Identities, states: seq<Versioned>, changes: seq<Change>,
                 c: Change, w: Versioned)
    requires SoundTrace(mappings, ids, states, changes)
    requires Keyed(mappings, ids, w) && Step(mappings, ids, states[|changes|], c, w)
    requires UpToDate(states[|changes|], c)
    ensures SoundTrace(mappings, ids, states + [w], changes + [c])
  {
    hide Keyed, Step, Harmless;
    var more, longer := states + [w], changes + [c];
    assert forall i :: 0 <= i < |states| ==> more[i] == states[i];
    assert forall i :: 0 <= i < |changes| ==> longer[i] == changes[i];
    assert more[|states|] == w && longer[|changes|] == c;
  }

  function Edits(n: nat): seq<Change> { seq(n, i => Edit) }

  lemma {:induction false} EditedOften(env: Env, n: nat, before: seq<Versioned>, changes: seq<Change>)
    returns (states: seq<Versioned>)
    requires CoercesAll(env) && SoundTrace(ByVersion(env), SameKey(), before, changes)
    requires before[|changes|].system.landing == map[KEY := Landed(ROW, "L")]
    ensures SoundTrace(ByVersion(env), SameKey(), states, changes + Edits(n))
    ensures var v := before[|changes|]; n > 0 ==> states[|changes| + n] == Versioned(v.system, v.version + n, {})
    ensures n == 0 ==> states == before
  {
    hide Keyed, Harmless;
    if n == 0 {
      states := before;
      assert changes + Edits(0) == changes;
    } else {
      states := EditedOften(env, n - 1, before, changes);
      var v := states[|changes| + n - 1];
      var w := Versioned(v.system, v.version + 1, {});
      KeyedByVersion(env, w);
      Extended(ByVersion(env), SameKey(), states, changes + Edits(n - 1), Edit, w);
      assert changes + Edits(n - 1) + [Edit] == changes + Edits(n);
      states := states + [w];
    }
  }

  /** A run queued at `seen`, then edits up to `version`, then a full replay that corrects the row. */
  function Corrections(seen: nat, version: nat): seq<Change>
    requires 1 <= seen < version
  {
    [Run(Load("L", map[KEY := ROW], {}, Some(0)), 1)] + Edits(seen - 1)
    + [Run(Queue(Incremental(seen, Queued)), seen)] + Edits(version - seen)
    + [Run(Queue(Replay(version, Queued)), version), Run(Complete(1), version)]
  }

  lemma RowLands(env: Env) returns (states: seq<Versioned>)
    requires CoercesAll(env)
    ensures SoundTrace(ByVersion(env), SameKey(), states, [Run(Load("L", map[KEY := ROW], {}, Some(0)), 1)])
    ensures states[1] == Around(map[], [], 1, {})
  {
    var start := Versioned(System(map[], map[], [], []), 1, {});
    var w, c := Around(map[], [], 1, {}), Run(Load("L", map[KEY := ROW], {}, Some(0)), 1);
    KeyedByVersion(env, start);
    KeyedByVersion(env, w);
    hide IdentityFollowsKey, Injective;
    assert Merged(map[], "L", map[KEY := ROW], {}) == map[KEY := Landed(ROW, "L")];
    Extended(ByVersion(env), SameKey(), [start], [], c, w);
    assert [] + [c] == [c];
    states := [start] + [w];
  }

  lemma OneRowExecutes(env: Env, seen: nat, v: Versioned, i: nat)
    requires CoercesAll(env) && v.system.landing == map[KEY := Landed(ROW, "L")]
    requires i < |v.system.runs| && InScope(Landed(ROW, "L"), v.system.runs[i])
    ensures var s := v.system;
            var t := s.(host := s.host[KEY := Noted(seen)], runs := WithStatus(s.runs, i, Succeeded));
            Next(ByVersion(env)(seen), SameKey()(seen), s, Complete(i), t)
  {
    WritesItsVersion(env, seen);
    hide RecordOf, Records, IsReplay, WritesVersion, IsScope, RowsOf;
    OneRow(ByVersion(env)(seen), v.system.landing, v.system.runs[i], KEY);
    OneUpsert(v.system.host, KEY, Noted(seen));
  }

  lemma RowIsCorrected(env: Env, seen: nat, version: nat) returns (states: seq<Versioned>)
    requires CoercesAll(env) && 1 <= seen < version
    ensures SoundTrace(ByVersion(env), SameKey(), states, Corrections(seen, version))
    ensures states[|Corrections(seen, version)|]
         == Around(map[KEY := Noted(version)], [Incremental(seen, Queued), Replay(version, Succeeded)], version, {"L"})
  {
    hide Keyed, Harmless, SoundTrace, IsReplay, Records, RowsOf, IsScope, WritesVersion, LoadsIn;
    var m, ids := ByVersion(env), SameKey();
    var changes := [Run(Load("L", map[KEY := ROW], {}, Some(0)), 1)];
    states := RowLands(env);
    states := EditedOften(env, seen - 1, states, changes);
    changes := changes + Edits(seen - 1);
    states, changes := Queues(env, states, changes, Around(map[], [], seen, {}), Incremental(seen, Queued));
    states := EditedOften(env, version - seen, states, changes);
    changes := changes + Edits(version - seen);
    var edited := Around(map[], [Incremental(seen, Queued)], version, {});
    states, changes := Queues(env, states, changes, edited, Replay(version, Queued));
    var queued := Around(map[], [Incremental(seen, Queued), Replay(version, Queued)], version, {});
    var runs := [Incremental(seen, Queued), Replay(version, Succeeded)];
    var w := Around(map[KEY := Noted(version)], runs, version, {"L"});
    OneRowExecutes(env, version, queued, 1);
    assert CoveredBy(queued.system, 1) == {"L"} by { OneLoad(queued.system.landing); }
    KeyedByVersion(env, w);
    Extended(m, ids, states, changes, Run(Complete(1), version), w);
    states, changes := states + [w], changes + [Run(Complete(1), version)];
    assert changes == Corrections(seen, version);
  }

  lemma OneLoad(landing: LandingTable)
    requires landing == map[KEY := Landed(ROW, "L")]
    ensures LoadsIn(landing) == {"L"}
  {
    assert landing[KEY].load == "L" && KEY in landing;
  }

  lemma Queues(env: Env, before: seq<Versioned>, done: seq<Change>, v: Versioned, run: ProjectionRun)
    returns (states: seq<Versioned>, changes: seq<Change>)
    requires CoercesAll(env) && SoundTrace(ByVersion(env), SameKey(), before, done)
    requires before[|done|] == v && v.system.landing == map[KEY := Landed(ROW, "L")]
    requires run.status.Queued? && run.version == v.version
    ensures changes == done + [Run(Queue(run), v.version)]
    ensures SoundTrace(ByVersion(env), SameKey(), states, changes)
    ensures |states| == |changes| + 1 && states[|changes|] == v.(system := v.system.(runs := v.system.runs + [run]))
  {
    var w := v.(system := v.system.(runs := v.system.runs + [run]));
    KeyedByVersion(env, w);
    hide Keyed, Harmless;
    changes := done + [Run(Queue(run), v.version)];
    Extended(ByVersion(env), SameKey(), before, done, Run(Queue(run), v.version), w);
    states := before + [w];
  }

  /** For every two versions: a run queued under the older one and executed from a copy that old passes the version
      check after the replay, and reverts what the replay corrected. */
  lemma OutdatedCopyReverts(env: Env, seen: nat, version: nat) returns (states: seq<Versioned>, w: Versioned)
    requires CoercesAll(env) && 1 <= seen < version
    ensures var changes := Corrections(seen, version);
            && SoundTrace(ByVersion(env), SameKey(), states, changes)
            && states[|changes|].version == version
            && PresentlyReflected(ByVersion(env), states[|changes|])
            && Step(ByVersion(env), SameKey(), states[|changes|], Run(Complete(0), seen), w)
            && !PresentlyReflected(ByVersion(env), w)
  {
    states := RowIsCorrected(env, seen, version);
    var n := |Corrections(seen, version)|;
    TraceKeepsReflected(ByVersion(env), SameKey(), states, Corrections(seen, version), n);
    hide SoundTrace, PresentlyReflected, Step, WritesVersion;
    var v := states[n];
    w := Around(map[KEY := Noted(seen)], [Incremental(seen, Succeeded), Replay(version, Succeeded)], version, {"L"});
    QueuedRunExecutes(env, seen, v, w);
    NotedOtherwise(env, seen, version, w);
  }

  lemma QueuedRunExecutes(env: Env, seen: nat, v: Versioned, w: Versioned)
    requires CoercesAll(env) && seen <= v.version
    requires v == Around(map[KEY := Noted(v.version)], [Incremental(seen, Queued), Replay(v.version, Succeeded)],
                         v.version, {"L"})
    requires w == Around(map[KEY := Noted(seen)], [Incremental(seen, Succeeded), Replay(v.version, Succeeded)],
                         v.version, {"L"})
    ensures Step(ByVersion(env), SameKey(), v, Run(Complete(0), seen), w)
  {
    hide IsReplay, Records, RowsOf, IsScope, WritesVersion, RecordOf, Next;
    assert v.system.runs[0].loads == ["L"] && ["L"][0] in ["L"];
    OneRowExecutes(env, seen, v, 0);
    assert CoveredBy(v.system, 0) == {"L"};
    assert v.system.host[KEY := Noted(seen)] == w.system.host;
    assert WithStatus(v.system.runs, 0, Succeeded) == w.system.runs;
  }

  lemma NotedOtherwise(env: Env, seen: nat, version: nat, w: Versioned)
    requires CoercesAll(env) && seen != version && w.version == version && w.covered == {"L"}
    requires w.system.landing == map[KEY := Landed(ROW, "L")] && w.system.host == map[KEY := Noted(seen)]
    ensures !PresentlyReflected(ByVersion(env), w)
  {
    WritesItsVersion(env, version);
    hide RecordOf, WritesVersion, Reflects;
    ReflectsItsUpsert(ByVersion(env)(version), w.system.host, ROW, KEY, Noted(version));
    assert Noted(seen)["note"] != Noted(version)["note"];
    assert KEY in w.system.landing && w.system.landing[KEY].load in w.covered;
  }

  function PlainEnv(): Env {
    Env(s => None, s => None, v => "", s => s, s => s, c => true, (spec, value) => Some(value),
        (a, b) => a == b, (c, a, b) => false)
  }

  /** Completing a run from a copy of version `seen` is safe in every history of every mapping if and only if that is
      the present version. */
  lemma OnlyTheUpToDateCopyIsSafe(seen: nat, version: nat)
    requires 1 <= seen <= version
    ensures (forall mappings: Mappings, ids: Identities, states: seq<Versioned>, changes: seq<Change>, i: nat,
               w: Versioned ::
               && SoundTrace(mappings, ids, states, changes) && states[|changes|].version == version
               && Step(mappings, ids, states[|changes|], Run(Complete(i), seen), w)
               ==> PresentlyReflected(mappings, w))
       <==> seen == version
  {
    hide Step, PresentlyReflected, Keyed, Harmless, AlwaysSound;
    if seen == version {
      forall mappings: Mappings, ids: Identities, states: seq<Versioned>, changes: seq<Change>, i: nat, w: Versioned
        | && SoundTrace(mappings, ids, states, changes) && states[|changes|].version == version
          && Step(mappings, ids, states[|changes|], Run(Complete(i), seen), w)
        ensures PresentlyReflected(mappings, w)
      {
        TraceKeepsReflected(mappings, ids, states, changes, |changes|);
        StepKeepsReflected(mappings, ids, states[|changes|], Run(Complete(i), seen), w);
      }
    } else {
      var states, w := OutdatedCopyReverts(PlainEnv(), seen, version);
    }
  }
}
