/** Executing a Projection over landed rows: project, batch, collapse, hand to the host's writer.
    (django_connectors/projections/runner.py) */
module ProjectionRunner {
  import opened Values
  import opened Compiler
  import opened Mapping

  type Identity = seq<Value>
  type HostTable = map<Identity, Row>

  datatype Record = Upsert(identity: Identity, values: Row) | Delete(identity: Identity)

  /** `compatible` are the dlt types the field takes without complaint; none given means any. */
  datatype Field = Field(required: bool, cast: CastSpec, compatible: set<string>)

  datatype Target = Target(fields: map<string, Field>, identityFields: seq<string>)

  /** One Projection as the runner sees it. */
  datatype Config = Config(env: Env, target: Target, mapping: CompiledMapping, skipInvalid: bool)

  // ---------------------------------------------------------------- one row

  /** Python truth of a landed cell. */
  predicate Truthy(value: Value) {
    match value
    case Null => false
    case Bool(b) => b
    case Int(n) => n != 0
    case Float(r) => r != 0.0
    case Text(s) => s != ""
    case List(items) => items != []
    case Obj(members) => members != []
    case Other(_, _) => true
  }

  function CoerceField(env: Env, target: Target, name: string, value: Value): Result<Value, Failure> {
    if name in target.fields then Coerced(env, Some(target.fields[name].cast), value) else Ok(value)
  }

  function CoerceValues(env: Env, target: Target, values: Row): Result<Row, Failure> {
    if exists name :: name in values && CoerceField(env, target, name, values[name]).Err? then Err(Cast)
    else Ok(map name | name in values :: CoerceField(env, target, name, values[name]).value)
  }

  function IdentityOf(target: Target, values: Row): Identity {
    seq(|target.identityFields|, i requires 0 <= i < |target.identityFields| => Cell(values, target.identityFields[i]))
  }

  predicate RequiredMissing(target: Target, values: Row) {
    exists name :: name in target.fields && target.fields[name].required && Cell(values, name).Null?
  }

  function IdentityNames(target: Target): set<string> {
    set i | 0 <= i < |target.identityFields| :: target.identityFields[i]
  }

  /** One landed row as a record. A delete evaluates its identity fields and nothing else. */
  function Project(cfg: Config, row: Row): Result<Record, Failure> {
    var deleted := Truthy(Cell(row, DELETED_COLUMN));
    var values :- Applied(cfg.env, cfg.mapping.nodes, row, if deleted then Some(IdentityNames(cfg.target)) else None);
    var coerced :- CoerceValues(cfg.env, cfg.target, values);
    var identity := IdentityOf(cfg.target, coerced);
    if Null in identity then Err(InvalidRecord)
    else if deleted then Ok(Delete(identity))
    else if RequiredMissing(cfg.target, coerced) then Err(InvalidRecord)
    else Ok(Upsert(identity, coerced))
  }

  /** Whether this row stops the run: a broken mapping always does, a bad row unless it may be skipped. */
  predicate Fatal(cfg: Config, row: Row) {
    && Matches(cfg.env, cfg.mapping.filters, row)
    && Project(cfg, row).Err?
    && !(cfg.skipInvalid && Project(cfg, row).error != MappingValidation)
  }

  predicate Skipped(cfg: Config, row: Row) {
    Matches(cfg.env, cfg.mapping.filters, row) && Project(cfg, row).Err? && !Fatal(cfg, row)
  }

  /** What one landed row contributes to a run. */
  function RecordOf(cfg: Config, row: Row): seq<Record> {
    if Matches(cfg.env, cfg.mapping.filters, row) && Project(cfg, row).Ok? then [Project(cfg, row).value] else []
  }

  function Records(cfg: Config, rows: seq<Row>): seq<Record> {
    if rows == [] then [] else Records(cfg, rows[..|rows| - 1]) + RecordOf(cfg, rows[|rows| - 1])
  }

  function SkippedCount(cfg: Config, rows: seq<Row>): nat {
    if rows == [] then 0
    else SkippedCount(cfg, rows[..|rows| - 1]) + if Skipped(cfg, rows[|rows| - 1]) then 1 else 0
  }

  // ---------------------------------------------------------------- what a run means for the host

  function Lookup(table: HostTable, id: Identity): Option<Row> {
    if id in table then Some(table[id]) else None
  }

  predicate HasDelete(stream: seq<Record>, id: Identity) { Delete(id) in stream }

  function LastUpsert(stream: seq<Record>, id: Identity): Option<Row> {
    if stream == [] then None
    else
      var last := stream[|stream| - 1];
      if last.Upsert? && last.identity == id then Some(last.values)
      else LastUpsert(stream[..|stream| - 1], id)
  }

  /** Delete beats upsert, for the whole run; otherwise the last upsert wins; otherwise nothing happens. */
  function Outcome(before: Option<Row>, stream: seq<Record>, id: Identity): Option<Row> {
    if HasDelete(stream, id) then None
    else
      match LastUpsert(stream, id)
      case None => before
      case Some(values) => Some(values)
  }

  ghost predicate IsReplay(before: HostTable, stream: seq<Record>, after: HostTable) {
    forall id :: Lookup(after, id) == Outcome(Lookup(before, id), stream, id)
  }

  /** Anything a run over `stream` can leave behind when it is cut short, inside a batch or between two. */
  ghost predicate IsPartial(before: HostTable, stream: seq<Record>, after: HostTable) {
    forall id ::
      || Lookup(after, id) == Lookup(before, id)
      || (id in after && Upsert(id, after[id]) in stream)
      || (id !in after && Delete(id) in stream)
  }

  // ---------------------------------------------------------------- the host

  /** The host's table behind its writer. The writer is idempotent per identity; it raises once it has
      applied `patience` records, which may be before, inside or after any batch. */
  class Host {
    var table: HostTable
    var patience: nat

    constructor (table: HostTable, patience: nat)
      ensures this.table == table && this.patience == patience
    {
      this.table := table;
      this.patience := patience;
    }

    method Write(records: seq<Record>) returns (raised: bool)
      modifies this
      ensures raised <==> |records| > old(patience)
      ensures !raised ==> patience == old(patience) - |records| && table == AppliedAll(old(table), records)
      ensures raised ==> exists k :: 0 <= k <= |records| && table == AppliedAll(old(table), records[..k])
    {
      raised := false;
      var i := 0;
      while i < |records|
        invariant i <= |records| && i + patience == old(patience)
        invariant table == AppliedAll(old(table), records[..i])
      {
        if patience == 0 {
          return true;
        }
        assert records[..i + 1][..i] == records[..i];
        table := AppliedOne(table, records[i]);
        patience := patience - 1;
        i := i + 1;
      }
      assert records[..|records|] == records;
    }
  }

  function AppliedOne(table: HostTable, record: Record): HostTable {
    match record
    case Upsert(id, values) => table[id := values]
    case Delete(id) => table - {id}
  }

  function AppliedAll(table: HostTable, records: seq<Record>): HostTable {
    if records == [] then table
    else AppliedOne(AppliedAll(table, records[..|records| - 1]), records[|records| - 1])
  }

  // ---------------------------------------------------------------- collapse

  /** What collapsing one batch must produce, given the identities deleted earlier in the run. */
  ghost predicate IsCollapsed(batch: seq<Record>, deletedBefore: set<Identity>, records: seq<Record>) {
    && (forall i, j :: 0 <= i < j < |records| ==> records[i].identity != records[j].identity)
    && (forall i, j :: 0 <= i < j < |records| && records[i].Delete? ==> records[j].Delete?)
    && (forall id :: Delete(id) in records <==> HasDelete(batch, id))
    && (forall id, values :: Upsert(id, values) in records <==>
          id !in deletedBefore && !HasDelete(batch, id) && LastUpsert(batch, id) == Some(values))
  }

  function DeletedIds(stream: seq<Record>): set<Identity> {
    set r | r in stream && r.Delete? :: r.identity
  }

  /** One record per identity, deletes winning and emitted last. The order among upserts, and among
      deletes, is left open: every order satisfies the contract. */
  method Collapse(batch: seq<Record>, deletedIdentities: set<Identity>)
    returns (records: seq<Record>, deletedNow: set<Identity>)
    ensures deletedNow == deletedIdentities + DeletedIds(batch)
    ensures IsCollapsed(batch, deletedIdentities, records)
  {
    var upserts: HostTable := map[];
    var deletes: set<Identity> := {};
    deletedNow := deletedIdentities;
    var i := 0;
    while i < |batch|
      invariant i <= |batch|
      invariant deletes == DeletedIds(batch[..i]) && deletedNow == deletedIdentities + deletes
      invariant forall id :: id in deletes <==> HasDelete(batch[..i], id)
      invariant forall id :: Lookup(upserts, id) == if id in deletedNow then None else LastUpsert(batch[..i], id)
    {
      var key := batch[i].identity;
      assert batch[..i + 1] == batch[..i] + [batch[i]];
      if batch[i].Delete? {
        deletes := deletes + {key};
        deletedNow := deletedNow + {key};
        upserts := upserts - {key};
      } else if key !in deletedNow {
        upserts := upserts[key := batch[i].values];
      }
      i := i + 1;
    }
    assert batch[..|batch|] == batch;
    records := Emit(upserts, deletes);
  }

  /** `[*upserts.values(), *deletes.values()]` */
  method Emit(upserts: HostTable, deletes: set<Identity>) returns (records: seq<Record>)
    requires upserts.Keys !! deletes
    ensures forall i, j :: 0 <= i < j < |records| ==> records[i].identity != records[j].identity
    ensures forall i, j :: 0 <= i < j < |records| && records[i].Delete? ==> records[j].Delete?
    ensures forall id :: Delete(id) in records <==> id in deletes
    ensures forall id, values :: Upsert(id, values) in records <==> id in upserts && upserts[id] == values
  {
    records := [];
    var left := upserts.Keys;
    while left != {}
      invariant left <= upserts.Keys
      invariant forall i :: 0 <= i < |records| ==> records[i].Upsert? && records[i].identity in upserts.Keys - left
      invariant forall i, j :: 0 <= i < j < |records| ==> records[i].identity != records[j].identity
      invariant forall id, values ::
                  Upsert(id, values) in records <==> id in upserts.Keys - left && upserts[id] == values
    {
      var id :| id in left;
      records := records + [Upsert(id, upserts[id])];
      left := left - {id};
    }
    left := deletes;
    while left != {}
      invariant left <= deletes
      invariant forall i :: 0 <= i < |records| ==> records[i].identity in upserts.Keys + (deletes - left)
      invariant forall i, j :: 0 <= i < j < |records| ==> records[i].identity != records[j].identity
      invariant forall i, j :: 0 <= i < j < |records| && records[i].Delete? ==> records[j].Delete?
      invariant forall id :: Delete(id) in records <==> id in deletes - left
      invariant forall id, values :: Upsert(id, values) in records <==> id in upserts && upserts[id] == values
    {
      var id :| id in left;
      records := records + [Delete(id)];
      left := left - {id};
    }
  }

  // ---------------------------------------------------------------- lemmas about one batch

  lemma {:induction false} UpsertsFollow(a: seq<Record>, b: seq<Record>, id: Identity)
    ensures LastUpsert(a + b, id) == if LastUpsert(b, id).Some? then LastUpsert(b, id) else LastUpsert(a, id)
    decreases |b|
  {
    if b == [] {
      assert a + b == a;
    } else {
      assert (a + b)[..|a + b| - 1] == a + b[..|b| - 1];
      UpsertsFollow(a, b[..|b| - 1], id);
    }
  }

  lemma {:induction false} LastUpsertIsThere(stream: seq<Record>, id: Identity)
    ensures LastUpsert(stream, id).Some? ==> Upsert(id, LastUpsert(stream, id).value) in stream
    ensures LastUpsert(stream, id).None? ==> forall v :: Upsert(id, v) !in stream
  {
    if stream != [] { LastUpsertIsThere(stream[..|stream| - 1], id); }
  }

  /** Applying records with distinct identities does to each identity what its one record says. */
  lemma {:induction false} AppliedDistinct(table: HostTable, records: seq<Record>, id: Identity)
    requires forall i, j :: 0 <= i < j < |records| ==> records[i].identity != records[j].identity
    ensures var after := Lookup(AppliedAll(table, records), id);
            && (Delete(id) in records ==> after.None?)
            && (forall v :: Upsert(id, v) in records ==> after == Some(v))
            && (Delete(id) !in records && (forall v :: Upsert(id, v) !in records) ==> after == Lookup(table, id))
  {
    if records != [] {
      var init, last := records[..|records| - 1], records[|records| - 1];
      assert records == init + [last];
      AppliedDistinct(table, init, id);
      if last.identity == id {
        assert forall r :: r in init ==> r.identity != id;
      }
    }
  }

  /** Where one batch ends and the next begins does not show: writing a collapsed batch after a prefix
      of the run gives the replay of the longer prefix. */
  lemma BatchExtendsReplay(before: HostTable, done: seq<Record>, table: HostTable, batch: seq<Record>,
                           records: seq<Record>)
    requires IsReplay(before, done, table)
    requires IsCollapsed(batch, DeletedIds(done), records)
    ensures IsReplay(before, done + batch, AppliedAll(table, records))
  {
    forall id
      ensures Lookup(AppliedAll(table, records), id) == Outcome(Lookup(before, id), done + batch, id)
    {
      AppliedDistinct(table, records, id);
      UpsertsFollow(done, batch, id);
      assert id in DeletedIds(done) <==> HasDelete(done, id);
      var last := LastUpsert(batch, id);
      if !HasDelete(batch, id) && id !in DeletedIds(done) && last.Some? {
        assert Upsert(id, last.value) in records;
      }
    }
  }

  /** However much of a batch was applied, the host is within what the run may leave behind. */
  lemma CutShortIsPartial(before: HostTable, done: seq<Record>, table: HostTable, batch: seq<Record>,
                          records: seq<Record>, k: nat, stream: seq<Record>)
    requires IsReplay(before, done, table)
    requires IsCollapsed(batch, DeletedIds(done), records) && k <= |records|
    requires done + batch <= stream
    ensures IsPartial(before, stream, AppliedAll(table, records[..k]))
  {
    var after := AppliedAll(table, records[..k]);
    forall id
      ensures || Lookup(after, id) == Lookup(before, id)
              || (id in after && Upsert(id, after[id]) in stream)
              || (id !in after && Delete(id) in stream)
    {
      AppliedDistinct(table, records[..k], id);
      LastUpsertIsThere(done, id);
      LastUpsertIsThere(batch, id);
      if Delete(id) in records[..k] {
        assert Delete(id) in records;
        assert Delete(id) in done + batch;
      } else if v :| Upsert(id, v) in records[..k] {
        assert Upsert(id, v) in records;
        assert Upsert(id, v) in done + batch;
      } else {
        assert Lookup(after, id) == Outcome(Lookup(before, id), done, id);
        assert forall r :: r in done ==> r in done + batch;
      }
    }
  }

  // ---------------------------------------------------------------- the run

  datatype Counts = Counts(seen: nat, skipped: nat)
  datatype RunError = Rejected(failure: Failure) | TargetWrite

  lemma {:induction false} RecordsArePrefixed(cfg: Config, rows: seq<Row>, i: nat)
    requires i <= |rows|
    ensures Records(cfg, rows[..i]) <= Records(cfg, rows)
    decreases |rows| - i
  {
    if i < |rows| {
      RecordsArePrefixed(cfg, rows, i + 1);
      assert rows[..i + 1][..i] == rows[..i];
    } else {
      assert rows[..i] == rows;
    }
  }

  lemma NothingDone(cfg: Config, table: HostTable)
    ensures IsReplay(table, [], table) && DeletedIds([]) == {}
    ensures Records(cfg, []) == [] && SkippedCount(cfg, []) == 0
  {
  }

  /** One more row, seen from the front of the stream. */
  lemma OneMoreRow(cfg: Config, rows: seq<Row>, i: nat)
    requires i < |rows|
    ensures Records(cfg, rows[..i + 1]) == Records(cfg, rows[..i]) + RecordOf(cfg, rows[i])
    ensures SkippedCount(cfg, rows[..i + 1]) == SkippedCount(cfg, rows[..i]) + if Skipped(cfg, rows[i]) then 1 else 0
    ensures Records(cfg, rows[..i + 1]) <= Records(cfg, rows)
    ensures Records(cfg, rows[..i]) <= Records(cfg, rows)
  {
    assert rows[..i + 1][..i] == rows[..i];
    RecordsArePrefixed(cfg, rows, i);
    RecordsArePrefixed(cfg, rows, i + 1);
  }

  datatype Step = Pass | Skip | Take(record: Record) | Stop(failure: Failure)

  /** One turn of the loop, up to the record it yields. */
  method Admit(cfg: Config, row: Row) returns (step: Step)
    ensures step.Stop? <==> Fatal(cfg, row)
    ensures step.Skip? <==> Skipped(cfg, row)
    ensures RecordOf(cfg, row) == if step.Take? then [step.record] else []
  {
    if !Matches(cfg.env, cfg.mapping.filters, row) {
      return Pass;
    }
    var projected := Project(cfg, row);
    if projected.Ok? {
      return Take(projected.value);
    }
    return if cfg.skipInvalid && projected.error != MappingValidation then Skip else Stop(projected.error);
  }

  /** One execution over the rows in scope. A run that completes leaves the replay of the whole stream,
      whatever the batch size; one that does not leaves something the same scope can be re-run over. */
  method Run(cfg: Config, rows: seq<Row>, batchSize: nat, host: Host) returns (r: Result<Counts, RunError>)
    requires batchSize >= 1
    modifies host
    ensures r.Ok? ==> IsReplay(old(host.table), Records(cfg, rows), host.table)
    ensures r.Ok? ==> r.value == Counts(|rows|, SkippedCount(cfg, rows))
    ensures r.Ok? ==> forall k :: 0 <= k < |rows| ==> !Fatal(cfg, rows[k])
    ensures r.Err? ==> IsPartial(old(host.table), Records(cfg, rows), host.table)
    ensures r.Err? && r.error.Rejected? ==> exists k :: 0 <= k < |rows| && Fatal(cfg, rows[k])
    ensures r.Err? && r.error.TargetWrite? ==> old(host.patience) < |Records(cfg, rows)|
    ensures host.patience >= old(host.patience) - |Records(cfg, rows)|
  {
    hide Records, SkippedCount, RecordOf, Fatal, Skipped, IsReplay, IsPartial, DeletedIds;
    var batch: seq<Record> := [];
    var deletedIdentities: set<Identity> := {};
    var counts := Counts(0, 0);
    ghost var done: seq<Record> := [];
    ghost var stream := Records(cfg, rows);
    NothingDone(cfg, host.table);
    var i := 0;
    while i < |rows|
      invariant i <= |rows| && |batch| < batchSize
      invariant counts == Counts(i, SkippedCount(cfg, rows[..i]))
      invariant done + batch == Records(cfg, rows[..i])
      invariant IsReplay(old(host.table), done, host.table) && deletedIdentities == DeletedIds(done)
      invariant old(host.patience) - |done| <= host.patience
      invariant forall k :: 0 <= k < i ==> !Fatal(cfg, rows[k])
    {
      var row := rows[i];
      OneMoreRow(cfg, rows, i);
      i := i + 1;
      counts := counts.(seen := i);
      var step := Admit(cfg, row);
      match step {
        case Pass =>
        case Skip => counts := counts.(skipped := counts.skipped + 1);
        case Stop(failure) =>
          NothingMore(old(host.table), done, host.table, stream);
          return Err(Rejected(failure));
        case Take(record) =>
          batch := batch + [record];
          if |batch| >= batchSize {
            var raised;
            raised, deletedIdentities := WriteBatch(batch, host, deletedIdentities, old(host.table), done, stream);
            if raised { return Err(TargetWrite); }
            done, batch := done + batch, [];
          }
      }
    }
    assert rows[..|rows|] == rows;
    if batch != [] {
      var raised;
      raised, deletedIdentities := WriteBatch(batch, host, deletedIdentities, old(host.table), done, stream);
      if raised { return Err(TargetWrite); }
    } else {
      assert done + batch == done;
    }
    return Ok(counts);
  }

  lemma NothingMore(before: HostTable, done: seq<Record>, table: HostTable, stream: seq<Record>)
    requires IsReplay(before, done, table) && done <= stream
    ensures IsPartial(before, stream, table)
  {
    assert done + [] == done;
    CutShortIsPartial(before, done, table, [], [], 0, stream);
  }

  /** `_write`: collapse, then hand the batch to the writer. */
  method WriteBatch(batch: seq<Record>, host: Host, deletedIdentities: set<Identity>,
                    ghost before: HostTable, ghost done: seq<Record>, ghost stream: seq<Record>)
    returns (raised: bool, deletedNow: set<Identity>)
    requires IsReplay(before, done, host.table) && deletedIdentities == DeletedIds(done)
    requires done + batch <= stream
    modifies host
    ensures deletedNow == DeletedIds(done + batch)
    ensures old(host.patience) < |batch| || !raised
    ensures !raised ==> IsReplay(before, done + batch, host.table)
    ensures !raised ==> old(host.patience) - |batch| <= host.patience <= old(host.patience)
    ensures raised ==> IsPartial(before, stream, host.table) && old(host.patience) < |batch|
  {
    var records;
    records, deletedNow := Collapse(batch, deletedIdentities);
    assert DeletedIds(done + batch) == DeletedIds(done) + DeletedIds(batch);
    CollapsedIsNoLonger(batch, deletedIdentities, records);
    ghost var table := host.table;
    raised := host.Write(records);
    if raised {
      ghost var k :| 0 <= k <= |records| && host.table == AppliedAll(table, records[..k]);
      CutShortIsPartial(before, done, table, batch, records, k, stream);
    } else {
      BatchExtendsReplay(before, done, table, batch, records);
    }
  }

  lemma CollapsedIsNoLonger(batch: seq<Record>, deletedBefore: set<Identity>, records: seq<Record>)
    requires IsCollapsed(batch, deletedBefore, records)
    ensures |records| <= |batch|
  {
    var kept := set r | r in records :: r.identity;
    var given := set r | r in batch :: r.identity;
    forall r | r in records ensures r.identity in given {
      if r.Delete? {
        assert Delete(r.identity) in batch;
      } else {
        LastUpsertIsThere(batch, r.identity);
        assert r == Upsert(r.identity, r.values);
        assert r in batch;
      }
    }
    DistinctIdentities(records);
    FewIdentities(batch);
    Subset(kept, given);
  }

  lemma {:induction false} DistinctIdentities(records: seq<Record>)
    requires forall i, j :: 0 <= i < j < |records| ==> records[i].identity != records[j].identity
    ensures |(set r | r in records :: r.identity)| == |records|
  {
    if records != [] {
      var init, last := records[..|records| - 1], records[|records| - 1];
      DistinctIdentities(init);
      assert (set r | r in records :: r.identity) == (set r | r in init :: r.identity) + {last.identity} by {
        assert records == init + [last];
      }
      assert last.identity !in (set r | r in init :: r.identity);
    } else {
      assert (set r | r in records :: r.identity) == {};
    }
  }

  lemma {:induction false} FewIdentities(records: seq<Record>)
    ensures |(set r | r in records :: r.identity)| <= |records|
  {
    if records != [] {
      var init, last := records[..|records| - 1], records[|records| - 1];
      FewIdentities(init);
      assert (set r | r in records :: r.identity) == (set r | r in init :: r.identity) + {last.identity} by {
        assert records == init + [last];
      }
    } else {
      assert (set r | r in records :: r.identity) == {};
    }
  }

  lemma Subset<T>(a: set<T>, b: set<T>)
    requires a <= b
    ensures |a| <= |b|
  {
    assert b == a + (b - a);
    assert |b| == |a| + |b - a|;
  }

  // ---------------------------------------------------------------- what follows for the host

  /** A replay is determined by the starting table and the stream: no batch size can show. */
  lemma ReplayIsDetermined(before: HostTable, stream: seq<Record>, after1: HostTable, after2: HostTable)
    requires IsReplay(before, stream, after1) && IsReplay(before, stream, after2)
    ensures after1 == after2
  {
    forall id ensures Lookup(after1, id) == Lookup(after2, id) {}
    forall id ensures (id in after1 <==> id in after2) && (id in after1 ==> after1[id] == after2[id]) {
      assert Lookup(after1, id) == Lookup(after2, id);
    }
  }

  function Flatten(batches: seq<seq<Record>>): seq<Record> {
    if batches == [] then [] else Flatten(batches[..|batches| - 1]) + batches[|batches| - 1]
  }

  /** `after` is `before` once each batch was collapsed against the deletes of the earlier ones and written. */
  ghost predicate WrittenInBatches(before: HostTable, batches: seq<seq<Record>>, written: seq<seq<Record>>,
                                   after: HostTable)
    requires |batches| == |written|
  {
    if batches == [] then after == before
    else
      var n := |batches| - 1;
      exists table ::
        && WrittenInBatches(before, batches[..n], written[..n], table)
        && IsCollapsed(batches[n], DeletedIds(Flatten(batches[..n])), written[n])
        && after == AppliedAll(table, written[n])
  }

  lemma {:induction false} BatchesReplay(before: HostTable, batches: seq<seq<Record>>, written: seq<seq<Record>>,
                                         after: HostTable)
    requires |batches| == |written| && WrittenInBatches(before, batches, written, after)
    ensures IsReplay(before, Flatten(batches), after)
  {
    if batches != [] {
      var n := |batches| - 1;
      var table :|
        && WrittenInBatches(before, batches[..n], written[..n], table)
        && IsCollapsed(batches[n], DeletedIds(Flatten(batches[..n])), written[n])
        && after == AppliedAll(table, written[n]);
      BatchesReplay(before, batches[..n], written[..n], table);
      BatchExtendsReplay(before, Flatten(batches[..n]), table, batches[n], written[n]);
    } else {
      assert forall id :: LastUpsert([], id) == None;
    }
  }

  /** Two runs over one stream, cut into batches in two different ways, leave the same host table. */
  lemma BatchBoundariesDoNotShow(before: HostTable, batches1: seq<seq<Record>>, written1: seq<seq<Record>>,
                                 after1: HostTable,
                                 batches2: seq<seq<Record>>, written2: seq<seq<Record>>, after2: HostTable)
    requires |batches1| == |written1| && WrittenInBatches(before, batches1, written1, after1)
    requires |batches2| == |written2| && WrittenInBatches(before, batches2, written2, after2)
    requires Flatten(batches1) == Flatten(batches2)
    ensures after1 == after2
  {
    BatchesReplay(before, batches1, written1, after1);
    BatchesReplay(before, batches2, written2, after2);
    ReplayIsDetermined(before, Flatten(batches1), after1, after2);
  }

  /** Crash and retry: re-running the whole scope over whatever an interrupted run left gives exactly
      what one clean run would have given. */
  lemma RetryAfterCrash(before: HostTable, stream: seq<Record>, crashed: HostTable, after: HostTable)
    requires IsPartial(before, stream, crashed) && IsReplay(crashed, stream, after)
    ensures IsReplay(before, stream, after)
  {
    forall id ensures Lookup(after, id) == Outcome(Lookup(before, id), stream, id) {
      LastUpsertIsThere(stream, id);
    }
  }

  /** Any number of crashes in a row leave no more than one crash could. */
  lemma CrashAfterCrash(before: HostTable, stream: seq<Record>, once: HostTable, twice: HostTable)
    requires IsPartial(before, stream, once) && IsPartial(once, stream, twice)
    ensures IsPartial(before, stream, twice)
  {
    forall id
      ensures || Lookup(twice, id) == Lookup(before, id)
              || (id in twice && Upsert(id, twice[id]) in stream)
              || (id !in twice && Delete(id) in stream)
    {
      assert Lookup(once, id) == Lookup(before, id) || Lookup(twice, id) != Lookup(once, id)
             || (id in once && Upsert(id, once[id]) in stream) || (id !in once && Delete(id) in stream);
    }
  }
}
