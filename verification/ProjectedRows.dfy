/** What a landed row is projected to, field by field: which records come out of it, and which do not.
    (django_connectors/projections/runner.py, _project) */
module ProjectedRows {
  import opened Values
  import opened Compiler
  import opened Mapping
  import opened ProjectionRunner

  /** The values Python reads as false. */
  const FALSY: set<Value> := {Null, Bool(false), Int(0), Float(0.0), Text(""), List([]), Obj([])}

  ghost predicate IsDeleted(row: Row) { DELETED_COLUMN in row && row[DELETED_COLUMN] !in FALSY }

  lemma TruthyIff(value: Value)
    ensures Truthy(value) <==> value !in FALSY
  {
  }

  /** `v` is what expression `i` answers, as the type of its target field takes it. */
  ghost predicate GivenBy(cfg: Config, row: Row, i: nat, v: Value)
    requires i < |cfg.mapping.nodes|
  {
    var name, raw := cfg.mapping.nodes[i].key, Evaluate(cfg.env, cfg.mapping.nodes[i].node, row);
    && raw.Ok?
    && if name in cfg.target.fields then Coerced(cfg.env, Some(cfg.target.fields[name].cast), raw.value) == Ok(v)
       else raw.value == v
  }

  /** `v` is the value of the target field `name`. */
  ghost predicate Gives(cfg: Config, row: Row, name: string, v: Value) {
    exists i :: 0 <= i < |cfg.mapping.nodes| && cfg.mapping.nodes[i].key == name && GivenBy(cfg, row, i, v)
  }

  /** `id` is made of the identity fields' values, none of them None. */
  ghost predicate Identifies(cfg: Config, row: Row, id: Identity) {
    && |id| == |cfg.target.identityFields|
    && forall k :: 0 <= k < |id| ==> id[k] != Null && Gives(cfg, row, cfg.target.identityFields[k], id[k])
  }

  /** `values` are those of every mapped field and no other; the required ones are there and not None. */
  ghost predicate Fills(cfg: Config, row: Row, values: Row) {
    && values.Keys == Keys(cfg.mapping.nodes)
    && (forall name :: name in values ==> Gives(cfg, row, name, values[name]))
    && (forall name :: name in cfg.target.fields && cfg.target.fields[name].required ==>
          name in values && values[name] != Null)
  }

  /** Applying the mapping for the asked fields, then coercing. */
  function Fields(cfg: Config, row: Row, only: Option<set<string>>): Result<Row, Failure> {
    var values :- Applied(cfg.env, cfg.mapping.nodes, row, only);
    CoerceValues(cfg.env, cfg.target, values)
  }

  ghost predicate AskedFor(cfg: Config, only: Option<set<string>>, i: int) {
    0 <= i < |cfg.mapping.nodes| && Asked(only, cfg.mapping.nodes[i].key)
  }

  lemma GivenIff(cfg: Config, row: Row, only: Option<set<string>>, i: nat, v: Value)
    requires DistinctKeys(cfg.mapping.nodes) && AskedFor(cfg, only, i)
    requires Applied(cfg.env, cfg.mapping.nodes, row, only).Ok?
    ensures var name, values := cfg.mapping.nodes[i].key, Applied(cfg.env, cfg.mapping.nodes, row, only).value;
            && name in values
            && (GivenBy(cfg, row, i, v) <==> CoerceField(cfg.env, cfg.target, name, values[name]) == Ok(v))
  {
    AppliedFieldByField(cfg.env, cfg.mapping.nodes, row, only, i);
    hide Evaluate, Applied, Coerced;
  }

  lemma CoercedWhole(cfg: Config, values: Row)
    ensures var r := CoerceValues(cfg.env, cfg.target, values);
            && (r.Ok? <==> forall name :: name in values ==> CoerceField(cfg.env, cfg.target, name, values[name]).Ok?)
            && (r.Ok? ==> r.value.Keys == values.Keys)
            && (r.Ok? ==> forall name :: name in values ==>
                  CoerceField(cfg.env, cfg.target, name, values[name]) == Ok(r.value[name]))
  {
    hide CoerceField;
  }

  /** Each asked field ends up with its own value. */
  lemma FieldGives(cfg: Config, row: Row, only: Option<set<string>>, i: nat)
    requires DistinctKeys(cfg.mapping.nodes) && AskedFor(cfg, only, i) && Fields(cfg, row, only).Ok?
    ensures var values := Fields(cfg, row, only).value;
            cfg.mapping.nodes[i].key in values && GivenBy(cfg, row, i, values[cfg.mapping.nodes[i].key])
  {
    var applied := Applied(cfg.env, cfg.mapping.nodes, row, only).value;
    CoercedWhole(cfg, applied);
    AppliedFieldByField(cfg.env, cfg.mapping.nodes, row, only, i);
    GivenIff(cfg, row, only, i, Fields(cfg, row, only).value[cfg.mapping.nodes[i].key]);
  }

  lemma FieldsKeys(cfg: Config, row: Row, only: Option<set<string>>)
    requires Fields(cfg, row, only).Ok?
    ensures forall name ::
              name in Fields(cfg, row, only).value <==> name in Keys(cfg.mapping.nodes) && Asked(only, name)
  {
    AppliedKeys(cfg.env, cfg.mapping.nodes, row, only);
    CoercedWhole(cfg, Applied(cfg.env, cfg.mapping.nodes, row, only).value);
  }

  /** Nothing comes out only when an asked field has no value. */
  lemma FieldsIff(cfg: Config, row: Row, only: Option<set<string>>)
    requires DistinctKeys(cfg.mapping.nodes)
    requires forall i :: AskedFor(cfg, only, i) ==> exists v :: GivenBy(cfg, row, i, v)
    ensures Fields(cfg, row, only).Ok?
  {
    var nodes := cfg.mapping.nodes;
    AppliedIff(cfg.env, nodes, row, only);
    forall i | 0 <= i < |nodes| && Asked(only, nodes[i].key) ensures Evaluate(cfg.env, nodes[i].node, row).Ok? {
      assert AskedFor(cfg, only, i);
    }
    var applied := Applied(cfg.env, nodes, row, only).value;
    AppliedKeys(cfg.env, nodes, row, only);
    hide Applied, CoerceField, GivenBy, CoerceValues;
    CoercedWhole(cfg, applied);
    forall name | name in applied ensures CoerceField(cfg.env, cfg.target, name, applied[name]).Ok? {
      var i :| 0 <= i < |nodes| && nodes[i].key == name;
      assert AskedFor(cfg, only, i);
      var v :| GivenBy(cfg, row, i, v);
      GivenIff(cfg, row, only, i, v);
    }
  }

  lemma GivesOnce(cfg: Config, row: Row, i: nat, v: Value)
    requires DistinctKeys(cfg.mapping.nodes) && i < |cfg.mapping.nodes|
    ensures Gives(cfg, row, cfg.mapping.nodes[i].key, v) <==> GivenBy(cfg, row, i, v)
  {
    hide GivenBy;
  }

  /** The value of a field that was asked for is the one its expression gives, and there is no other. */
  lemma ValuesAreGiven(cfg: Config, row: Row, only: Option<set<string>>, name: string, v: Value)
    requires DistinctKeys(cfg.mapping.nodes) && Fields(cfg, row, only).Ok? && Asked(only, name)
    ensures Gives(cfg, row, name, v) <==>
            name in Fields(cfg, row, only).value && Fields(cfg, row, only).value[name] == v
  {
    FieldsKeys(cfg, row, only);
    hide Fields, GivenBy;
    if name in Keys(cfg.mapping.nodes) {
      var i :| 0 <= i < |cfg.mapping.nodes| && cfg.mapping.nodes[i].key == name;
      FieldGives(cfg, row, only, i);
      GivesOnce(cfg, row, i, v);
      GivenOnce(cfg, row, i, v, Fields(cfg, row, only).value[name]);
    }
  }

  lemma GivenOnce(cfg: Config, row: Row, i: nat, v: Value, w: Value)
    requires i < |cfg.mapping.nodes| && GivenBy(cfg, row, i, w)
    ensures GivenBy(cfg, row, i, v) <==> v == w
  {
  }

  /** Fields that all have values come out. */
  lemma GivenFieldsComeOut(cfg: Config, row: Row, only: Option<set<string>>)
    requires DistinctKeys(cfg.mapping.nodes)
    requires forall name :: name in Keys(cfg.mapping.nodes) && Asked(only, name) ==>
               exists v :: Gives(cfg, row, name, v)
    ensures Fields(cfg, row, only).Ok?
  {
    hide GivenBy, Fields;
    forall i | AskedFor(cfg, only, i) ensures exists v :: GivenBy(cfg, row, i, v) {
      var name := cfg.mapping.nodes[i].key;
      assert name in Keys(cfg.mapping.nodes);
      var v :| Gives(cfg, row, name, v);
      GivesOnce(cfg, row, i, v);
    }
    FieldsIff(cfg, row, only);
  }

  /** The identity taken from coerced values is the one the identity fields give. */
  lemma IdentityGiven(cfg: Config, row: Row, only: Option<set<string>>, id: Identity)
    requires DistinctKeys(cfg.mapping.nodes) && Fields(cfg, row, only).Ok?
    requires forall k :: 0 <= k < |cfg.target.identityFields| ==> Asked(only, cfg.target.identityFields[k])
    ensures Identifies(cfg, row, id)
       <==> Null !in id && id == IdentityOf(cfg.target, Fields(cfg, row, only).value)
  {
    hide Fields, Gives;
    var values := Fields(cfg, row, only).value;
    forall k | 0 <= k < |id| && k < |cfg.target.identityFields|
      ensures id[k] != Null ==> (Gives(cfg, row, cfg.target.identityFields[k], id[k])
                                 <==> id[k] == IdentityOf(cfg.target, values)[k])
    {
      ValuesAreGiven(cfg, row, only, cfg.target.identityFields[k], id[k]);
    }
  }

  /** A row marked deleted deletes exactly the identity its identity fields give, whatever its other fields do. */
  lemma DeletesExactly(cfg: Config, row: Row, id: Identity)
    requires DistinctKeys(cfg.mapping.nodes)
    ensures Project(cfg, row) == Ok(Delete(id)) <==> IsDeleted(row) && Identifies(cfg, row, id)
  {
    var only := Some(IdentityNames(cfg.target));
    TruthyIff(Cell(row, DELETED_COLUMN));
    if IsDeleted(row) {
      ProjectedDelete(cfg, row);
      hide Project, Fields, Gives, Truthy, IdentityOf;
      if Fields(cfg, row, only).Ok? {
        IdentityGiven(cfg, row, only, id);
      } else if Identifies(cfg, row, id) {
        forall name | name in Keys(cfg.mapping.nodes) && Asked(only, name)
          ensures exists v :: Gives(cfg, row, name, v)
        {
          var k :| 0 <= k < |cfg.target.identityFields| && cfg.target.identityFields[k] == name;
          assert Gives(cfg, row, name, id[k]);
        }
        GivenFieldsComeOut(cfg, row, only);
      }
    }
  }

  lemma ProjectedDelete(cfg: Config, row: Row)
    requires Truthy(Cell(row, DELETED_COLUMN))
    ensures var fields := Fields(cfg, row, Some(IdentityNames(cfg.target)));
            && (fields.Err? ==> Project(cfg, row) == Err(fields.error))
            && (fields.Ok? ==>
                  var id := IdentityOf(cfg.target, fields.value);
                  Project(cfg, row) == if Null in id then Err(InvalidRecord) else Ok(Delete(id)))
  {
    hide Applied, CoerceValues, Truthy;
  }

  lemma ProjectedUpsert(cfg: Config, row: Row)
    requires !Truthy(Cell(row, DELETED_COLUMN))
    ensures var fields := Fields(cfg, row, None);
            && (fields.Err? ==> Project(cfg, row) == Err(fields.error))
            && (fields.Ok? ==>
                  var id := IdentityOf(cfg.target, fields.value);
                  Project(cfg, row)
                  == if Null in id || RequiredMissing(cfg.target, fields.value) then Err(InvalidRecord)
                     else Ok(Upsert(id, fields.value)))
  {
    hide Applied, CoerceValues, Truthy;
  }

  /** Any other row upserts exactly the values its fields give, under the identity among them. */
  lemma UpsertsExactly(cfg: Config, row: Row, id: Identity, values: Row)
    requires DistinctKeys(cfg.mapping.nodes)
    ensures Project(cfg, row) == Ok(Upsert(id, values))
       <==> !IsDeleted(row) && Fills(cfg, row, values) && Identifies(cfg, row, id)
  {
    TruthyIff(Cell(row, DELETED_COLUMN));
    if IsDeleted(row) {
      ProjectedDelete(cfg, row);
    } else {
      ProjectedUpsert(cfg, row);
      hide Project, Fields, Gives, Truthy, IdentityOf;
      if Fills(cfg, row, values) {
        forall name | name in Keys(cfg.mapping.nodes) ensures exists v :: Gives(cfg, row, name, v) {
          assert Gives(cfg, row, name, values[name]);
        }
        GivenFieldsComeOut(cfg, row, None);
      }
      if Fields(cfg, row, None).Ok? {
        IdentityGiven(cfg, row, None, id);
        FillsIff(cfg, row, values);
      }
    }
  }

  lemma FillsIff(cfg: Config, row: Row, values: Row)
    requires DistinctKeys(cfg.mapping.nodes) && Fields(cfg, row, None).Ok?
    ensures Fills(cfg, row, values)
       <==> values == Fields(cfg, row, None).value && !RequiredMissing(cfg.target, values)
  {
    FieldsKeys(cfg, row, None);
    hide Fields, Gives;
    forall name, v ensures Gives(cfg, row, name, v) <==>
                           name in Fields(cfg, row, None).value && Fields(cfg, row, None).value[name] == v
    {
      ValuesAreGiven(cfg, row, None, name, v);
    }
  }

  // ---------------------------------------------------------------- which rows stop a run

  /** The fields evaluated for this row: a tombstone's identity, or all. */
  ghost function Wanted(cfg: Config, row: Row): Option<set<string>> {
    if IsDeleted(row) then Some(set i | 0 <= i < |cfg.target.identityFields| :: cfg.target.identityFields[i]) else None
  }

  /** The first of those fields that cannot be evaluated reads a column that is not there. */
  ghost predicate BlamesMapping(cfg: Config, row: Row) {
    exists i :: FirstToFail(cfg.env, cfg.mapping.nodes, row, Wanted(cfg, row), i)
             && Evaluate(cfg.env, cfg.mapping.nodes[i].node, row) == Err(MappingValidation)
  }

  lemma ProjectFails(cfg: Config, row: Row)
    ensures Project(cfg, row) == Err(MappingValidation)
       <==> Applied(cfg.env, cfg.mapping.nodes, row, Wanted(cfg, row)) == Err(MappingValidation)
  {
    TruthyIff(Cell(row, DELETED_COLUMN));
    if IsDeleted(row) { ProjectedDelete(cfg, row); } else { ProjectedUpsert(cfg, row); }
    hide Project, Applied, Truthy;
    assert IsDeleted(row) ==> Wanted(cfg, row) == Some(IdentityNames(cfg.target));
  }

  lemma FirstOfFailures(env: Env, nodes: seq<NodeMember>, row: Row, only: Option<set<string>>, n: nat) returns (i: nat)
    requires n < |nodes| && Asked(only, nodes[n].key) && Evaluate(env, nodes[n].node, row).Err?
    ensures FirstToFail(env, nodes, row, only, i)
  {
    hide Evaluate;
    i := 0;
    while i < n && (Asked(only, nodes[i].key) ==> Evaluate(env, nodes[i].node, row).Ok?)
      invariant i <= n
      invariant forall j :: 0 <= j < i && Asked(only, nodes[j].key) ==> Evaluate(env, nodes[j].node, row).Ok?
    {
      i := i + 1;
    }
  }

  /** A selected row that gives no record stops the run exactly when bad rows may not be skipped, or when it is the
      mapping that fails it: skipping never hides a column that is not there. */
  lemma StopsIff(cfg: Config, row: Row)
    ensures Fatal(cfg, row)
       <==> && Matches(cfg.env, cfg.mapping.filters, row) && RecordOf(cfg, row) == []
            && (!cfg.skipInvalid || BlamesMapping(cfg, row))
    ensures Skipped(cfg, row)
       <==> && Matches(cfg.env, cfg.mapping.filters, row) && RecordOf(cfg, row) == []
            && cfg.skipInvalid && !BlamesMapping(cfg, row)
  {
    var nodes, only := cfg.mapping.nodes, Wanted(cfg, row);
    ProjectFails(cfg, row);
    AppliedIff(cfg.env, nodes, row, only);
    hide Project, Applied, Evaluate, Matches, Wanted;
    if BlamesMapping(cfg, row) {
      var i :|
        && FirstToFail(cfg.env, nodes, row, only, i)
        && Evaluate(cfg.env, nodes[i].node, row) == Err(MappingValidation);
      AppliedFailsFirst(cfg.env, nodes, row, only, i);
    } else if Applied(cfg.env, nodes, row, only).Err? {
      var n :| 0 <= n < |nodes| && Asked(only, nodes[n].key) && Evaluate(cfg.env, nodes[n].node, row).Err?;
      var i := FirstOfFailures(cfg.env, nodes, row, only, n);
      AppliedFailsFirst(cfg.env, nodes, row, only, i);
    }
  }
}
