/** A whole compiled mapping: applying it to a row, and filtering rows before that.
    (django_connectors/projections/compiler.py, CompiledMapping and Filter) */
module Mapping {
  import opened Values
  import opened Compiler

  datatype FilterOp = IsNull | IsNotNull | Eq | Ne | In | NotIn | Compare(op: string)

  datatype Filter = Filter(column: string, op: FilterOp, value: Value)

  /** `nodes` are in mapping order; a JSON object has each key once. */
  datatype CompiledMapping = CompiledMapping(nodes: seq<NodeMember>, filters: seq<Filter>)

  predicate AnyEqual(env: Env, actual: Value, expected: Value) {
    expected.List? && exists i :: 0 <= i < |expected.items| && env.looseEqual(actual, expected.items[i])
  }

  predicate FilterMatches(env: Env, filter: Filter, row: Row) {
    var actual := Cell(row, filter.column);
    match filter.op
    case IsNull => actual.Null?
    case IsNotNull => !actual.Null?
    case Eq => !actual.Null? && env.looseEqual(actual, filter.value)
    case Ne => !actual.Null? && !env.looseEqual(actual, filter.value)
    case In => !actual.Null? && AnyEqual(env, actual, filter.value)
    case NotIn => !actual.Null? && !AnyEqual(env, actual, filter.value)
    case Compare(op) => !actual.Null? && env.compare(op, actual, filter.value)
  }

  predicate Matches(env: Env, filters: seq<Filter>, row: Row) {
    forall i :: 0 <= i < |filters| ==> FilterMatches(env, filters[i], row)
  }

  function Applied(env: Env, nodes: seq<NodeMember>, row: Row, only: Option<set<string>>): Result<Row, Failure> {
    if nodes == [] then Ok(map[])
    else if only.Some? && nodes[0].key !in only.value then Applied(env, nodes[1..], row, only)
    else
      var value :- Evaluate(env, nodes[0].node, row);
      var rest :- Applied(env, nodes[1..], row, only);
      Ok(map[nodes[0].key := value] + rest)
  }

  ghost function Continued(values: Row, rest: Result<Row, Failure>): Result<Row, Failure> {
    match rest
    case Ok(more) => Ok(values + more)
    case Err(e) => Err(e)
  }

  method Apply(env: Env, mapping: CompiledMapping, row: Row, only: Option<set<string>>)
    returns (r: Result<Row, Failure>)
    ensures r == Applied(env, mapping.nodes, row, only)
  {
    hide Evaluate, Applied, Continued;
    var values: Row := map[];
    var i := 0;
    ApplyBegins(env, mapping.nodes, row, only);
    while i < |mapping.nodes|
      invariant i <= |mapping.nodes|
      invariant Applied(env, mapping.nodes, row, only) == Continued(values, Applied(env, mapping.nodes[i..], row, only))
    {
      var member := mapping.nodes[i];
      ApplyContinues(env, mapping.nodes[i..], row, only, values);
      assert mapping.nodes[i..][1..] == mapping.nodes[i + 1..];
      if only.None? || member.key in only.value {
        var value := Evaluate(env, member.node, row);
        if value.Err? { return Err(value.error); }
        values := values[member.key := value.value];
      }
      i := i + 1;
    }
    assert mapping.nodes[i..] == [];
    ApplyEnds(env, row, only, values);
    return Ok(values);
  }

  lemma ApplyBegins(env: Env, nodes: seq<NodeMember>, row: Row, only: Option<set<string>>)
    ensures Applied(env, nodes, row, only) == Continued(map[], Applied(env, nodes[0..], row, only))
  {
    hide Evaluate;
    assert nodes[0..] == nodes;
    var r := Applied(env, nodes, row, only);
    assert r.Ok? ==> map[] + r.value == r.value;
  }

  lemma ApplyContinues(env: Env, nodes: seq<NodeMember>, row: Row, only: Option<set<string>>, values: Row)
    requires nodes != []
    ensures var rest := Applied(env, nodes[1..], row, only);
            Continued(values, Applied(env, nodes, row, only)) ==
            if only.Some? && nodes[0].key !in only.value then Continued(values, rest)
            else match Evaluate(env, nodes[0].node, row)
                 case Err(e) => Err(e)
                 case Ok(v) => Continued(values[nodes[0].key := v], rest)
  {
    hide Evaluate;
    var value, rest := Evaluate(env, nodes[0].node, row), Applied(env, nodes[1..], row, only);
    if value.Ok? && rest.Ok? {
      var key := nodes[0].key;
      assert values + (map[key := value.value] + rest.value) == values[key := value.value] + rest.value;
    }
  }

  lemma ApplyEnds(env: Env, row: Row, only: Option<set<string>>, values: Row)
    ensures Continued(values, Applied(env, [], row, only)) == Ok(values)
  {
    assert values + map[] == values;
  }

  predicate Asked(only: Option<set<string>>, key: string) { only.Some? ==> key in only.value }

  ghost predicate DistinctKeys(nodes: seq<NodeMember>) {
    forall i, j :: 0 <= i < j < |nodes| ==> nodes[i].key != nodes[j].key
  }

  /** Every asked field, and no other, has a value. */
  lemma {:induction false} AppliedKeys(env: Env, nodes: seq<NodeMember>, row: Row, only: Option<set<string>>)
    requires Applied(env, nodes, row, only).Ok?
    ensures forall key :: key in Applied(env, nodes, row, only).value <==> key in Keys(nodes) && Asked(only, key)
  {
    hide Evaluate;
    if nodes != [] {
      KeysOfNext(nodes);
      AppliedKeys(env, nodes[1..], row, only);
    }
  }

  /** The value is what the field's own expression evaluates to. */
  lemma {:induction false} AppliedFieldByField(env: Env, nodes: seq<NodeMember>, row: Row, only: Option<set<string>>,
                                               i: nat)
    requires DistinctKeys(nodes) && i < |nodes| && Asked(only, nodes[i].key) && Applied(env, nodes, row, only).Ok?
    ensures var values := Applied(env, nodes, row, only).value;
            nodes[i].key in values && Evaluate(env, nodes[i].node, row) == Ok(values[nodes[i].key])
  {
    hide Evaluate;
    var tail := nodes[1..];
    if i > 0 {
      assert tail[i - 1] == nodes[i];
      AppliedFieldByField(env, tail, row, only, i - 1);
    } else {
      AppliedKeys(env, tail, row, only);
      assert forall j :: 0 <= j < |tail| ==> tail[j] == nodes[j + 1];
    }
  }

  /** Nothing comes out exactly when an asked field fails. */
  lemma {:induction false} AppliedIff(env: Env, nodes: seq<NodeMember>, row: Row, only: Option<set<string>>)
    ensures Applied(env, nodes, row, only).Ok?
       <==> forall i :: 0 <= i < |nodes| && Asked(only, nodes[i].key) ==> Evaluate(env, nodes[i].node, row).Ok?
  {
    hide Evaluate;
    if nodes != [] {
      AppliedIff(env, nodes[1..], row, only);
      assert forall i :: 0 < i < |nodes| ==> nodes[i] == nodes[1..][i - 1];
    }
  }

  lemma KeysOfNext(nodes: seq<NodeMember>)
    requires nodes != []
    ensures Keys(nodes) == {nodes[0].key} + Keys(nodes[1..])
  {
    assert forall i :: 0 < i < |nodes| ==> nodes[i] == nodes[1..][i - 1];
    forall key | key in Keys(nodes[1..]) ensures key in Keys(nodes) {
      var i :| 0 <= i < |nodes[1..]| && nodes[1..][i].key == key;
      assert nodes[i + 1].key == key;
    }
  }

  /** The failure reported is that of the first asked field that fails. */
  lemma {:induction false} AppliedFailsFirst(env: Env, nodes: seq<NodeMember>, row: Row, only: Option<set<string>>,
                                             i: int)
    requires FirstToFail(env, nodes, row, only, i)
    ensures Applied(env, nodes, row, only) == Err(Evaluate(env, nodes[i].node, row).error)
  {
    hide Evaluate;
    if i > 0 {
      var tail := nodes[1..];
      forall j | 0 <= j < i - 1 && Asked(only, tail[j].key) ensures Evaluate(env, tail[j].node, row).Ok? {
        assert tail[j] == nodes[j + 1];
      }
      AppliedFailsFirst(env, tail, row, only, i - 1);
    }
  }

  ghost predicate FirstToFail(env: Env, nodes: seq<NodeMember>, row: Row, only: Option<set<string>>, i: int) {
    && 0 <= i < |nodes| && Asked(only, nodes[i].key) && Evaluate(env, nodes[i].node, row).Err?
    && forall j :: 0 <= j < i && Asked(only, nodes[j].key) ==> Evaluate(env, nodes[j].node, row).Ok?
  }

  function Restricted(values: Row, only: set<string>): Row {
    map name | name in values && name in only :: values[name]
  }

  /** Asking for some fields gives exactly those fields of a full application that succeeds. */
  lemma {:induction false} ApplyOnlyIsAPart(env: Env, nodes: seq<NodeMember>, row: Row, only: set<string>)
    requires Applied(env, nodes, row, None).Ok?
    ensures Applied(env, nodes, row, Some(only)) == Ok(Restricted(Applied(env, nodes, row, None).value, only))
  {
    hide Evaluate;
    if nodes == [] {
      assert Restricted(map[], only) == map[];
    } else {
      ApplyOnlyIsAPart(env, nodes[1..], row, only);
      var key, value := nodes[0].key, Evaluate(env, nodes[0].node, row).value;
      var rest := Applied(env, nodes[1..], row, None).value;
      if key in only {
        assert Restricted(map[key := value] + rest, only) == map[key := value] + Restricted(rest, only);
      } else {
        assert Restricted(map[key := value] + rest, only) == Restricted(rest, only);
      }
    }
  }

  /** The columns the fields in `only` read. */
  function ColumnsOf(nodes: seq<NodeMember>, only: set<string>): set<string> {
    if nodes == [] then {}
    else (if nodes[0].key in only then SourceColumns(nodes[0].node) else {}) + ColumnsOf(nodes[1..], only)
  }

  /** Fields outside `only` cannot influence the result, even by failing. */
  lemma {:induction false} ApplyOnlyDependsOnItsColumns(env: Env, nodes: seq<NodeMember>, r1: Row, r2: Row,
                                                        only: set<string>)
    requires AgreeOn(r1, r2, ColumnsOf(nodes, only))
    ensures Applied(env, nodes, r1, Some(only)) == Applied(env, nodes, r2, Some(only))
  {
    if nodes != [] {
      if nodes[0].key in only { EvaluationDependsOnSourceColumns(env, nodes[0].node, r1, r2); }
      ApplyOnlyDependsOnItsColumns(env, nodes[1..], r1, r2, only);
    }
  }

  /** When every referenced column is in the row, a failure is always one row's data, never the mapping. */
  lemma {:induction false} AppliedMappingIsNotBlamed(env: Env, nodes: seq<NodeMember>, row: Row,
                                                     only: Option<set<string>>)
    requires WellFormedMembers(env, nodes)
    requires ColumnsOf(nodes, if only.Some? then only.value else Keys(nodes)) <= row.Keys
    ensures Applied(env, nodes, row, only) != Err(MappingValidation)
  {
    if nodes != [] {
      var fields := if only.Some? then only.value else Keys(nodes);
      if nodes[0].key in fields { NoMissingColumn(env, nodes[0].node, row); }
      if only.None? { ColumnsOfFewer(nodes[1..], Keys(nodes[1..]), Keys(nodes)); }
      AppliedMappingIsNotBlamed(env, nodes[1..], row, only);
    }
  }

  function Keys(nodes: seq<NodeMember>): set<string> {
    set i | 0 <= i < |nodes| :: nodes[i].key
  }

  lemma {:induction false} ColumnsOfFewer(nodes: seq<NodeMember>, fewer: set<string>, more: set<string>)
    requires fewer <= more
    ensures ColumnsOf(nodes, fewer) <= ColumnsOf(nodes, more)
  {
    if nodes != [] { ColumnsOfFewer(nodes[1..], fewer, more); }
  }
}
