/** Validating a Projection, and what it buys: a tombstone still finds the host's record.
    (django_connectors/projections/validator.py) */
module Validator {
  import opened Values
  import opened Compiler
  import opened Mapping
  import opened ProjectionRunner

  /** The landed columns with their dlt types, where the schema names one. */
  type Schema = map<string, Option<string>>

  const UNMAPPABLE_DLT_TYPES := {"wei", "binary"}

  datatype Problem =
    | UnknownTarget
    | DoesNotCompile
    | UnknownTargetFields(fields: set<string>)
    | MissingRequired(fields: set<string>)
    | MissingIdentity(fields: set<string>)
    | UnknownColumns(columns: set<string>)
    | UnmappableType(field: string, column: string)
    | IdentityNotScalar(field: string)
    | IdentityOutsideMergeKey(field: string, columns: set<string>)

  datatype Warning =
    | SchemaUnknown
    | VariantColumns(column: string)
    | CoercedType(field: string, column: string)
    | MergeKeyUnknown
    | IdentityCoarserThanMergeKey(columns: set<string>)

  datatype Status = Active | NeedsReview | Invalid

  /** `status_for` */
  function StatusFor(errors: seq<Problem>, warnings: seq<Warning>): Status {
    if errors != [] then Invalid else if warnings != [] then NeedsReview else Active
  }

  class ValidationResult {
    var errors: seq<Problem>
    var warnings: seq<Warning>

    constructor ()
      ensures errors == [] && warnings == []
    {
      errors, warnings := [], [];
    }

    method Error(problem: Problem)
      modifies this`errors
      ensures errors == old(errors) + [problem]
    {
      errors := errors + [problem];
    }

    method Warn(warning: Warning)
      modifies this`warnings
      ensures warnings == old(warnings) + [warning]
    {
      warnings := warnings + [warning];
    }
  }

  function NodeFor(nodes: seq<NodeMember>, field: string): Option<Node> {
    if nodes == [] then None
    else if nodes[0].key == field then Some(nodes[0].node)
    else NodeFor(nodes[1..], field)
  }

  predicate InternalColumn(column: string) { "_connector_" <= column || "_dlt_" <= column }

  function Required(target: Target): set<string> {
    set name | name in target.fields && target.fields[name].required
  }

  function FilterColumns(filters: seq<Filter>): set<string> {
    set i | 0 <= i < |filters| :: filters[i].column
  }

  function Referenced(mapping: CompiledMapping): set<string> {
    ColumnsOf(mapping.nodes, Keys(mapping.nodes)) + FilterColumns(mapping.filters)
  }

  predicate CastsToJson(node: Node) {
    match node
    case SourceRef(_, _, cast, _) => cast.Some? && cast.value.name == "json"
    case FunctionCall(_, _, cast) => cast.Some? && cast.value.name == "json"
    case _ => false
  }

  predicate ScalarIdentity(nodes: seq<NodeMember>, field: string) {
    var node := NodeFor(nodes, field);
    node.Some? ==> !node.value.ObjectNode? && !CastsToJson(node.value)
  }

  /** The columns an identity field reads that a tombstone does not carry. */
  function Outside(nodes: seq<NodeMember>, field: string, mergeKey: set<string>): set<string> {
    match NodeFor(nodes, field)
    case None => {}
    case Some(node) => SourceColumns(node) - (mergeKey + {BINDING_ID_COLUMN, DELETED_COLUMN})
  }

  predicate TargetFieldsCovered(target: Target, mapping: CompiledMapping) {
    && Keys(mapping.nodes) <= target.fields.Keys
    && Required(target) <= Keys(mapping.nodes)
    && IdentityNames(target) <= Keys(mapping.nodes)
  }

  predicate Unmappable(landed: Schema, column: string) {
    column in landed && landed[column].Some? && landed[column].value in UNMAPPABLE_DLT_TYPES
  }

  /** A declared field reads no column of a type without a target representation. */
  predicate FieldTypesMappable(target: Target, member: NodeMember, landed: Schema) {
    member.key in target.fields ==>
      forall column :: column in SourceColumns(member.node) ==> !Unmappable(landed, column)
  }

  /** The column's type is one the field takes only by coercing it, row by row. */
  predicate Coerces(field: Field, landed: Schema, column: string) {
    && column in landed && landed[column].Some? && !Unmappable(landed, column)
    && field.compatible != {} && landed[column].value !in field.compatible
  }

  predicate FieldTypesCompatible(target: Target, member: NodeMember, landed: Schema) {
    member.key in target.fields ==>
      forall column :: column in SourceColumns(member.node) ==> !Coerces(target.fields[member.key], landed, column)
  }

  /** dlt's sibling columns of one whose type changed mid-stream. */
  predicate HasVariants(landed: Schema, column: string) {
    exists name :: name in landed && column + "__v_" <= name
  }

  /** What the identity fields read. */
  function IdentityColumns(nodes: seq<NodeMember>, fields: seq<string>): set<string> {
    if fields == [] then {}
    else
      IdentityColumns(nodes, fields[..|fields| - 1]) +
      match NodeFor(nodes, fields[|fields| - 1])
      case None => {}
      case Some(node) => SourceColumns(node)
  }

  function BusinessKey(mergeKey: set<string>): set<string> {
    set column | column in mergeKey && !InternalColumn(column)
  }

  predicate IdentityObtainable(target: Target, mapping: CompiledMapping, mergeKey: set<string>) {
    forall i :: 0 <= i < |target.identityFields| ==> Outside(mapping.nodes, target.identityFields[i], mergeKey) == {}
  }

  /** Each names exactly the fields it is about, and there are some. */
  ghost predicate FieldProblem(target: Target, mapping: CompiledMapping, p: Problem) {
    match p
    case UnknownTargetFields(fields) =>
      fields != {} && forall name :: name in fields <==> name in Keys(mapping.nodes) && name !in target.fields
    case MissingRequired(fields) =>
      fields != {} && forall name :: name in fields <==>
        name in target.fields && target.fields[name].required && name !in Keys(mapping.nodes)
    case MissingIdentity(fields) =>
      fields != {} && forall name :: name in fields <==> name in target.identityFields && name !in Keys(mapping.nodes)
    case _ => false
  }

  lemma NoneLeftIff<T>(a: set<T>, b: set<T>)
    ensures a - b == {} <==> a <= b
  {
    if !(a <= b) {
      var x :| x in a && x !in b;
      assert x in a - b;
    }
  }

  lemma FieldProblemIff(target: Target, mapping: CompiledMapping, p: Problem)
    ensures var produced := Keys(mapping.nodes);
            FieldProblem(target, mapping, p) <==>
              || (p == UnknownTargetFields(produced - target.fields.Keys) && !(produced <= target.fields.Keys))
              || (p == MissingRequired(Required(target) - produced) && !(Required(target) <= produced))
              || (p == MissingIdentity(IdentityNames(target) - produced) && !(IdentityNames(target) <= produced))
  {
    var produced := Keys(mapping.nodes);
    hide Keys;
    assert forall name :: name in IdentityNames(target) <==> name in target.identityFields;
    NoneLeftIff(produced, target.fields.Keys);
    NoneLeftIff(Required(target), produced);
    NoneLeftIff(IdentityNames(target), produced);
    if FieldProblem(target, mapping, p) {
      match p
      case UnknownTargetFields(fields) => assert fields == produced - target.fields.Keys;
      case MissingRequired(fields) => assert fields == Required(target) - produced;
      case MissingIdentity(fields) => assert fields == IdentityNames(target) - produced;
    }
  }

  /** A declared field's column of a type no target takes. */
  ghost predicate IsTypeProblem(target: Target, member: NodeMember, landed: Schema, p: Problem) {
    && p.UnmappableType? && p.field == member.key && member.key in target.fields
    && p.column in SourceColumns(member.node) && Unmappable(landed, p.column)
  }

  ghost predicate IsTypeWarning(target: Target, member: NodeMember, landed: Schema, w: Warning) {
    && w.CoercedType? && w.field == member.key && member.key in target.fields
    && w.column in SourceColumns(member.node) && Coerces(target.fields[member.key], landed, w.column)
  }

  ghost predicate TypeProblem(target: Target, nodes: seq<NodeMember>, landed: Schema, p: Problem) {
    exists i :: 0 <= i < |nodes| && IsTypeProblem(target, nodes[i], landed, p)
  }

  ghost predicate TypeWarning(target: Target, nodes: seq<NodeMember>, landed: Schema, w: Warning) {
    exists i :: 0 <= i < |nodes| && IsTypeWarning(target, nodes[i], landed, w)
  }

  lemma OneMoreField(target: Target, nodes: seq<NodeMember>, i: nat, landed: Schema)
    requires i < |nodes|
    ensures forall p :: TypeProblem(target, nodes[..i + 1], landed, p)
                   <==> TypeProblem(target, nodes[..i], landed, p) || IsTypeProblem(target, nodes[i], landed, p)
    ensures forall w :: TypeWarning(target, nodes[..i + 1], landed, w)
                   <==> TypeWarning(target, nodes[..i], landed, w) || IsTypeWarning(target, nodes[i], landed, w)
  {
    hide IsTypeProblem, IsTypeWarning;
    assert forall k :: 0 <= k < i ==> nodes[..i][k] == nodes[..i + 1][k];
    assert nodes[..i + 1][i] == nodes[i];
  }

  /** `x` was added since `before`. */
  ghost predicate Added<T>(before: seq<T>, after: seq<T>, x: T) {
    exists i :: |before| <= i < |after| && after[i] == x
  }

  lemma AddOne<T>(before: seq<T>, after: seq<T>, x: T)
    requires before <= after
    ensures forall y :: Added(before, after + [x], y) <==> Added(before, after, y) || y == x
  {
    var more := after + [x];
    assert more[|after|] == x;
    forall y | Added(before, after, y) ensures Added(before, more, y) {
      var i :| |before| <= i < |after| && after[i] == y;
      assert more[i] == y;
    }
  }

  lemma AddMore<T>(before: seq<T>, middle: seq<T>, after: seq<T>)
    requires before <= middle <= after
    ensures forall x :: Added(before, after, x) <==> Added(before, middle, x) || Added(middle, after, x)
  {
  }

  method CheckTargetFields(result: ValidationResult, target: Target, mapping: CompiledMapping)
    modifies result`errors
    ensures old(result.errors) <= result.errors
    ensures result.errors == old(result.errors) <==> TargetFieldsCovered(target, mapping)
    ensures forall p :: Added(old(result.errors), result.errors, p) <==> FieldProblem(target, mapping, p)
  {
    var produced := Keys(mapping.nodes);
    forall p {
      FieldProblemIff(target, mapping, p);
    }
    hide FieldProblem, Keys, Required, IdentityNames;
    if !(produced <= target.fields.Keys) {
      AddOne(old(result.errors), result.errors, UnknownTargetFields(produced - target.fields.Keys));
      result.Error(UnknownTargetFields(produced - target.fields.Keys));
    }
    if !(Required(target) <= produced) {
      AddOne(old(result.errors), result.errors, MissingRequired(Required(target) - produced));
      result.Error(MissingRequired(Required(target) - produced));
    }
    if !(IdentityNames(target) <= produced) {
      AddOne(old(result.errors), result.errors, MissingIdentity(IdentityNames(target) - produced));
      result.Error(MissingIdentity(IdentityNames(target) - produced));
    }
  }

  method CheckSourceColumns(result: ValidationResult, mapping: CompiledMapping, landed: Schema)
    modifies result
    ensures old(result.errors) <= result.errors && old(result.warnings) <= result.warnings
    ensures result.errors == old(result.errors) <==> Referenced(mapping) <= landed.Keys
    ensures result.warnings == old(result.warnings)
       <==> forall column :: column in Referenced(mapping) ==> !HasVariants(landed, column)
    ensures forall p :: Added(old(result.errors), result.errors, p)
                   <==> p == UnknownColumns(Referenced(mapping) - landed.Keys) && !(Referenced(mapping) <= landed.Keys)
    ensures forall w :: Added(old(result.warnings), result.warnings, w)
                   <==> w.VariantColumns? && w.column in Referenced(mapping) && HasVariants(landed, w.column)
  {
    var referenced := Referenced(mapping);
    if !(referenced <= landed.Keys) {
      AddOne(old(result.errors), result.errors, UnknownColumns(referenced - landed.Keys));
      result.Error(UnknownColumns(referenced - landed.Keys));
    }
    var left := referenced;
    while left != {}
      invariant left <= referenced && old(result.warnings) <= result.warnings
      invariant old(result.errors) <= result.errors
      invariant result.errors == old(result.errors) <==> referenced <= landed.Keys
      invariant result.warnings == old(result.warnings)
           <==> forall column :: column in referenced - left ==> !HasVariants(landed, column)
      invariant forall p :: Added(old(result.errors), result.errors, p)
                       <==> p == UnknownColumns(referenced - landed.Keys) && !(referenced <= landed.Keys)
      invariant forall w :: Added(old(result.warnings), result.warnings, w)
                       <==> w.VariantColumns? && w.column in referenced - left && HasVariants(landed, w.column)
    {
      var column :| column in left;
      if HasVariants(landed, column) {
        AddOne(old(result.warnings), result.warnings, VariantColumns(column));
        result.Warn(VariantColumns(column));
      }
      left := left - {column};
    }
  }

  method CheckTypes(result: ValidationResult, target: Target, mapping: CompiledMapping, landed: Schema)
    modifies result
    ensures old(result.errors) <= result.errors && old(result.warnings) <= result.warnings
    ensures result.errors == old(result.errors)
       <==> forall i :: 0 <= i < |mapping.nodes| ==> FieldTypesMappable(target, mapping.nodes[i], landed)
    ensures result.warnings == old(result.warnings)
       <==> forall i :: 0 <= i < |mapping.nodes| ==> FieldTypesCompatible(target, mapping.nodes[i], landed)
    ensures forall p :: Added(old(result.errors), result.errors, p)
                   <==> TypeProblem(target, mapping.nodes, landed, p)
    ensures forall w :: Added(old(result.warnings), result.warnings, w)
                   <==> TypeWarning(target, mapping.nodes, landed, w)
  {
    for i := 0 to |mapping.nodes|
      invariant old(result.errors) <= result.errors && old(result.warnings) <= result.warnings
      invariant result.errors == old(result.errors)
           <==> forall k :: 0 <= k < i ==> FieldTypesMappable(target, mapping.nodes[k], landed)
      invariant result.warnings == old(result.warnings)
           <==> forall k :: 0 <= k < i ==> FieldTypesCompatible(target, mapping.nodes[k], landed)
      invariant forall p :: Added(old(result.errors), result.errors, p)
                       <==> TypeProblem(target, mapping.nodes[..i], landed, p)
      invariant forall w :: Added(old(result.warnings), result.warnings, w)
                       <==> TypeWarning(target, mapping.nodes[..i], landed, w)
    {
      OneMoreField(target, mapping.nodes, i, landed);
      if mapping.nodes[i].key in target.fields {
        ghost var errors, warnings := result.errors, result.warnings;
        CheckFieldTypes(result, target, mapping.nodes[i], landed);
        AddMore(old(result.errors), errors, result.errors);
        AddMore(old(result.warnings), warnings, result.warnings);
      }
    }
    assert mapping.nodes[..|mapping.nodes|] == mapping.nodes;
  }

  method CheckFieldTypes(result: ValidationResult, target: Target, member: NodeMember, landed: Schema)
    requires member.key in target.fields
    modifies result
    ensures old(result.errors) <= result.errors && old(result.warnings) <= result.warnings
    ensures result.errors == old(result.errors)
       <==> forall column :: column in SourceColumns(member.node) ==> !Unmappable(landed, column)
    ensures result.warnings == old(result.warnings)
       <==> forall column :: column in SourceColumns(member.node) ==>
              !Coerces(target.fields[member.key], landed, column)
    ensures forall p :: Added(old(result.errors), result.errors, p) <==> IsTypeProblem(target, member, landed, p)
    ensures forall w :: Added(old(result.warnings), result.warnings, w) <==> IsTypeWarning(target, member, landed, w)
  {
    hide SourceColumns, Unmappable;
    var field := target.fields[member.key];
    var left := SourceColumns(member.node);
    while left != {}
      invariant left <= SourceColumns(member.node)
      invariant old(result.errors) <= result.errors && old(result.warnings) <= result.warnings
      invariant result.errors == old(result.errors)
           <==> forall column :: column in SourceColumns(member.node) - left ==> !Unmappable(landed, column)
      invariant result.warnings == old(result.warnings)
           <==> forall column :: column in SourceColumns(member.node) - left ==> !Coerces(field, landed, column)
      invariant forall p :: Added(old(result.errors), result.errors, p)
                       <==> IsTypeProblem(target, member, landed, p) && p.column !in left
      invariant forall w :: Added(old(result.warnings), result.warnings, w)
                       <==> IsTypeWarning(target, member, landed, w) && w.column !in left
    {
      var column :| column in left;
      if Unmappable(landed, column) {
        AddOne(old(result.errors), result.errors, UnmappableType(member.key, column));
        result.Error(UnmappableType(member.key, column));
      } else if Coerces(field, landed, column) {
        AddOne(old(result.warnings), result.warnings, CoercedType(member.key, column));
        result.Warn(CoercedType(member.key, column));
      }
      left := left - {column};
    }
  }

  method CheckIdentityIsScalar(result: ValidationResult, target: Target, mapping: CompiledMapping)
    modifies result`errors
    ensures old(result.errors) <= result.errors
    ensures result.errors == old(result.errors)
       <==> forall i :: 0 <= i < |target.identityFields| ==> ScalarIdentity(mapping.nodes, target.identityFields[i])
    ensures forall p :: Added(old(result.errors), result.errors, p)
                   <==> && p.IdentityNotScalar? && p.field in target.identityFields
                        && !ScalarIdentity(mapping.nodes, p.field)
  {
    hide ScalarIdentity;
    for i := 0 to |target.identityFields|
      invariant old(result.errors) <= result.errors
      invariant result.errors == old(result.errors)
           <==> forall k :: 0 <= k < i ==> ScalarIdentity(mapping.nodes, target.identityFields[k])
      invariant forall p :: Added(old(result.errors), result.errors, p)
                       <==> && p.IdentityNotScalar? && p.field in target.identityFields[..i]
                            && !ScalarIdentity(mapping.nodes, p.field)
    {
      if !ScalarIdentity(mapping.nodes, target.identityFields[i]) {
        AddOne(old(result.errors), result.errors, IdentityNotScalar(target.identityFields[i]));
        result.Error(IdentityNotScalar(target.identityFields[i]));
      }
    }
  }

  /** Names an identity field and all it reads that a tombstone does not carry. */
  ghost predicate IsOutside(nodes: seq<NodeMember>, fields: seq<string>, mergeKey: set<string>, p: Problem) {
    && p.IdentityOutsideMergeKey? && p.field in fields
    && p.columns == Outside(nodes, p.field, mergeKey) && p.columns != {}
  }

  lemma NothingOutside(nodes: seq<NodeMember>, field: string, mergeKey: set<string>)
    ensures NodeFor(nodes, field).None? ==> Outside(nodes, field, mergeKey) == {}
  {
  }

  method CheckIdentityIsObtainable(result: ValidationResult, target: Target, mapping: CompiledMapping,
                                   emitsTombstones: bool, mergeKey: set<string>)
    modifies result
    ensures old(result.errors) <= result.errors
    ensures result.errors == old(result.errors)
       <==> (emitsTombstones && mergeKey != {} ==> IdentityObtainable(target, mapping, mergeKey))
    ensures old(result.warnings) <= result.warnings
    ensures result.warnings == old(result.warnings)
       <==> (emitsTombstones ==>
               mergeKey != {} && BusinessKey(mergeKey) <= IdentityColumns(mapping.nodes, target.identityFields))
    ensures forall p :: Added(old(result.errors), result.errors, p)
                   <==> && emitsTombstones && mergeKey != {}
                        && IsOutside(mapping.nodes, target.identityFields, mergeKey, p)
  {
    hide Outside, NodeFor, BusinessKey;
    if !emitsTombstones { return; }
    if mergeKey == {} {
      result.Warn(MergeKeyUnknown);
      return;
    }
    var identityColumns: set<string> := {};
    for i := 0 to |target.identityFields|
      invariant old(result.errors) <= result.errors
      invariant result.errors == old(result.errors)
           <==> forall k :: 0 <= k < i ==> Outside(mapping.nodes, target.identityFields[k], mergeKey) == {}
      invariant result.warnings == old(result.warnings)
      invariant identityColumns == IdentityColumns(mapping.nodes, target.identityFields[..i])
      invariant forall p :: Added(old(result.errors), result.errors, p)
                       <==> IsOutside(mapping.nodes, target.identityFields[..i], mergeKey, p)
    {
      NothingOutside(mapping.nodes, target.identityFields[i], mergeKey);
      assert target.identityFields[..i + 1][..i] == target.identityFields[..i];
      var field := target.identityFields[i];
      var node := NodeFor(mapping.nodes, field);
      if node.Some? {
        identityColumns := identityColumns + SourceColumns(node.value);
        if Outside(mapping.nodes, field, mergeKey) != {} {
          AddOne(old(result.errors), result.errors,
                 IdentityOutsideMergeKey(field, Outside(mapping.nodes, field, mergeKey)));
          result.Error(IdentityOutsideMergeKey(field, Outside(mapping.nodes, field, mergeKey)));
        }
      }
    }
    assert target.identityFields[..|target.identityFields|] == target.identityFields;
    if BusinessKey(mergeKey) - identityColumns != {} {
      result.Warn(IdentityCoarserThanMergeKey(BusinessKey(mergeKey) - identityColumns));
    }
  }

  ghost predicate Passes(target: Target, mapping: CompiledMapping, landed: Schema, emitsTombstones: bool,
                         mergeKey: set<string>)
  {
    && TargetFieldsCovered(target, mapping)
    && Referenced(mapping) <= landed.Keys
    && (forall i :: 0 <= i < |mapping.nodes| ==> FieldTypesMappable(target, mapping.nodes[i], landed))
    && (forall i :: 0 <= i < |target.identityFields| ==> ScalarIdentity(mapping.nodes, target.identityFields[i]))
    && (emitsTombstones && mergeKey != {} ==> IdentityObtainable(target, mapping, mergeKey))
  }

  /** Nothing to warn of: no variants, no coercions, and an identity as fine as the merge key. */
  ghost predicate Unwarned(target: Target, mapping: CompiledMapping, landed: Schema, emitsTombstones: bool,
                           mergeKey: set<string>)
  {
    && (forall column :: column in Referenced(mapping) ==> !HasVariants(landed, column))
    && (forall i :: 0 <= i < |mapping.nodes| ==> FieldTypesCompatible(target, mapping.nodes[i], landed))
    && (emitsTombstones ==>
          mergeKey != {} && BusinessKey(mergeKey) <= IdentityColumns(mapping.nodes, target.identityFields))
  }

  /** The whole checklist. An unknown target or a mapping that does not compile is the one error reported; otherwise no
      error is reported exactly when every check passes, against the landed schema when there is one. */
  method Validate(found: Option<Target>, compiled: Option<CompiledMapping>, landed: Option<Schema>,
                  emitsTombstones: bool, mergeKey: set<string>)
    returns (result: ValidationResult)
    ensures fresh(result)
    ensures found.None? ==> result.errors == [UnknownTarget]
    ensures found.Some? && compiled.None? ==> result.errors == [DoesNotCompile]
    ensures found.Some? && compiled.Some? ==>
              (result.errors == [] <==>
                 if landed.Some? then Passes(found.value, compiled.value, landed.value, emitsTombstones, mergeKey)
                 else TargetFieldsCovered(found.value, compiled.value))
    ensures found.Some? && compiled.Some? ==>
              (result.warnings == [] <==>
                 landed.Some? && Unwarned(found.value, compiled.value, landed.value, emitsTombstones, mergeKey))
  {
    result := new ValidationResult();
    if found.None? {
      result.Error(UnknownTarget);
      return;
    }
    if compiled.None? {
      result.Error(DoesNotCompile);
      return;
    }
    var target, mapping := found.value, compiled.value;
    CheckTargetFields(result, target, mapping);
    if landed.None? {
      result.Warn(SchemaUnknown);
      return;
    }
    CheckSourceColumns(result, mapping, landed.value);
    CheckTypes(result, target, mapping, landed.value);
    CheckIdentityIsScalar(result, target, mapping);
    CheckIdentityIsObtainable(result, target, mapping, emitsTombstones, mergeKey);
  }

  /** The status a Projection is given: active exactly when there is a schema, every check passes and nothing is to be
      warned of; invalid exactly when some check fails. */
  method ValidatedStatus(found: Option<Target>, compiled: Option<CompiledMapping>, landed: Option<Schema>,
                         emitsTombstones: bool, mergeKey: set<string>)
    returns (status: Status)
    ensures status.Active? <==>
              && found.Some? && compiled.Some? && landed.Some?
              && Passes(found.value, compiled.value, landed.value, emitsTombstones, mergeKey)
              && Unwarned(found.value, compiled.value, landed.value, emitsTombstones, mergeKey)
    ensures status.Invalid? <==>
              || found.None? || compiled.None?
              || (landed.None? && !TargetFieldsCovered(found.value, compiled.value))
              || (landed.Some? && !Passes(found.value, compiled.value, landed.value, emitsTombstones, mergeKey))
  {
    var result := Validate(found, compiled, landed, emitsTombstones, mergeKey);
    status := StatusFor(result.errors, result.warnings);
  }

  // ---------------------------------------------------------------- what a passing projection guarantees

  /** A landed tombstone of `live`: the same merge key and binding id, marked deleted. Nothing is asked of
      the other columns: delete-insert replaces the whole row, so they are NULL. */
  ghost predicate IsTombstoneOf(live: Row, tombstone: Row, mergeKey: set<string>) {
    && AgreeOn(live, tombstone, mergeKey + {BINDING_ID_COLUMN})
    && Truthy(Cell(tombstone, DELETED_COLUMN))
  }

  lemma {:induction false} IdentityColumnsAreNodeColumns(nodes: seq<NodeMember>, only: set<string>,
                                                         allowed: set<string>)
    requires DistinctKeys(nodes)
    requires forall field, node :: field in only && NodeFor(nodes, field) == Some(node)
               ==> SourceColumns(node) <= allowed
    ensures ColumnsOf(nodes, only) <= allowed
  {
    if nodes != [] {
      forall field, node | field in only && NodeFor(nodes[1..], field) == Some(node)
        ensures SourceColumns(node) <= allowed
      {
        NodeForIsThere(nodes[1..], field);
        assert NodeFor(nodes, field) == Some(node);
      }
      if nodes[0].key in only { assert NodeFor(nodes, nodes[0].key) == Some(nodes[0].node); }
      IdentityColumnsAreNodeColumns(nodes[1..], only, allowed);
    }
  }

  lemma {:induction false} NodeForIsThere(nodes: seq<NodeMember>, field: string)
    requires NodeFor(nodes, field).Some?
    ensures exists i :: 0 <= i < |nodes| && nodes[i].key == field
  {
    if nodes[0].key == field {
      assert nodes[0].key == field;
    } else {
      NodeForIsThere(nodes[1..], field);
      var i :| 0 <= i < |nodes| - 1 && nodes[1..][i].key == field;
      assert nodes[i + 1].key == field;
    }
  }

  /** No identity field reads the tombstone marker itself. */
  ghost predicate IdentityIgnoresMarker(target: Target, mapping: CompiledMapping) {
    forall field, node :: field in IdentityNames(target) && NodeFor(mapping.nodes, field) == Some(node)
      ==> DELETED_COLUMN !in SourceColumns(node)
  }

  lemma CoercedPartIsPart(env: Env, target: Target, values: Row, only: set<string>)
    requires CoerceValues(env, target, values).Ok?
    ensures CoerceValues(env, target, Restricted(values, only))
         == Ok(Restricted(CoerceValues(env, target, values).value, only))
  {
    var part := Restricted(values, only);
    assert forall name :: name in part ==> name in values && CoerceField(env, target, name, part[name]).Ok?;
    assert CoerceValues(env, target, part).value == Restricted(CoerceValues(env, target, values).value, only);
  }

  lemma IdentityOfPart(target: Target, values: Row)
    ensures IdentityOf(target, Restricted(values, IdentityNames(target))) == IdentityOf(target, values)
  {
  }

  /** Once validation passes, a tombstone deletes exactly the record its live row wrote, whatever the
      fields outside the identity would have done with the nulled columns. */
  lemma TombstoneKeepsIdentity(cfg: Config, landed: Schema, mergeKey: set<string>, live: Row, tombstone: Row)
    requires DistinctKeys(cfg.mapping.nodes)
    requires Passes(cfg.target, cfg.mapping, landed, true, mergeKey) && mergeKey != {}
    requires IdentityIgnoresMarker(cfg.target, cfg.mapping)
    requires IsTombstoneOf(live, tombstone, mergeKey)
    requires Project(cfg, live).Ok? && Project(cfg, live).value.Upsert?
    ensures Project(cfg, tombstone) == Ok(Delete(Project(cfg, live).value.identity))
  {
    hide Evaluate, CoerceField;
    var only := IdentityNames(cfg.target);
    var nodes := cfg.mapping.nodes;
    var values := Applied(cfg.env, nodes, live, None).value;
    ApplyOnlyIsAPart(cfg.env, nodes, live, only);
    forall field, node | field in only && NodeFor(nodes, field) == Some(node)
      ensures SourceColumns(node) <= mergeKey + {BINDING_ID_COLUMN}
    {
      assert Outside(nodes, field, mergeKey) == {};
      assert SourceColumns(node) <= mergeKey + {BINDING_ID_COLUMN, DELETED_COLUMN};
    }
    IdentityColumnsAreNodeColumns(nodes, only, mergeKey + {BINDING_ID_COLUMN});
    ApplyOnlyDependsOnItsColumns(cfg.env, nodes, live, tombstone, only);
    CoercedPartIsPart(cfg.env, cfg.target, values, only);
    IdentityOfPart(cfg.target, CoerceValues(cfg.env, cfg.target, values).value);
  }

  // ---------------------------------------------------------------- an identity that reads the marker

  function FieldEvaluated(env: Env, nodes: seq<NodeMember>, field: string, row: Row): Result<Value, Failure> {
    match NodeFor(nodes, field)
    case None => Err(MappingValidation)
    case Some(node) => Evaluate(env, node, row)
  }

  /** What one target field gets from a row: its node, then its own cast. */
  function FieldValue(cfg: Config, field: string, row: Row): Result<Value, Failure> {
    var value :- FieldEvaluated(cfg.env, cfg.mapping.nodes, field, row);
    CoerceField(cfg.env, cfg.target, field, value)
  }

  function Asked(nodes: seq<NodeMember>, only: Option<set<string>>): set<string> {
    if only.None? then Keys(nodes) else Keys(nodes) * only.value
  }

  lemma KeysOfTail(nodes: seq<NodeMember>)
    requires nodes != [] && DistinctKeys(nodes)
    ensures Keys(nodes) == {nodes[0].key} + Keys(nodes[1..]) && nodes[0].key !in Keys(nodes[1..])
    ensures DistinctKeys(nodes[1..])
  {
    var tail := nodes[1..];
    assert forall i :: 0 <= i < |tail| ==> tail[i] == nodes[i + 1];
    forall key | key in Keys(nodes) ensures key in {nodes[0].key} + Keys(tail) {
      var i :| 0 <= i < |nodes| && nodes[i].key == key;
      if i > 0 { assert tail[i - 1].key == key; }
    }
    assert nodes[0].key in Keys(nodes);
    forall key | key in Keys(tail) ensures key in Keys(nodes) {
      var i :| 0 <= i < |tail| && tail[i].key == key;
      assert nodes[i + 1].key == key;
    }
  }

  lemma AskedOfTail(env: Env, nodes: seq<NodeMember>, row: Row, only: Option<set<string>>)
    requires nodes != [] && DistinctKeys(nodes)
    ensures DistinctKeys(nodes[1..])
    ensures var tail, key := Asked(nodes[1..], only), nodes[0].key;
            && key !in tail
            && Asked(nodes, only) == (if only.None? || key in only.value then {key} else {}) + tail
            && FieldEvaluated(env, nodes, key, row) == Evaluate(env, nodes[0].node, row)
            && forall field :: field in tail ==>
                 FieldEvaluated(env, nodes, field, row) == FieldEvaluated(env, nodes[1..], field, row)
  {
    hide Evaluate;
    KeysOfTail(nodes);
  }

  /** Applying a mapping is evaluating each asked field by itself. */
  lemma {:induction false} AppliedFieldwise(env: Env, nodes: seq<NodeMember>, row: Row, only: Option<set<string>>)
    requires DistinctKeys(nodes)
    ensures var asked, r := Asked(nodes, only), Applied(env, nodes, row, only);
            && (r.Ok? <==> forall field :: field in asked ==> FieldEvaluated(env, nodes, field, row).Ok?)
            && (r.Ok? ==> r.value.Keys == asked)
            && (r.Ok? ==> forall field :: field in asked ==>
                            FieldEvaluated(env, nodes, field, row) == Ok(r.value[field]))
  {
    hide Evaluate, FieldEvaluated, DistinctKeys;
    if nodes == [] {
      assert Asked(nodes, only) == {};
    } else {
      hide Asked;
      AskedOfTail(env, nodes, row, only);
      AppliedFieldwise(env, nodes[1..], row, only);
    }
  }

  /** Coercing values is coercing each by itself. */
  lemma CoercedFieldwise(env: Env, target: Target, values: Row)
    ensures var r := CoerceValues(env, target, values);
            && (r.Ok? <==> forall field :: field in values ==> CoerceField(env, target, field, values[field]).Ok?)
            && (r.Ok? ==> r.value.Keys == values.Keys)
            && (r.Ok? ==> forall field :: field in values ==>
                            CoerceField(env, target, field, values[field]) == Ok(r.value[field]))
  {
  }

  /** A record of this identity is what the row's identity fields say, each by itself. */
  ghost predicate NamesIdentity(cfg: Config, row: Row, id: Identity) {
    var fields := cfg.target.identityFields;
    && |id| == |fields| && Null !in id
    && forall i :: 0 <= i < |fields| ==> FieldValue(cfg, fields[i], row) == Ok(id[i])
  }

  lemma UpsertNamesItsIdentity(cfg: Config, row: Row)
    requires DistinctKeys(cfg.mapping.nodes) && IdentityNames(cfg.target) <= Keys(cfg.mapping.nodes)
    requires Project(cfg, row).Ok? && Project(cfg, row).value.Upsert?
    ensures NamesIdentity(cfg, row, Project(cfg, row).value.identity)
  {
    AppliedFieldwise(cfg.env, cfg.mapping.nodes, row, None);
    var values := Applied(cfg.env, cfg.mapping.nodes, row, None).value;
    CoercedFieldwise(cfg.env, cfg.target, values);
    hide Evaluate, CoerceField, Applied, CoerceValues, FieldEvaluated, RequiredMissing, Keys;
    var id := Project(cfg, row).value.identity;
    forall i | 0 <= i < |cfg.target.identityFields|
      ensures FieldValue(cfg, cfg.target.identityFields[i], row) == Ok(id[i])
    {
      assert cfg.target.identityFields[i] in IdentityNames(cfg.target);
    }
  }

  lemma DeletesIff(cfg: Config, row: Row, id: Identity)
    requires DistinctKeys(cfg.mapping.nodes) && IdentityNames(cfg.target) <= Keys(cfg.mapping.nodes)
    requires Truthy(Cell(row, DELETED_COLUMN))
    ensures Project(cfg, row) == Ok(Delete(id)) <==> NamesIdentity(cfg, row, id)
  {
    var only := IdentityNames(cfg.target);
    AppliedFieldwise(cfg.env, cfg.mapping.nodes, row, Some(only));
    var r := Applied(cfg.env, cfg.mapping.nodes, row, Some(only));
    if r.Ok? { CoercedFieldwise(cfg.env, cfg.target, r.value); }
    hide Evaluate, CoerceField, Applied, CoerceValues, FieldEvaluated, Keys;
    forall i | 0 <= i < |cfg.target.identityFields| ensures cfg.target.identityFields[i] in only {}
    if NamesIdentity(cfg, row, id) {
      forall field | field in only ensures FieldValue(cfg, field, row).Ok? {
        var i :| 0 <= i < |cfg.target.identityFields| && cfg.target.identityFields[i] == field;
      }
      var coerced := CoerceValues(cfg.env, cfg.target, r.value).value;
      assert IdentityOf(cfg.target, coerced) == id;
    }
  }

  function Marked(row: Row, marker: Value): Row { row[DELETED_COLUMN := marker] }

  /** After validation an identity field reads nothing of a tombstone but what the live row has, and the marker. */
  lemma OnlyTheMarkerDiffers(cfg: Config, landed: Schema, mergeKey: set<string>, live: Row, tombstone: Row, i: nat)
    requires Passes(cfg.target, cfg.mapping, landed, true, mergeKey) && mergeKey != {}
    requires IsTombstoneOf(live, tombstone, mergeKey) && i < |cfg.target.identityFields|
    ensures var field := cfg.target.identityFields[i];
            FieldValue(cfg, field, tombstone) == FieldValue(cfg, field, Marked(live, Cell(tombstone, DELETED_COLUMN)))
  {
    hide Evaluate, CoerceField;
    var field := cfg.target.identityFields[i];
    assert Outside(cfg.mapping.nodes, field, mergeKey) == {};
    var node := NodeFor(cfg.mapping.nodes, field);
    if node.Some? {
      assert SourceColumns(node.value) <= mergeKey + {BINDING_ID_COLUMN, DELETED_COLUMN};
      EvaluationDependsOnSourceColumns(cfg.env, node.value, tombstone, Marked(live, Cell(tombstone, DELETED_COLUMN)));
    }
  }

  /** Once validation passes, the tombstone deletes the live row's record if and only if each identity field evaluates
      and coerces alike on the live row and on that row with the tombstone's marker. */
  lemma TombstoneMatchesIff(cfg: Config, landed: Schema, mergeKey: set<string>, live: Row, tombstone: Row)
    requires DistinctKeys(cfg.mapping.nodes)
    requires Passes(cfg.target, cfg.mapping, landed, true, mergeKey) && mergeKey != {}
    requires IsTombstoneOf(live, tombstone, mergeKey)
    requires Project(cfg, live).Ok? && Project(cfg, live).value.Upsert?
    ensures Project(cfg, tombstone) == Ok(Delete(Project(cfg, live).value.identity))
       <==> forall i :: 0 <= i < |cfg.target.identityFields| ==>
              FieldValue(cfg, cfg.target.identityFields[i], Marked(live, Cell(tombstone, DELETED_COLUMN)))
              == FieldValue(cfg, cfg.target.identityFields[i], live)
  {
    var id := Project(cfg, live).value.identity;
    UpsertNamesItsIdentity(cfg, live);
    DeletesIff(cfg, tombstone, id);
    hide Project, FieldValue;
    forall i | 0 <= i < |cfg.target.identityFields|
      ensures var field := cfg.target.identityFields[i];
              FieldValue(cfg, field, tombstone) == FieldValue(cfg, field, Marked(live, Cell(tombstone, DELETED_COLUMN)))
    {
      OnlyTheMarkerDiffers(cfg, landed, mergeKey, live, tombstone, i);
    }
  }

  // ---------------------------------------------------------------- identities made of bare references

  predicate BareReference(node: Node) { node.SourceRef? && node.path == [] && node.default.None? }

  predicate BareIdentity(target: Target, nodes: seq<NodeMember>) {
    forall i :: 0 <= i < |target.identityFields| ==>
      var node := NodeFor(nodes, target.identityFields[i]);
      node.Some? && BareReference(node.value)
  }

  /** Whatever the environment and the rows, every tombstone of a row that projects to an upsert deletes that record. */
  ghost predicate TombstonesMatch(cfg: Config, mergeKey: set<string>, live: Row, tombstone: Row) {
    && IsTombstoneOf(live, tombstone, mergeKey)
    && Project(cfg, live).Ok? && Project(cfg, live).value.Upsert?
    ==> Project(cfg, tombstone) == Ok(Delete(Project(cfg, live).value.identity))
  }

  ghost predicate CoercesAll(env: Env) { forall spec, value :: env.coerce(spec, value) == Some(value) }

  lemma BareValue(cfg: Config, field: string, row: Row)
    requires CoercesAll(cfg.env)
    requires var node := NodeFor(cfg.mapping.nodes, field); node.Some? && BareReference(node.value)
    ensures var column := NodeFor(cfg.mapping.nodes, field).value.column;
            column in row ==> FieldValue(cfg, field, row) == Ok(row[column])
  {
  }

  /** For a mapping that projects some row to an upsert, its identity fields bare references: tombstones match in every
      environment and for all rows if and only if no identity field reads the marker. A merge key that holds the marker
      itself leaves no tombstone of a live row. */
  lemma BareIdentityIff(cfg: Config, landed: Schema, mergeKey: set<string>, row: Row)
    requires DistinctKeys(cfg.mapping.nodes)
    requires Passes(cfg.target, cfg.mapping, landed, true, mergeKey) && mergeKey != {}
    requires BareIdentity(cfg.target, cfg.mapping.nodes)
    requires CoercesAll(cfg.env) && Project(cfg, row).Ok? && Project(cfg, row).value.Upsert?
    ensures (forall env, live, tombstone :: TombstonesMatch(cfg.(env := env), mergeKey, live, tombstone))
       <==> IdentityIgnoresMarker(cfg.target, cfg.mapping) || DELETED_COLUMN in mergeKey
  {
    assert IdentityNames(cfg.target) <= Keys(cfg.mapping.nodes);
    hide Passes, IdentityIgnoresMarker, FieldValue, Project, DistinctKeys, IdentityNames, Keys, IsTombstoneOf;
    if IdentityIgnoresMarker(cfg.target, cfg.mapping) || DELETED_COLUMN in mergeKey {
      forall env, live, tombstone ensures TombstonesMatch(cfg.(env := env), mergeKey, live, tombstone) {
        var other := cfg.(env := env);
        if IsTombstoneOf(live, tombstone, mergeKey) && Project(other, live).Ok? && Project(other, live).value.Upsert? {
          if DELETED_COLUMN in mergeKey {
            assert Cell(live, DELETED_COLUMN) == Cell(tombstone, DELETED_COLUMN);
          } else {
            TombstoneKeepsIdentity(other, landed, mergeKey, live, tombstone);
          }
        }
      }
    } else {
      var tombstone := Marked(row, Bool(true));
      TombstoneMatchesIff(cfg, landed, mergeKey, row, tombstone);
      MarkerShows(cfg, row);
      assert cfg.(env := cfg.env) == cfg;
      assert !TombstonesMatch(cfg.(env := cfg.env), mergeKey, row, tombstone);
    }
  }

  /** A bare identity that reads the marker changes with it. */
  lemma MarkerShows(cfg: Config, row: Row)
    requires BareIdentity(cfg.target, cfg.mapping.nodes) && !IdentityIgnoresMarker(cfg.target, cfg.mapping)
    requires IdentityNames(cfg.target) <= Keys(cfg.mapping.nodes) && DistinctKeys(cfg.mapping.nodes)
    requires CoercesAll(cfg.env) && Project(cfg, row).Ok? && Project(cfg, row).value.Upsert?
    ensures exists i :: 0 <= i < |cfg.target.identityFields|
              && FieldValue(cfg, cfg.target.identityFields[i], Marked(row, Bool(true)))
                 != FieldValue(cfg, cfg.target.identityFields[i], row)
  {
    UpsertNamesItsIdentity(cfg, row);
    hide Project, DistinctKeys, Keys;
    var field, node :| field in IdentityNames(cfg.target) && NodeFor(cfg.mapping.nodes, field) == Some(node)
                       && DELETED_COLUMN in SourceColumns(node);
    var i :| 0 <= i < |cfg.target.identityFields| && cfg.target.identityFields[i] == field;
    assert BareReference(node) && node.column == DELETED_COLUMN;
    assert FieldValue(cfg, field, row).Ok?;
    assert DELETED_COLUMN in row;
    BareValue(cfg, field, row);
    BareValue(cfg, field, Marked(row, Bool(true)));
  }

  predicate BareMapping(nodes: seq<NodeMember>) {
    forall i :: 0 <= i < |nodes| ==> BareReference(nodes[i].node)
  }

  lemma {:induction false} BareNodeFor(nodes: seq<NodeMember>, field: string, only: set<string>)
    requires DistinctKeys(nodes) && BareMapping(nodes) && field in Keys(nodes) && field in only
    ensures NodeFor(nodes, field).Some? && BareReference(NodeFor(nodes, field).value)
    ensures NodeFor(nodes, field).value.column in ColumnsOf(nodes, only)
  {
    KeysOfTail(nodes);
    if nodes[0].key != field { BareNodeFor(nodes[1..], field, only); }
  }

  /** The row that has every column, and the marker false. */
  function EveryColumn(nodes: seq<NodeMember>): Row {
    map column | column in ColumnsOf(nodes, Keys(nodes)) :: if column == DELETED_COLUMN then Bool(false) else Int(1)
  }

  lemma BareMappingProjects(cfg: Config)
    requires DistinctKeys(cfg.mapping.nodes) && BareMapping(cfg.mapping.nodes) && CoercesAll(cfg.env)
    requires TargetFieldsCovered(cfg.target, cfg.mapping)
    ensures var r := Project(cfg, EveryColumn(cfg.mapping.nodes)); r.Ok? && r.value.Upsert?
  {
    var nodes := cfg.mapping.nodes;
    var row := EveryColumn(nodes);
    AppliedFieldwise(cfg.env, nodes, row, None);
    forall field | field in Keys(nodes)
      ensures FieldEvaluated(cfg.env, nodes, field, row) in {Ok(Int(1)), Ok(Bool(false))}
    {
      BareNodeFor(nodes, field, Keys(nodes));
    }
    hide Evaluate, FieldEvaluated, ColumnsOf, TargetFieldsCovered;
    AllPresentProjects(cfg, row);
  }

  lemma AllPresentProjects(cfg: Config, row: Row)
    requires TargetFieldsCovered(cfg.target, cfg.mapping) && CoercesAll(cfg.env)
    requires !Truthy(Cell(row, DELETED_COLUMN))
    requires var r := Applied(cfg.env, cfg.mapping.nodes, row, None);
             && r.Ok? && r.value.Keys == Keys(cfg.mapping.nodes)
             && forall field :: field in r.value ==> !r.value[field].Null?
    ensures Project(cfg, row).Ok? && Project(cfg, row).value.Upsert?
  {
    var target, values := cfg.target, Applied(cfg.env, cfg.mapping.nodes, row, None).value;
    CoercedFieldwise(cfg.env, target, values);
    assert forall field :: field in values ==> CoerceField(cfg.env, target, field, values[field]) == Ok(values[field]);
    hide Applied, CoerceValues, Keys;
    var coerced := CoerceValues(cfg.env, target, values).value;
    assert forall i :: 0 <= i < |target.identityFields| ==> target.identityFields[i] in IdentityNames(target);
    assert Null !in IdentityOf(target, coerced);
    assert forall name :: name in target.fields && target.fields[name].required ==> name in Required(target);
    assert !RequiredMissing(target, coerced);
  }

  /** For a mapping made of bare references that passes validation: every tombstone matches, in every environment and
      for all rows, if and only if no identity field reads the marker. */
  lemma BareMappingIff(target: Target, mapping: CompiledMapping, landed: Schema, mergeKey: set<string>)
    requires DistinctKeys(mapping.nodes) && BareMapping(mapping.nodes)
    requires Passes(target, mapping, landed, true, mergeKey) && mergeKey != {}
    ensures (forall cfg: Config, live, tombstone ::
               cfg.target == target && cfg.mapping == mapping ==> TombstonesMatch(cfg, mergeKey, live, tombstone))
       <==> IdentityIgnoresMarker(target, mapping) || DELETED_COLUMN in mergeKey
  {
    var env := Env(s => None, s => None, v => "", s => s, s => s, c => true, (spec, value) => Some(value),
                   (a, b) => a == b, (c, a, b) => false);
    var cfg := Config(env, target, mapping, false);
    BareMappingProjects(cfg);
    forall i | 0 <= i < |target.identityFields|
      ensures var node := NodeFor(mapping.nodes, target.identityFields[i]); node.Some? && BareReference(node.value)
    {
      assert target.identityFields[i] in IdentityNames(target);
      BareNodeFor(mapping.nodes, target.identityFields[i], Keys(mapping.nodes));
    }
    BareIdentityIff(cfg, landed, mergeKey, EveryColumn(mapping.nodes));
    hide TombstonesMatch, IdentityIgnoresMarker, Passes, Project;
    if IdentityIgnoresMarker(target, mapping) || DELETED_COLUMN in mergeKey {
      forall other: Config, live, tombstone | other.target == target && other.mapping == mapping
        ensures TombstonesMatch(other, mergeKey, live, tombstone)
      {
        SkippingDoesNotMatter(other, cfg.(env := other.env), mergeKey, live, tombstone);
      }
    } else {
      var any, live, tombstone :| !TombstonesMatch(cfg.(env := any), mergeKey, live, tombstone);
      assert cfg.(env := any).target == target;
    }
  }

  lemma SkippingDoesNotMatter(a: Config, b: Config, mergeKey: set<string>, live: Row, tombstone: Row)
    requires a.(skipInvalid := b.skipInvalid) == b
    ensures TombstonesMatch(a, mergeKey, live, tombstone) == TombstonesMatch(b, mergeKey, live, tombstone)
  {
  }

  // ---------------------------------------------------------------- reading the marker is not enough

  /** A projection whose one field is its identity. */
  function OneField(env: Env, node: Node): Config {
    Config(env, Target(map["key" := Field(false, CastSpec("boolean", []), {})], ["key"]),
           CompiledMapping([NodeMember("key", node)], []), false)
  }

  /** The id where there is one, else the marker. */
  function IdOrMarker(): Node {
    FunctionCall("coalesce", [SourceRef("id", [], None, None), SourceRef(DELETED_COLUMN, [], None, None)], None)
  }

  lemma IdOrMarkerPasses(env: Env)
    ensures var cfg := OneField(env, IdOrMarker());
            && DistinctKeys(cfg.mapping.nodes)
            && Passes(cfg.target, cfg.mapping, map["id" := None, DELETED_COLUMN := None], true, {"id"})
            && !IdentityIgnoresMarker(cfg.target, cfg.mapping)
  {
    var cfg, node := OneField(env, IdOrMarker()), IdOrMarker();
    var nodes := cfg.mapping.nodes;
    assert nodes[0].key in Keys(nodes) && cfg.target.identityFields[0] == "key";
    assert NodeFor(nodes, "key") == Some(node);
    assert SourceColumns(node) == {"id", DELETED_COLUMN} by {
      assert node.args[1..] == [node.args[1]] && node.args[1..][1..] == [];
    }
    assert ColumnsOf(nodes, Keys(nodes)) == SourceColumns(node) + ColumnsOf([], Keys(nodes));
    assert "key" in IdentityNames(cfg.target);
  }

  /** This identity reads the marker and passes validation, and yet the tombstone of every row with an id deletes that
      row's record, in every environment. */
  lemma IdOrMarkerMatches(env: Env, live: Row, tombstone: Row)
    requires !Cell(live, "id").Null?
    ensures TombstonesMatch(OneField(env, IdOrMarker()), {"id"}, live, tombstone)
  {
    var cfg := OneField(env, IdOrMarker());
    IdOrMarkerPasses(env);
    if IsTombstoneOf(live, tombstone, {"id"}) && Project(cfg, live).Ok? && Project(cfg, live).value.Upsert? {
      var marked := Marked(live, Cell(tombstone, DELETED_COLUMN));
      TombstoneMatchesIff(cfg, map["id" := None, DELETED_COLUMN := None], {"id"}, live, tombstone);
      hide Project, Passes;
      assert cfg.target.identityFields == ["key"] && NodeFor(cfg.mapping.nodes, "key") == Some(IdOrMarker());
      assert Evaluate(env, IdOrMarker(), marked) == Evaluate(env, IdOrMarker(), live) by {
        IdComesFirst(env, live);
        IdComesFirst(env, marked);
      }
      assert FieldValue(cfg, "key", marked) == FieldValue(cfg, "key", live);
    }
  }

  lemma IdComesFirst(env: Env, row: Row)
    requires !Cell(row, "id").Null?
    ensures Evaluate(env, IdOrMarker(), row) == Ok(row["id"])
  {
    assert Evaluate(env, IdOrMarker().args[0], row) == Ok(row["id"]);
    assert EvaluateCoalesce(env, IdOrMarker().args, row) == Ok(row["id"]);
  }

  // ---------------------------------------------------------------- filters meet tombstones

  /** Filters that read key columns only treat a tombstone as they treat its live row. */
  lemma KeyFiltersPassTombstones(env: Env, filters: seq<Filter>, mergeKey: set<string>, live: Row, tombstone: Row)
    requires FilterColumns(filters) <= mergeKey + {BINDING_ID_COLUMN}
    requires IsTombstoneOf(live, tombstone, mergeKey)
    ensures Matches(env, filters, tombstone) <==> Matches(env, filters, live)
  {
    forall i | 0 <= i < |filters|
      ensures FilterMatches(env, filters[i], tombstone) <==> FilterMatches(env, filters[i], live)
    {
      assert filters[i].column in FilterColumns(filters);
    }
  }

  /** The tombstone a source emits for `live`: its merge key and binding id, the marker, and NULL elsewhere. */
  function TombstoneOf(live: Row, mergeKey: set<string>): Row {
    var kept := map column | column in live && column in mergeKey + {BINDING_ID_COLUMN} :: live[column];
    kept[DELETED_COLUMN := Bool(true)]
  }

  /** This filter lets the tombstone through. One on the marker has to accept it set; one on a key column sees what it
      saw on the live row; any other sees NULL. */
  predicate LetsThrough(env: Env, filter: Filter, mergeKey: set<string>) {
    if filter.column == DELETED_COLUMN then FilterMatches(env, filter, map[DELETED_COLUMN := Bool(true)])
    else filter.column in mergeKey + {BINDING_ID_COLUMN} || filter.op.IsNull?
  }

  lemma OneFilterPassesIff(env: Env, filter: Filter, mergeKey: set<string>, live: Row)
    requires FilterMatches(env, filter, live)
    ensures FilterMatches(env, filter, TombstoneOf(live, mergeKey)) <==> LetsThrough(env, filter, mergeKey)
  {
    var tombstone := TombstoneOf(live, mergeKey);
    if filter.column == DELETED_COLUMN {
      assert Cell(tombstone, filter.column) == Bool(true);
    } else if filter.column in mergeKey + {BINDING_ID_COLUMN} {
      assert Cell(tombstone, filter.column) == Cell(live, filter.column);
    } else {
      assert Cell(tombstone, filter.column) == Null;
    }
  }

  /** The tombstone of a row the filters select is selected too exactly when each filter lets it through; any other
      filter keeps the deletion from the host. */
  lemma TombstonePassesIff(env: Env, filters: seq<Filter>, mergeKey: set<string>, live: Row)
    requires Matches(env, filters, live)
    ensures Matches(env, filters, TombstoneOf(live, mergeKey))
       <==> forall i :: 0 <= i < |filters| ==> LetsThrough(env, filters[i], mergeKey)
  {
    hide LetsThrough, TombstoneOf, FilterMatches;
    forall i | 0 <= i < |filters|
      ensures FilterMatches(env, filters[i], TombstoneOf(live, mergeKey)) <==> LetsThrough(env, filters[i], mergeKey)
    {
      OneFilterPassesIff(env, filters[i], mergeKey, live);
    }
  }

  /** The two ways to ask for live rows only: the marker is NULL, or it is false. */
  function LiveRowsOnly(isNull: bool): Filter {
    if isNull then Filter(DELETED_COLUMN, IsNull, Null) else Filter(DELETED_COLUMN, Eq, Bool(false))
  }

  /** A filter for live rows only, whatever else is filtered on: the live row's record reaches the host, the tombstone a
      later load brings projects to nothing, and the record stays. */
  lemma LiveRowsOnlyKeepsTheRecord(cfg: Config, mergeKey: set<string>, live: Row, isNull: bool, before: HostTable,
                                   written: HostTable, after: HostTable)
    requires LiveRowsOnly(isNull) in cfg.mapping.filters && !cfg.env.looseEqual(Bool(true), Bool(false))
    requires RecordOf(cfg, live) != [] && RecordOf(cfg, live)[0].Upsert?
    requires IsReplay(before, Records(cfg, [live]), written)
    requires IsReplay(written, Records(cfg, [TombstoneOf(live, mergeKey)]), after)
    ensures var wrote := RecordOf(cfg, live)[0]; Lookup(after, wrote.identity) == Some(wrote.values)
  {
    var tombstone := TombstoneOf(live, mergeKey);
    TombstonePassesIff(cfg.env, cfg.mapping.filters, mergeKey, live);
    var i :| 0 <= i < |cfg.mapping.filters| && cfg.mapping.filters[i] == LiveRowsOnly(isNull);
    assert !LetsThrough(cfg.env, cfg.mapping.filters[i], mergeKey);
    assert RecordOf(cfg, tombstone) == [];
    hide Project, Matches, LetsThrough, TombstoneOf;
    OneRecord(cfg, live);
    OneRecord(cfg, tombstone);
    var wrote := RecordOf(cfg, live)[0];
    assert LastUpsert([wrote], wrote.identity) == Some(wrote.values);
    assert Lookup(written, wrote.identity) == Outcome(Lookup(before, wrote.identity), [wrote], wrote.identity);
    assert Lookup(after, wrote.identity) == Outcome(Lookup(written, wrote.identity), [], wrote.identity);
  }

  lemma OneRecord(cfg: Config, row: Row)
    ensures Records(cfg, [row]) == RecordOf(cfg, row)
  {
    assert [row][..0] == [] && Records(cfg, []) == [];
  }
}
