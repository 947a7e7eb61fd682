/** What each check of validation looks at, told from the mapping, the landed columns and the merge key themselves.
    (django_connectors/projections/validator.py) */
module Checklist {
  import opened Values
  import opened Compiler
  import opened Mapping
  import opened ProjectionRunner
  import opened Validator

  ghost predicate StartsWith(text: string, prefix: string) {
    |text| >= |prefix| && forall i :: 0 <= i < |prefix| ==> text[i] == prefix[i]
  }

  lemma StartsWithIff(text: string, prefix: string)
    ensures prefix <= text <==> StartsWith(text, prefix)
  {
  }

  // ---------------------------------------------------------------- columns

  lemma {:induction false} ColumnsOfAll(nodes: seq<NodeMember>, only: set<string>, column: string)
    requires Keys(nodes) <= only
    ensures column in ColumnsOf(nodes, only) <==> exists i :: 0 <= i < |nodes| && column in SourceColumns(nodes[i].node)
  {
    hide SourceColumns;
    if nodes != [] {
      KeysOfNext(nodes);
      var tail := nodes[1..];
      ColumnsOfAll(tail, only, column);
      assert forall i :: 0 < i < |nodes| ==> nodes[i] == tail[i - 1];
      if i :| 0 <= i < |tail| && column in SourceColumns(tail[i].node) {
        assert nodes[i + 1] == tail[i];
      }
    }
  }

  /** A column is referenced exactly when some field's expression reads it or some filter is on it. */
  lemma ReferencedIff(mapping: CompiledMapping, column: string)
    ensures column in Referenced(mapping)
       <==> || (exists i :: 0 <= i < |mapping.nodes| && column in SourceColumns(mapping.nodes[i].node))
            || (exists i :: 0 <= i < |mapping.filters| && mapping.filters[i].column == column)
  {
    ColumnsOfAll(mapping.nodes, Keys(mapping.nodes), column);
  }

  /** A column has variants exactly when a landed column's name goes on from its own with `__v_`. */
  lemma VariantsIff(landed: Schema, column: string)
    ensures HasVariants(landed, column)
       <==> exists name :: name in landed && StartsWith(name, column) && StartsWith(name[|column|..], "__v_")
  {
    forall name ensures column + "__v_" <= name <==> StartsWith(name, column) && StartsWith(name[|column|..], "__v_") {
      VariantName(name, column, "__v_");
    }
  }

  lemma VariantName(name: string, column: string, mark: string)
    ensures column + mark <= name <==> StartsWith(name, column) && StartsWith(name[|column|..], mark)
  {
    if StartsWith(name, column) && StartsWith(name[|column|..], mark) {
      assert name[..|column|] == column && name[|column|..][..|mark|] == mark;
      assert name == column + (mark + name[|column|..][|mark|..]);
    }
  }

  // ---------------------------------------------------------------- identity

  lemma {:induction false} NodeForIs(nodes: seq<NodeMember>, i: nat)
    requires DistinctKeys(nodes) && i < |nodes|
    ensures NodeFor(nodes, nodes[i].key) == Some(nodes[i].node)
  {
    if i > 0 {
      assert nodes[0].key != nodes[i].key && nodes[1..][i - 1] == nodes[i];
      NodeForIs(nodes[1..], i - 1);
    }
  }

  predicate IsJson(cast: Option<CastSpec>) { cast.Some? && cast.value.name == "json" }

  /** An identity field is refused exactly when its expression builds an object or casts to JSON. */
  lemma ScalarIff(nodes: seq<NodeMember>, i: nat)
    requires DistinctKeys(nodes) && i < |nodes|
    ensures !ScalarIdentity(nodes, nodes[i].key)
       <==> || nodes[i].node.ObjectNode?
            || (nodes[i].node.SourceRef? && IsJson(nodes[i].node.cast))
            || (nodes[i].node.FunctionCall? && IsJson(nodes[i].node.fcast))
  {
    NodeForIs(nodes, i);
  }

  /** An identity field is obtainable exactly when all it reads is what a tombstone carries: the merge key, the Binding
      id and the marker. */
  lemma ObtainableIff(nodes: seq<NodeMember>, i: nat, mergeKey: set<string>)
    requires DistinctKeys(nodes) && i < |nodes|
    ensures Outside(nodes, nodes[i].key, mergeKey) == {}
       <==> forall c :: c in SourceColumns(nodes[i].node) ==>
              c in mergeKey || c == BINDING_ID_COLUMN || c == DELETED_COLUMN
  {
    NodeForIs(nodes, i);
    hide SourceColumns;
    if Outside(nodes, nodes[i].key, mergeKey) == {} {
      forall c | c in SourceColumns(nodes[i].node)
        ensures c in mergeKey || c == BINDING_ID_COLUMN || c == DELETED_COLUMN
      {
        assert c !in Outside(nodes, nodes[i].key, mergeKey);
      }
    }
  }

  /** The identity must cover the columns of the merge key that are the customer's own. */
  lemma BusinessKeyIff(mergeKey: set<string>, column: string)
    ensures column in BusinessKey(mergeKey)
       <==> column in mergeKey && !StartsWith(column, "_connector_") && !StartsWith(column, "_dlt_")
  {
    StartsWithIff(column, "_connector_");
    StartsWithIff(column, "_dlt_");
  }

  // ---------------------------------------------------------------- types

  /** A declared field's column of a known type is an error exactly when no target takes the type, and a warning exactly
      when one does but the field lists others. */
  lemma TypesIff(target: Target, member: NodeMember, landed: Schema)
    requires member.key in target.fields
    ensures !FieldTypesMappable(target, member, landed)
       <==> exists c :: c in SourceColumns(member.node) && c in landed && landed[c] in {Some("wei"), Some("binary")}
    ensures !FieldTypesCompatible(target, member, landed)
       <==> exists c :: c in SourceColumns(member.node) && c in landed && landed[c].Some?
              && landed[c].value !in target.fields[member.key].compatible + {"wei", "binary"}
              && target.fields[member.key].compatible != {}
  {
    hide SourceColumns;
  }
}
