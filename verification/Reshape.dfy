/** Turning one wide row into one row per stage, before it lands.
    (django_connectors/sources/reshape.py) */
module Reshape {
  import opened Values

  /** `glob` is the compiled `columns_matching`; `columns` is empty when it is not given. */
  datatype Spec = Spec(columns: seq<string>, glob: Option<string -> bool>, nameTo: string, valueTo: string,
                       keep: Option<seq<string>>, dropEmpty: bool)

  /** A source row: a dict, which keeps its columns in order. */
  datatype WideRow = WideRow(order: seq<string>, cells: Row)

  ghost predicate Ordered(wide: WideRow) {
    && (forall i, j :: 0 <= i < j < |wide.order| ==> wide.order[i] != wide.order[j])
    && (forall c :: c in wide.order <==> c in wide.cells)
  }

  /** Whether `column` is still on every emitted row, as the source decides it. */
  predicate Survives(spec: Spec, column: string) {
    && column !in spec.columns
    && (spec.glob.Some? ==> !spec.glob.value(column))
    && (spec.keep.Some? ==> column in spec.keep.value)
  }

  /** `validate_unpivot` accepts the spec for a resource with this primary key. */
  predicate Accepted(spec: Spec, primaryKey: seq<string>) {
    && (spec.columns != [] || spec.glob.Some?)
    && "" !in spec.columns
    && spec.nameTo != "" && spec.valueTo != "" && spec.nameTo != spec.valueTo
    && (spec.keep.Some? ==> "" !in spec.keep.value)
    && spec.nameTo !in spec.columns && spec.valueTo !in spec.columns
    && (spec.keep.Some? ==> spec.nameTo !in spec.keep.value && spec.valueTo !in spec.keep.value)
    && (forall i :: 0 <= i < |primaryKey| ==> Survives(spec, primaryKey[i]))
  }

  /** What `validate_unpivot` says of a spec it refuses. */
  datatype Refusal =
    | NothingToUnpivot
    | UnnamedColumn
    | UnnamedNewColumn
    | OneNewColumn
    | UnnamedKept
    | NotNew(column: string)
    | LosesKey(lost: seq<string>)

  /** The checks, in their order. A spec passes exactly when it is accepted; lost key columns are all reported. */
  method ValidateUnpivot(spec: Spec, primaryKey: seq<string>) returns (refusal: Option<Refusal>)
    ensures refusal.None? <==> Accepted(spec, primaryKey)
    ensures refusal.Some? && refusal.value.NotNew? ==>
              var c := refusal.value.column;
              c in {spec.nameTo, spec.valueTo} && (c in spec.columns || (spec.keep.Some? && c in spec.keep.value))
    ensures refusal.Some? && refusal.value.LosesKey? ==>
              refusal.value.lost != [] && forall c :: c in refusal.value.lost <==>
                && c in primaryKey
                && (|| c in spec.columns
                    || (spec.glob.Some? && spec.glob.value(c))
                    || (spec.keep.Some? && c !in spec.keep.value))
  {
    if spec.columns == [] && spec.glob.None? {
      return Some(NothingToUnpivot);
    }
    if "" in spec.columns {
      return Some(UnnamedColumn);
    }
    if spec.nameTo == "" || spec.valueTo == "" {
      return Some(UnnamedNewColumn);
    }
    if spec.nameTo == spec.valueTo {
      return Some(OneNewColumn);
    }
    if spec.keep.Some? && "" in spec.keep.value {
      return Some(UnnamedKept);
    }
    var existing := spec.columns + if spec.keep.Some? then spec.keep.value else [];
    if spec.nameTo in existing {
      return Some(NotNew(spec.nameTo));
    }
    if spec.valueTo in existing {
      return Some(NotNew(spec.valueTo));
    }
    var lost := [];
    for i := 0 to |primaryKey|
      invariant forall c :: c in lost <==> c in primaryKey[..i] && !Survives(spec, c)
    {
      if !Survives(spec, primaryKey[i]) {
        lost := lost + [primaryKey[i]];
      }
    }
    refusal := if lost != [] then Some(LosesKey(lost)) else None;
    assert lost != [] ==> lost[0] in lost;
  }

  function Select(columns: seq<string>, wanted: string -> bool): (selected: seq<string>)
    ensures forall c :: c in selected <==> c in columns && wanted(c)
  {
    if columns == [] then []
    else
      var last := columns[|columns| - 1];
      Select(columns[..|columns| - 1], wanted) + if wanted(last) then [last] else []
  }

  function StagesOf(spec: Spec, wide: WideRow): (stages: seq<string>)
    ensures forall c :: c in stages ==> c in wide.cells
  {
    if spec.columns != [] then Select(spec.columns, c => c in wide.cells)
    else if spec.glob.Some? then Select(wide.order, c => c in wide.cells && spec.glob.value(c))
    else []
  }

  function Base(spec: Spec, wide: WideRow): Row {
    var staged := StagesOf(spec, wide);
    if spec.keep.None? then map c | c in wide.cells && c !in staged :: wide.cells[c]
    else map c | c in spec.keep.value :: Cell(wide.cells, c)
  }

  /** The stages that emit a row: those with a value, or every one of them when none has. */
  function Emitted(spec: Spec, wide: WideRow): (emitted: seq<string>)
    ensures forall c :: c in emitted ==> c in StagesOf(spec, wide)
    ensures StagesOf(spec, wide) != [] ==> emitted != []
  {
    var stages := StagesOf(spec, wide);
    var present := Select(stages, c => !IsBlank(Cell(wide.cells, c)));
    if spec.dropEmpty && present != [] then present else stages
  }

  function StageRow(spec: Spec, wide: WideRow, stage: string): Row {
    var value := Cell(wide.cells, stage);
    Base(spec, wide)[spec.nameTo := Text(stage)][spec.valueTo := if IsBlank(value) then Null else value]
  }

  /** The rows one wide row becomes, or None when it carries no stage column at all. */
  function Unpivot(spec: Spec, wide: WideRow): (rows: Option<seq<Row>>)
    ensures rows.None? <==> StagesOf(spec, wide) == []
    ensures rows.Some? ==> |rows.value| == |Emitted(spec, wide)| > 0
    ensures rows.Some? ==> forall i :: 0 <= i < |rows.value| ==>
              rows.value[i] == StageRow(spec, wide, Emitted(spec, wide)[i])
  {
    if StagesOf(spec, wide) == [] then None
    else
      var emitted := Emitted(spec, wide);
      Some(seq(|emitted|, i requires 0 <= i < |emitted| => StageRow(spec, wide, emitted[i])))
  }

  // ---------------------------------------------------------------- which rows, and which columns

  /** The columns looked through for stages, in the order their rows come out. */
  function Listing(spec: Spec, wide: WideRow): seq<string> {
    if spec.columns != [] then spec.columns else wide.order
  }

  /** `column` is a stage column this row carries. */
  predicate IsStage(spec: Spec, wide: WideRow, column: string) {
    && column in wide.cells
    && if spec.columns != [] then column in spec.columns
       else column in wide.order && spec.glob.Some? && spec.glob.value(column)
  }

  /** Every stage column the row carries is empty: the case was cleared. */
  ghost predicate Cleared(spec: Spec, wide: WideRow) {
    forall c :: IsStage(spec, wide, c) ==> IsBlank(Cell(wide.cells, c))
  }

  /** A stage lands when it has a value, when empty ones are kept, and when the whole case was cleared. */
  ghost predicate Lands(spec: Spec, wide: WideRow, stage: string) {
    && IsStage(spec, wide, stage)
    && (!IsBlank(Cell(wide.cells, stage)) || !spec.dropEmpty || Cleared(spec, wide))
  }

  /** A row is emitted with these columns and no others. */
  ghost predicate IsRowFor(spec: Spec, wide: WideRow, stage: string, row: Row) {
    && spec.valueTo in row && spec.nameTo in row
    && row[spec.valueTo] == (if IsBlank(Cell(wide.cells, stage)) then Null else wide.cells[stage])
    && (spec.nameTo != spec.valueTo ==> row[spec.nameTo] == Text(stage))
    && forall c :: c != spec.nameTo && c != spec.valueTo ==>
         match spec.keep
         case None =>
           (c in row <==> c in wide.cells && !IsStage(spec, wide, c)) && (c in row ==> row[c] == wide.cells[c])
         case Some(keep) =>
           (c in row <==> c in keep) && (c in row ==> row[c] == Cell(wide.cells, c))
  }

  /** `at` holds, in increasing order, exactly the indices of `columns` whose column is `wanted`. */
  ghost predicate Indexes(at: seq<nat>, columns: seq<string>, wanted: string -> bool) {
    && (forall k, l :: 0 <= k < l < |at| ==> at[k] < at[l])
    && (forall k :: 0 <= k < |at| ==> at[k] < |columns|)
    && (forall i: nat :: i < |columns| ==> (i in at <==> wanted(columns[i])))
  }

  ghost predicate Picks(columns: seq<string>, wanted: string -> bool, picked: seq<string>, at: seq<nat>) {
    Indexes(at, columns, wanted) && |picked| == |at| && forall k :: 0 <= k < |at| ==> picked[k] == columns[at[k]]
  }

  lemma IndexesLast(init: seq<string>, last: string, wanted: string -> bool, at: seq<nat>)
    requires Indexes(at, init, wanted)
    ensures !wanted(last) ==> Indexes(at, init + [last], wanted)
    ensures wanted(last) ==> Indexes(at + [|init|], init + [last], wanted)
    ensures forall k :: 0 <= k < |at| ==> at[k] < |init|
  {
    var columns, more := init + [last], at + [|init|];
    assert columns[|init|] == last && forall i :: 0 <= i < |init| ==> columns[i] == init[i];
    assert |init| in more && forall i :: i in at ==> i in more;
  }

  lemma PickLast(init: seq<string>, last: string, wanted: string -> bool, picked: seq<string>, at: seq<nat>)
    requires Picks(init, wanted, picked, at)
    ensures !wanted(last) ==> Picks(init + [last], wanted, picked, at)
    ensures wanted(last) ==> Picks(init + [last], wanted, picked + [last], at + [|init|])
  {
    IndexesLast(init, last, wanted, at);
    hide Indexes;
  }

  lemma {:induction false} SelectPicks(columns: seq<string>, wanted: string -> bool) returns (at: seq<nat>)
    ensures Picks(columns, wanted, Select(columns, wanted), at)
  {
    hide Picks;
    if columns == [] {
      at := [];
      NothingPicked(wanted);
    } else {
      var init, last := columns[..|columns| - 1], columns[|columns| - 1];
      assert columns == init + [last];
      at := SelectPicks(init, wanted);
      var picked := Select(init, wanted);
      assert picked + [] == picked;
      PickLast(init, last, wanted, picked, at);
      if wanted(last) { at := at + [|init|]; }
    }
  }

  lemma NothingPicked(wanted: string -> bool)
    ensures Picks([], wanted, [], [])
  {
  }

  lemma StagesAre(spec: Spec, wide: WideRow)
    ensures forall c :: c in StagesOf(spec, wide) <==> IsStage(spec, wide, c)
  {
  }

  lemma EmittedAre(spec: Spec, wide: WideRow)
    ensures forall c :: c in Emitted(spec, wide) <==> Lands(spec, wide, c)
  {
    StagesAre(spec, wide);
    hide IsBlank, StagesOf, IsStage;
    var present := Select(StagesOf(spec, wide), c => !IsBlank(Cell(wide.cells, c)));
    if present == [] {
      assert forall s :: IsStage(spec, wide, s) ==> s !in present;
    } else {
      assert present[0] in present;
    }
  }

  lemma {:induction false} SelectTwice(columns: seq<string>, first: string -> bool, second: string -> bool)
    ensures Select(Select(columns, first), second) == Select(columns, c => first(c) && second(c))
  {
    if columns != [] {
      var init, last := columns[..|columns| - 1], columns[|columns| - 1];
      SelectTwice(init, first, second);
      var once := Select(init, first);
      assert (once + [last])[..|once|] == once && once + [] == once;
    }
  }

  lemma {:induction false} SelectAlike(columns: seq<string>, one: string -> bool, other: string -> bool)
    requires forall c :: c in columns ==> one(c) == other(c)
    ensures Select(columns, one) == Select(columns, other)
  {
    if columns != [] { SelectAlike(columns[..|columns| - 1], one, other); }
  }

  /** The emitted stages are those that land, taken from the listing in its own order. */
  lemma EmittedIsAPick(spec: Spec, wide: WideRow)
    ensures Emitted(spec, wide) == Select(Listing(spec, wide), c => Lands(spec, wide, c))
  {
    EmittedAre(spec, wide);
    StagesAre(spec, wide);
    var listing, stages := Listing(spec, wide), StagesOf(spec, wide);
    var isStage, blank := c => IsStage(spec, wide, c), c => !IsBlank(Cell(wide.cells, c));
    StagesArePicked(spec, wide);
    SelectTwice(listing, isStage, blank);
    hide IsBlank, StagesOf, IsStage, Lands;
    var lands := c => Lands(spec, wide, c);
    if Emitted(spec, wide) == stages {
      SelectAlike(listing, isStage, lands);
    } else {
      SelectAlike(listing, c => isStage(c) && blank(c), lands);
    }
  }

  lemma StagesArePicked(spec: Spec, wide: WideRow)
    ensures StagesOf(spec, wide) == Select(Listing(spec, wide), c => IsStage(spec, wide, c))
  {
    if spec.columns != [] {
      SelectAlike(spec.columns, c => c in wide.cells, c => IsStage(spec, wide, c));
    } else if spec.glob.Some? {
      SelectAlike(wide.order, c => c in wide.cells && spec.glob.value(c), c => IsStage(spec, wide, c));
    } else {
      NoneSelected(wide.order, c => IsStage(spec, wide, c));
    }
  }

  lemma NoneSelected(columns: seq<string>, wanted: string -> bool)
    requires forall c :: c in columns ==> !wanted(c)
    ensures Select(columns, wanted) == []
  {
    if Select(columns, wanted) != [] {
      assert Select(columns, wanted)[0] in Select(columns, wanted);
    }
  }

  lemma RowsHaveTheirColumns(spec: Spec, wide: WideRow, stage: string)
    requires IsStage(spec, wide, stage)
    ensures IsRowFor(spec, wide, stage, StageRow(spec, wide, stage))
  {
    StagesAre(spec, wide);
  }

  /** A row without any stage column is refused; any other becomes one row for each listed stage that lands,
      in the listing's order, each with exactly its columns. */
  lemma UnpivotRows(spec: Spec, wide: WideRow) returns (at: seq<nat>)
    ensures Unpivot(spec, wide).None? <==> forall c :: !IsStage(spec, wide, c)
    ensures Indexes(at, Listing(spec, wide), c => Lands(spec, wide, c))
    ensures Unpivot(spec, wide).Some? ==>
              && |Unpivot(spec, wide).value| == |at|
              && forall k :: 0 <= k < |at| ==>
                   IsRowFor(spec, wide, Listing(spec, wide)[at[k]], Unpivot(spec, wide).value[k])
  {
    StagesAre(spec, wide);
    EmittedAre(spec, wide);
    EmittedIsAPick(spec, wide);
    at := SelectPicks(Listing(spec, wide), c => Lands(spec, wide, c));
    hide StagesOf, IsRowFor, IsBlank, StageRow;
    var stages, emitted := StagesOf(spec, wide), Emitted(spec, wide);
    assert stages != [] ==> stages[0] in stages;
    if Unpivot(spec, wide).Some? {
      forall k | 0 <= k < |at|
        ensures IsRowFor(spec, wide, Listing(spec, wide)[at[k]], Unpivot(spec, wide).value[k])
      {
        assert emitted[k] in emitted;
        RowsHaveTheirColumns(spec, wide, emitted[k]);
      }
    }
  }

  /** Stages with a value are what lands; a cleared case lands every stage, each null. */
  lemma WhatLands(spec: Spec, wide: WideRow, stage: string)
    requires spec.nameTo != spec.valueTo && Unpivot(spec, wide).Some?
    ensures var rows := Unpivot(spec, wide).value;
            (exists row :: row in rows && Cell(row, spec.nameTo) == Text(stage))
              <==> && IsStage(spec, wide, stage)
                   && (!IsBlank(Cell(wide.cells, stage)) || !spec.dropEmpty || Cleared(spec, wide))
    ensures var rows := Unpivot(spec, wide).value;
            forall row :: row in rows && Cell(row, spec.nameTo) == Text(stage) ==>
              IsRowFor(spec, wide, stage, row)
  {
    EmittedAre(spec, wide);
    hide Cleared, Emitted, StagesOf, IsBlank, Base, IsRowFor;
    var rows, emitted := Unpivot(spec, wide).value, Emitted(spec, wide);
    forall row | row in rows && Cell(row, spec.nameTo) == Text(stage)
      ensures stage in emitted && IsRowFor(spec, wide, stage, row)
    {
      var i :| 0 <= i < |rows| && rows[i] == row;
      assert emitted[i] == stage && Lands(spec, wide, stage);
      RowsHaveTheirColumns(spec, wide, stage);
    }
    if stage in emitted {
      var i :| 0 <= i < |emitted| && emitted[i] == stage;
      assert rows[i] in rows;
    }
  }

  // ---------------------------------------------------------------- does the case key survive?

  ghost predicate KeyKept(spec: Spec, wide: WideRow, primaryKey: seq<string>) {
    Unpivot(spec, wide).Some? ==>
      forall i, k :: 0 <= i < |Unpivot(spec, wide).value| && 0 <= k < |primaryKey|
        ==> Cell(Unpivot(spec, wide).value[i], primaryKey[k]) == Cell(wide.cells, primaryKey[k])
  }

  /** `name_to` and `value_to` are new columns, not key columns. */
  predicate NewColumnsAreNew(spec: Spec, primaryKey: seq<string>) {
    spec.nameTo !in primaryKey && spec.valueTo !in primaryKey
  }

  lemma KeySurvives(spec: Spec, wide: WideRow, primaryKey: seq<string>)
    requires Accepted(spec, primaryKey) && NewColumnsAreNew(spec, primaryKey)
    requires forall k :: 0 <= k < |primaryKey| ==> primaryKey[k] in wide.cells
    ensures KeyKept(spec, wide, primaryKey)
  {
    if Unpivot(spec, wide).Some? {
      forall i, k | 0 <= i < |Unpivot(spec, wide).value| && 0 <= k < |primaryKey|
        ensures Cell(Unpivot(spec, wide).value[i], primaryKey[k]) == Cell(wide.cells, primaryKey[k])
      {
        var column := primaryKey[k];
        assert Survives(spec, column) && column !in StagesOf(spec, wide);
        assert column in Base(spec, wide) && Base(spec, wide)[column] == wide.cells[column];
      }
    }
  }

  /** A column some row can carry as a stage. */
  predicate CanBeStage(spec: Spec, column: string) {
    if spec.columns != [] then column == spec.columns[0] else spec.glob.Some? && spec.glob.value(column)
  }

  function Overwritten(primaryKey: seq<string>, stage: string): WideRow {
    WideRow([stage] + primaryKey, (map c | c in primaryKey :: Int(0))[stage := Text("x")])
  }

  lemma OverwrittenStage(spec: Spec, primaryKey: seq<string>, stage: string)
    requires Accepted(spec, primaryKey) && CanBeStage(spec, stage)
    ensures stage in StagesOf(spec, Overwritten(primaryKey, stage)) && stage !in primaryKey
  {
    assert forall c :: c in primaryKey ==> Survives(spec, c);
    var wide := Overwritten(primaryKey, stage);
    assert wide.order[0] == stage && stage in wide.cells;
  }

  lemma OverwrittenLosesItsKey(spec: Spec, primaryKey: seq<string>, stage: string, k: nat)
    requires Accepted(spec, primaryKey) && CanBeStage(spec, stage) && k < |primaryKey|
    requires primaryKey[k] == spec.nameTo || primaryKey[k] == spec.valueTo
    ensures !KeyKept(spec, Overwritten(primaryKey, stage), primaryKey)
  {
    var wide := Overwritten(primaryKey, stage);
    OverwrittenStage(spec, primaryKey, stage);
    var rows := Unpivot(spec, wide).value;
    var shown := Emitted(spec, wide)[0];
    assert shown in Emitted(spec, wide);
    assert Cell(wide.cells, primaryKey[k]) == Int(0);
    assert rows[0] == StageRow(spec, wide, shown);
    assert Cell(rows[0], primaryKey[k]) != Int(0);
  }

  /** An accepted spec keeps the case key of every row exactly when its new columns are not key columns,
      a check `validate_unpivot` does not make when `keep` is unset. */
  lemma KeySurvivesIff(spec: Spec, primaryKey: seq<string>, stage: string)
    requires Accepted(spec, primaryKey) && CanBeStage(spec, stage)
    requires forall i, j :: 0 <= i < j < |primaryKey| ==> primaryKey[i] != primaryKey[j]
    ensures (forall wide :: Ordered(wide) && (forall k :: 0 <= k < |primaryKey| ==> primaryKey[k] in wide.cells)
               ==> KeyKept(spec, wide, primaryKey))
       <==> NewColumnsAreNew(spec, primaryKey)
  {
    hide KeyKept, Accepted, CanBeStage;
    if NewColumnsAreNew(spec, primaryKey) {
      forall wide | Ordered(wide) && (forall k :: 0 <= k < |primaryKey| ==> primaryKey[k] in wide.cells)
        ensures KeyKept(spec, wide, primaryKey)
      {
        KeySurvives(spec, wide, primaryKey);
      }
    } else {
      var k :| 0 <= k < |primaryKey| && (primaryKey[k] == spec.nameTo || primaryKey[k] == spec.valueTo);
      OverwrittenStage(spec, primaryKey, stage);
      OverwrittenLosesItsKey(spec, primaryKey, stage, k);
      assert Ordered(Overwritten(primaryKey, stage));
    }
  }
}
