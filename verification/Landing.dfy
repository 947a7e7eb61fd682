/** Merge identity, the injected metadata, and what delete-insert loads leave in a landing table.
    (django_connectors/landing/instrument.py) */
module Landing {
  import opened Values
  import opened Reshape

  predicate Metadata(column: string) {
    column == BINDING_ID_COLUMN || column == RUN_ID_COLUMN || column == DELETED_COLUMN
  }

  // ---------------------------------------------------------------- hints

  datatype Disposition = Merge | Append | Replace

  /** None where the source refuses the combination. */
  function NormalizeWriteDisposition(declared: Option<Disposition>, primaryKey: seq<string>): (d: Option<Disposition>)
    ensures d == Some(Merge) ==> primaryKey != []
    ensures d == Some(Append) ==> primaryKey == []
    ensures d.None? && primaryKey == [] <==> primaryKey == [] && (declared.None? || declared.value.Merge?)
    ensures d.None? && primaryKey != [] <==> primaryKey != [] && declared == Some(Append)
  {
    var disposition := if declared.None? then Merge else declared.value;
    match disposition
    case Merge => if primaryKey == [] then None else Some(Merge)
    case Append => if primaryKey != [] then None else Some(Append)
    case Replace => Some(Replace)
  }

  datatype MergeHints = MergeHints(primaryKey: seq<string>, mergeKey: Option<seq<string>>)

  /** The binding id always leads; an unpivot adds the stage to the primary key and replaces by case. */
  function Hints(primaryKey: seq<string>, reshape: Option<Spec>): MergeHints {
    var caseKey := [BINDING_ID_COLUMN] + primaryKey;
    if reshape.None? then MergeHints(caseKey, None)
    else MergeHints(caseKey + [reshape.value.nameTo], Some(caseKey))
  }

  function Inject(row: Row, binding: string, run: string): Row {
    (if DELETED_COLUMN in row then row else row[DELETED_COLUMN := Bool(false)])
      [BINDING_ID_COLUMN := Text(binding)][RUN_ID_COLUMN := Text(run)]
  }

  /** Stamping leaves this Binding's id, this Run's id and the marker as the row set it, or false; nothing else of the
      row changes. */
  lemma InjectStamps(row: Row, binding: string, run: string)
    ensures var stamped := Inject(row, binding, run);
            && stamped.Keys == row.Keys + {BINDING_ID_COLUMN, RUN_ID_COLUMN, DELETED_COLUMN}
            && stamped[BINDING_ID_COLUMN] == Text(binding) && stamped[RUN_ID_COLUMN] == Text(run)
            && (DELETED_COLUMN in row ==> stamped[DELETED_COLUMN] == row[DELETED_COLUMN])
            && (DELETED_COLUMN !in row ==> stamped[DELETED_COLUMN] == Bool(false))
            && forall c :: c in row && !Metadata(c) ==> stamped[c] == row[c]
  {
  }

  // ---------------------------------------------------------------- tables and delete-insert

  /** A landed row and the load that brought it. */
  datatype Entry = Entry(row: Row, load: string)

  type Key = seq<Value>

  function KeyOf(row: Row, columns: seq<string>): Key {
    seq(|columns|, i requires 0 <= i < |columns| => Cell(row, columns[i]))
  }

  function ByColumns(columns: seq<string>): Entry -> Key { (e: Entry) => KeyOf(e.row, columns) }

  function KeysOf<T>(rows: seq<T>, key: T -> Key): set<Key> {
    set i | 0 <= i < |rows| :: key(rows[i])
  }

  /** DELETE every row whose key is in `gone`. */
  function Keep<T>(rows: seq<T>, key: T -> Key, gone: set<Key>): seq<T> {
    if rows == [] then []
    else
      var last := rows[|rows| - 1];
      Keep(rows[..|rows| - 1], key, gone) + if key(last) in gone then [] else [last]
  }

  /** One row per key, the first of each, leaving out keys already `seen`. */
  function Fresh<T>(rows: seq<T>, key: T -> Key, seen: set<Key>): seq<T> {
    if rows == [] then []
    else
      var init, last := rows[..|rows| - 1], rows[|rows| - 1];
      Fresh(init, key, seen) + if key(last) in seen + KeysOf(init, key) then [] else [last]
  }

  /** dlt's delete-insert: drop what the package's keys match, then insert the package, one row per primary key. */
  function DeleteInsert(table: seq<Entry>, package: seq<Entry>, hints: MergeHints): seq<Entry> {
    var primary := ByColumns(hints.primaryKey);
    var matched := ByColumns(if hints.mergeKey.Some? then hints.mergeKey.value else hints.primaryKey);
    Keep(Keep(table, matched, KeysOf(package, matched)), primary, KeysOf(package, primary))
    + Fresh(package, primary, {})
  }

  /** Two rows agree on every key column. */
  predicate SameKey(one: Row, other: Row, primaryKey: seq<string>) {
    forall k :: 0 <= k < |primaryKey| ==> Cell(one, primaryKey[k]) == Cell(other, primaryKey[k])
  }

  lemma KeysAgreeIff(one: Row, other: Row, columns: seq<string>)
    ensures KeyOf(one, columns) == KeyOf(other, columns) <==> SameKey(one, other, columns)
  {
    if KeyOf(one, columns) == KeyOf(other, columns) {
      forall k | 0 <= k < |columns| ensures Cell(one, columns[k]) == Cell(other, columns[k]) {
        assert KeyOf(one, columns)[k] == KeyOf(other, columns)[k];
      }
    }
  }

  lemma StampedKeysAgreeIff(one: Row, b1: string, r1: string, other: Row, b2: string, r2: string,
                            primaryKey: seq<string>)
    requires forall k :: 0 <= k < |primaryKey| ==> !Metadata(primaryKey[k])
    ensures KeyOf(Inject(one, b1, r1), [BINDING_ID_COLUMN] + primaryKey)
            == KeyOf(Inject(other, b2, r2), [BINDING_ID_COLUMN] + primaryKey)
       <==> b1 == b2 && SameKey(one, other, primaryKey)
  {
    var first, second, columns := Inject(one, b1, r1), Inject(other, b2, r2), [BINDING_ID_COLUMN] + primaryKey;
    StampKeepsCells(one, b1, r1, primaryKey);
    StampKeepsCells(other, b2, r2, primaryKey);
    KeysAgreeIff(first, second, columns);
    hide Inject, KeyOf;
    SameKeyOfMore(first, second, BINDING_ID_COLUMN, primaryKey);
  }

  lemma StampKeepsCells(row: Row, binding: string, run: string, columns: seq<string>)
    requires forall k :: 0 <= k < |columns| ==> !Metadata(columns[k])
    ensures Cell(Inject(row, binding, run), BINDING_ID_COLUMN) == Text(binding)
    ensures forall k :: 0 <= k < |columns| ==> Cell(Inject(row, binding, run), columns[k]) == Cell(row, columns[k])
  {
  }

  lemma SameKeyOfMore(one: Row, other: Row, column: string, columns: seq<string>)
    ensures SameKey(one, other, [column] + columns)
       <==> Cell(one, column) == Cell(other, column) && SameKey(one, other, columns)
  {
    hide Cell;
    var more := [column] + columns;
    if SameKey(one, other, more) {
      assert Cell(one, more[0]) == Cell(other, more[0]);
      forall k | 0 <= k < |columns| ensures Cell(one, columns[k]) == Cell(other, columns[k]) {
        assert more[k + 1] == columns[k];
      }
    }
  }

  /** Two rows are one row of the landing table exactly when they come from the same Binding with the same key and,
      under a reshape, the same stage; a load replaces a row exactly when it sends its case again for that Binding. */
  lemma MergeIdentity(one: Row, b1: string, r1: string, other: Row, b2: string, r2: string, primaryKey: seq<string>,
                      reshape: Option<Spec>)
    requires forall k :: 0 <= k < |primaryKey| ==> !Metadata(primaryKey[k])
    requires reshape.Some? ==> !Metadata(reshape.value.nameTo)
    ensures var hints, first, second := Hints(primaryKey, reshape), Inject(one, b1, r1), Inject(other, b2, r2);
            && (KeyOf(first, hints.primaryKey) == KeyOf(second, hints.primaryKey) <==>
                  && b1 == b2 && SameKey(one, other, primaryKey)
                  && (reshape.Some? ==> Cell(one, reshape.value.nameTo) == Cell(other, reshape.value.nameTo)))
            && (hints.mergeKey.Some? <==> reshape.Some?)
            && (reshape.Some? ==>
                  (KeyOf(first, hints.mergeKey.value) == KeyOf(second, hints.mergeKey.value)
                   <==> b1 == b2 && SameKey(one, other, primaryKey)))
  {
    var first, second, caseKey := Inject(one, b1, r1), Inject(other, b2, r2), [BINDING_ID_COLUMN] + primaryKey;
    StampedKeysAgreeIff(one, b1, r1, other, b2, r2, primaryKey);
    if reshape.Some? {
      var stage := reshape.value.nameTo;
      InjectStamps(one, b1, r1);
      InjectStamps(other, b2, r2);
      KeyOfConcat(first, caseKey, [stage]);
      KeyOfConcat(second, caseKey, [stage]);
      assert KeyOf(first, [stage]) == [Cell(one, stage)] && KeyOf(second, [stage]) == [Cell(other, stage)];
      hide Inject, KeyOf, SameKey;
      SplitsAlike(KeyOf(first, caseKey), Cell(one, stage), KeyOf(second, caseKey), Cell(other, stage));
    }
  }

  lemma SplitsAlike(a: Key, x: Value, b: Key, y: Value)
    ensures a + [x] == b + [y] <==> a == b && x == y
  {
    if a + [x] == b + [y] {
      assert a == (a + [x])[..|a|] && b == (b + [y])[..|b|] && (a + [x])[|a|] == x && (b + [y])[|b|] == y;
    }
  }

  ghost predicate Unique<T>(rows: seq<T>, key: T -> Key) {
    forall i, j :: 0 <= i < j < |rows| ==> key(rows[i]) != key(rows[j])
  }

  lemma {:induction false} KeepElements<T>(rows: seq<T>, key: T -> Key, gone: set<Key>)
    ensures forall e :: e in Keep(rows, key, gone) <==> e in rows && key(e) !in gone
    ensures forall i :: 0 <= i < |Keep(rows, key, gone)| ==> Keep(rows, key, gone)[i] in rows
  {
    if rows != [] {
      KeepElements(rows[..|rows| - 1], key, gone);
      assert rows == rows[..|rows| - 1] + [rows[|rows| - 1]];
    }
  }

  lemma {:induction false} KeepKeepsUnique<T>(rows: seq<T>, key: T -> Key, gone: set<Key>, identity: T -> Key)
    requires Unique(rows, identity)
    ensures Unique(Keep(rows, key, gone), identity)
  {
    if rows != [] {
      var init := rows[..|rows| - 1];
      KeepKeepsUnique(init, key, gone, identity);
      KeepElements(init, key, gone);
      var kept := Keep(init, key, gone);
      forall i | 0 <= i < |kept| ensures identity(kept[i]) != identity(rows[|rows| - 1]) {
        var j :| 0 <= j < |init| && init[j] == kept[i];
        assert rows[j] == init[j];
      }
    }
  }

  lemma {:induction false} FreshIsUnique<T>(rows: seq<T>, key: T -> Key, seen: set<Key>)
    ensures Unique(Fresh(rows, key, seen), key)
    ensures KeysOf(Fresh(rows, key, seen), key) == KeysOf(rows, key) - seen
    ensures forall e :: e in Fresh(rows, key, seen) ==> e in rows
  {
    if rows != [] {
      var init, last := rows[..|rows| - 1], rows[|rows| - 1];
      FreshIsUnique(init, key, seen);
      var added := Fresh(init, key, seen);
      KeysOfConcat(init, [last], key);
      KeysOfConcat(added, [last], key);
      assert rows == init + [last];
      assert KeysOf([last], key) == {key(last)} by { assert key([last][0]) in KeysOf([last], key); }
      forall i | 0 <= i < |added| ensures key(added[i]) in KeysOf(init, key) {
        assert key(added[i]) in KeysOf(added, key);
      }
      assert key(last) !in seen + KeysOf(init, key) ==> Fresh(rows, key, seen) == added + [last];
      assert key(last) in seen + KeysOf(init, key) ==> Fresh(rows, key, seen) == added;
    }
  }

  lemma KeysOfConcat<T>(a: seq<T>, b: seq<T>, key: T -> Key)
    ensures KeysOf(a + b, key) == KeysOf(a, key) + KeysOf(b, key)
  {
    forall k | k in KeysOf(a, key) + KeysOf(b, key) ensures k in KeysOf(a + b, key) {
      if k in KeysOf(a, key) {
        var i :| 0 <= i < |a| && key(a[i]) == k;
        assert (a + b)[i] == a[i];
      } else {
        var i :| 0 <= i < |b| && key(b[i]) == k;
        assert (a + b)[|a| + i] == b[i];
      }
    }
  }

  /** The landed table has one row per primary key after any load, though nothing in the database says so. */
  lemma LoadsKeepPrimaryKeysUnique(table: seq<Entry>, package: seq<Entry>, hints: MergeHints)
    requires Unique(table, ByColumns(hints.primaryKey))
    ensures Unique(DeleteInsert(table, package, hints), ByColumns(hints.primaryKey))
  {
    var primary := ByColumns(hints.primaryKey);
    var matched := ByColumns(if hints.mergeKey.Some? then hints.mergeKey.value else hints.primaryKey);
    var kept := Keep(table, matched, KeysOf(package, matched));
    var left := Keep(kept, primary, KeysOf(package, primary));
    KeepKeepsUnique(table, matched, KeysOf(package, matched), primary);
    KeepKeepsUnique(kept, primary, KeysOf(package, primary), primary);
    KeepElements(kept, primary, KeysOf(package, primary));
    FreshIsUnique(package, primary, {});
    var added := Fresh(package, primary, {});
    forall i, j | 0 <= i < |left| && 0 <= j < |added| ensures primary(left[i]) != primary(added[j]) {
      assert left[i] in left;
      assert primary(added[j]) in KeysOf(added, primary);
    }
  }

  // ---------------------------------------------------------------- wide rows and their lines

  /** An unpivoted resource: its reshape and the primary key the source declared. */
  datatype Shape = Shape(spec: Spec, primaryKey: seq<string>)

  /** A wide row as one Run of one Binding sent it. */
  datatype WideEntry = WideEntry(wide: WideRow, binding: string, run: string, load: string)

  function CaseColumns(shape: Shape): seq<string> { [BINDING_ID_COLUMN] + shape.primaryKey }

  function LineColumns(shape: Shape): seq<string> { CaseColumns(shape) + [shape.spec.nameTo] }

  function CaseOf(shape: Shape, w: WideEntry): Key { [Text(w.binding)] + KeyOf(w.wide.cells, shape.primaryKey) }

  function ByCase(shape: Shape): WideEntry -> Key { (w: WideEntry) => CaseOf(shape, w) }

  /** The landed rows of one wide row: reshape first, then stamp. */
  function Long(shape: Shape, w: WideEntry): (lines: seq<Entry>) {
    match Unpivot(shape.spec, w.wide)
    case None => []
    case Some(rows) => seq(|rows|, i requires 0 <= i < |rows| => Entry(Inject(rows[i], w.binding, w.run), w.load))
  }

  function LongAll(shape: Shape, ws: seq<WideEntry>): seq<Entry> {
    if ws == [] then [] else LongAll(shape, ws[..|ws| - 1]) + Long(shape, ws[|ws| - 1])
  }

  /** The lines a wide row stands for: one per stage. */
  function Lines(shape: Shape, w: WideEntry): seq<Entry> {
    Fresh(Long(shape, w), ByColumns(LineColumns(shape)), {})
  }

  /** A whole wide table, unpivoted. */
  function LinesAll(shape: Shape, ws: seq<WideEntry>): seq<Entry> {
    if ws == [] then [] else LinesAll(shape, ws[..|ws| - 1]) + Lines(shape, ws[|ws| - 1])
  }

  /** A row the reshape accepts, with its key columns present; the new columns are new. */
  ghost predicate Fit(shape: Shape, w: WideEntry) {
    && Accepted(shape.spec, shape.primaryKey)
    && NewColumnsAreNew(shape.spec, shape.primaryKey)
    && !Metadata(shape.spec.nameTo) && !Metadata(shape.spec.valueTo)
    && (forall k :: 0 <= k < |shape.primaryKey|
          ==> shape.primaryKey[k] in w.wide.cells && !Metadata(shape.primaryKey[k]))
    && Unpivot(shape.spec, w.wide).Some?
  }

  ghost predicate AllFit(shape: Shape, ws: seq<WideEntry>) {
    forall i :: 0 <= i < |ws| ==> Fit(shape, ws[i])
  }

  /** The wide table the customer has in mind: a re-sent case replaces the case. */
  function WideMerge(shape: Shape, table: seq<WideEntry>, package: seq<WideEntry>): seq<WideEntry> {
    Keep(table, ByCase(shape), KeysOf(package, ByCase(shape))) + Fresh(package, ByCase(shape), {})
  }

  lemma StampKeepsCase(shape: Shape, w: WideEntry, row: Row)
    requires forall k :: 0 <= k < |shape.primaryKey| ==>
               && !Metadata(shape.primaryKey[k])
               && Cell(row, shape.primaryKey[k]) == Cell(w.wide.cells, shape.primaryKey[k])
    ensures KeyOf(Inject(row, w.binding, w.run), CaseColumns(shape)) == CaseOf(shape, w)
  {
    var stamped := Inject(row, w.binding, w.run);
    assert forall k :: 0 <= k < |shape.primaryKey| ==>
             Cell(stamped, shape.primaryKey[k]) == Cell(row, shape.primaryKey[k]);
    assert KeyOf(stamped, shape.primaryKey) == KeyOf(w.wide.cells, shape.primaryKey);
    KeyOfConcat(stamped, [BINDING_ID_COLUMN], shape.primaryKey);
    assert KeyOf(stamped, [BINDING_ID_COLUMN]) == [Text(w.binding)];
  }

  lemma KeyOfConcat(row: Row, a: seq<string>, b: seq<string>)
    ensures KeyOf(row, a + b) == KeyOf(row, a) + KeyOf(row, b)
  {
  }

  lemma StampKeepsLine(shape: Shape, w: WideEntry, row: Row)
    requires forall k :: 0 <= k < |shape.primaryKey| ==>
               && !Metadata(shape.primaryKey[k])
               && Cell(row, shape.primaryKey[k]) == Cell(w.wide.cells, shape.primaryKey[k])
    ensures var stamped := Inject(row, w.binding, w.run);
            && KeyOf(stamped, CaseColumns(shape)) == CaseOf(shape, w)
            && KeyOf(stamped, LineColumns(shape)) == CaseOf(shape, w) + [Cell(stamped, shape.spec.nameTo)]
  {
    StampKeepsCase(shape, w, row);
    hide Inject, Cell, CaseOf, CaseColumns;
    var stamped := Inject(row, w.binding, w.run);
    KeyOfConcat(stamped, CaseColumns(shape), [shape.spec.nameTo]);
    assert KeyOf(stamped, [shape.spec.nameTo]) == [Cell(stamped, shape.spec.nameTo)];
  }

  /** Each landed line of a wide row is one of its unpivoted rows, stamped. */
  lemma LineOf(shape: Shape, w: WideEntry, e: Entry) returns (i: nat)
    requires Unpivot(shape.spec, w.wide).Some? && e in Long(shape, w)
    ensures i < |Unpivot(shape.spec, w.wide).value|
    ensures e.row == Inject(Unpivot(shape.spec, w.wide).value[i], w.binding, w.run)
  {
    hide Unpivot, Inject;
    var rows := Unpivot(shape.spec, w.wide).value;
    i :| 0 <= i < |rows| && e == Entry(Inject(rows[i], w.binding, w.run), w.load);
  }

  lemma LongKeepsCase(shape: Shape, w: WideEntry)
    requires Fit(shape, w)
    ensures Long(shape, w) != []
    ensures forall e :: e in Long(shape, w) ==>
              && KeyOf(e.row, CaseColumns(shape)) == CaseOf(shape, w)
              && KeyOf(e.row, LineColumns(shape)) == CaseOf(shape, w) + [Cell(e.row, shape.spec.nameTo)]
  {
    KeySurvives(shape.spec, w.wide, shape.primaryKey);
    LongNotEmpty(shape, w);
    hide Unpivot, Accepted, CaseOf, CaseColumns, LineColumns, KeyOf, Inject, Long, Cell, NewColumnsAreNew;
    forall e | e in Long(shape, w)
      ensures KeyOf(e.row, CaseColumns(shape)) == CaseOf(shape, w)
      ensures KeyOf(e.row, LineColumns(shape)) == CaseOf(shape, w) + [Cell(e.row, shape.spec.nameTo)]
    {
      var i := LineOf(shape, w, e);
      StampKeepsLine(shape, w, Unpivot(shape.spec, w.wide).value[i]);
    }
  }

  lemma LongNotEmpty(shape: Shape, w: WideEntry)
    requires Unpivot(shape.spec, w.wide).Some?
    ensures Long(shape, w) != []
  {
    hide StageRow, Emitted, StagesOf;
  }

  lemma LinesKeepCase(shape: Shape, w: WideEntry)
    requires Fit(shape, w)
    ensures Lines(shape, w) != []
    ensures forall e :: e in Lines(shape, w) ==>
              e in Long(shape, w) && KeyOf(e.row, CaseColumns(shape)) == CaseOf(shape, w)
    ensures var line := ByColumns(LineColumns(shape)); KeysOf(Lines(shape, w), line) == KeysOf(Long(shape, w), line)
  {
    LongKeepsCase(shape, w);
    hide Long, Fit, CaseColumns, CaseOf, KeyOf;
    var primary := ByColumns(LineColumns(shape));
    FreshIsUnique(Long(shape, w), primary, {});
    assert primary(Long(shape, w)[0]) in KeysOf(Lines(shape, w), primary);
  }

  // ---------------------------------------------------------------- the commuting square

  lemma {:induction false} KeepConcat<T>(a: seq<T>, b: seq<T>, key: T -> Key, gone: set<Key>)
    ensures Keep(a + b, key, gone) == Keep(a, key, gone) + Keep(b, key, gone)
    decreases |b|
  {
    if b == [] {
      assert a + b == a;
    } else {
      assert (a + b)[..|a + b| - 1] == a + b[..|b| - 1];
      KeepConcat(a, b[..|b| - 1], key, gone);
    }
  }

  lemma {:induction false} KeepAllOrNothing<T>(rows: seq<T>, key: T -> Key, gone: set<Key>)
    ensures (forall i :: 0 <= i < |rows| ==> key(rows[i]) !in gone) ==> Keep(rows, key, gone) == rows
    ensures (forall i :: 0 <= i < |rows| ==> key(rows[i]) in gone) ==> Keep(rows, key, gone) == []
  {
    if rows != [] {
      var init, last := rows[..|rows| - 1], rows[|rows| - 1];
      KeepAllOrNothing(init, key, gone);
      assert forall i :: 0 <= i < |init| ==> rows[i] == init[i];
      assert rows == init + [last];
      assert Keep(rows, key, gone) == Keep(init, key, gone) + if key(last) in gone then [] else [last];
    }
  }

  lemma {:induction false} FreshConcat<T>(a: seq<T>, b: seq<T>, key: T -> Key, seen: set<Key>)
    ensures Fresh(a + b, key, seen) == Fresh(a, key, seen) + Fresh(b, key, seen + KeysOf(a, key))
    decreases |b|
  {
    if b == [] {
      assert a + b == a;
    } else {
      var init := b[..|b| - 1];
      assert (a + b)[..|a + b| - 1] == a + init;
      FreshConcat(a, init, key, seen);
      KeysOfConcat(a, init, key);
    }
  }

  lemma {:induction false} FreshSeen<T>(rows: seq<T>, key: T -> Key, seen: set<Key>)
    ensures KeysOf(rows, key) !! seen ==> Fresh(rows, key, seen) == Fresh(rows, key, {})
    ensures KeysOf(rows, key) <= seen <==> Fresh(rows, key, seen) == []
  {
    if rows != [] {
      var init, last := rows[..|rows| - 1], rows[|rows| - 1];
      FreshSeen(init, key, seen);
      assert rows == init + [last];
      KeysOfConcat(init, [last], key);
      assert KeysOf([last], key) == {key(last)};
    }
  }

  /** Deleting a case from the unpivoted table is unpivoting the table without the case. */
  lemma {:induction false} KeepLines(shape: Shape, ws: seq<WideEntry>, gone: set<Key>)
    requires AllFit(shape, ws)
    ensures Keep(LinesAll(shape, ws), ByColumns(CaseColumns(shape)), gone)
         == LinesAll(shape, Keep(ws, ByCase(shape), gone))
  {
    hide Lines, Fit, CaseColumns, CaseOf, KeyOf;
    if ws != [] {
      var init, last := ws[..|ws| - 1], ws[|ws| - 1];
      KeepLines(shape, init, gone);
      var lines := Lines(shape, last);
      KeepConcat(LinesAll(shape, init), lines, ByColumns(CaseColumns(shape)), gone);
      LinesKeepCase(shape, last);
      assert forall i :: 0 <= i < |lines| ==> lines[i] in lines;
      KeepAllOrNothing(lines, ByColumns(CaseColumns(shape)), gone);
      var kept := Keep(init, ByCase(shape), gone);
      if CaseOf(shape, last) in gone {
        assert Keep(ws, ByCase(shape), gone) == kept;
      } else {
        assert Keep(ws, ByCase(shape), gone) == kept + [last];
        assert (kept + [last])[..|kept + [last]| - 1] == kept;
      }
    }
  }

  lemma {:induction false} CasesOfLong(shape: Shape, ws: seq<WideEntry>)
    requires AllFit(shape, ws)
    ensures KeysOf(LongAll(shape, ws), ByColumns(CaseColumns(shape))) == KeysOf(ws, ByCase(shape))
  {
    hide Long, Fit, CaseColumns, CaseOf;
    if ws != [] {
      var init, last := ws[..|ws| - 1], ws[|ws| - 1];
      CasesOfLong(shape, init);
      LongKeepsCase(shape, last);
      var long, byCase := Long(shape, last), ByColumns(CaseColumns(shape));
      assert forall i :: 0 <= i < |long| ==> long[i] in long;
      assert byCase(long[0]) == CaseOf(shape, last);
      assert KeysOf(long, byCase) == {CaseOf(shape, last)};
      KeysOfConcat(LongAll(shape, init), long, byCase);
      KeysOfConcat(init, [last], ByCase(shape));
      assert ws == init + [last] && KeysOf([last], ByCase(shape)) == {CaseOf(shape, last)};
    }
  }

  /** `w`, sent after `earlier` in one package, brings a case of its own or no stage that case lacked. */
  ghost predicate AddsNothing(shape: Shape, earlier: seq<WideEntry>, w: WideEntry) {
    CaseOf(shape, w) in KeysOf(earlier, ByCase(shape)) ==>
      var line := ByColumns(LineColumns(shape));
      KeysOf(Long(shape, w), line) <= KeysOf(LongAll(shape, earlier), line)
  }

  /** A case sent again in one package brings no stage its earlier rows in that package did not bring. */
  ghost predicate RepeatsAddNothing(shape: Shape, package: seq<WideEntry>) {
    forall i :: 0 <= i < |package| ==> AddsNothing(shape, package[..i], package[i])
  }

  lemma RepeatsInPrefix(shape: Shape, init: seq<WideEntry>, last: WideEntry)
    ensures RepeatsAddNothing(shape, init + [last])
       <==> RepeatsAddNothing(shape, init) && AddsNothing(shape, init, last)
  {
    hide AddsNothing;
    var package := init + [last];
    assert package[..|init|] == init && package[|init|] == last;
    assert forall i :: 0 <= i < |init| ==> package[..i] == init[..i] && package[i] == init[i];
  }

  /** Rows of different cases never share a (case, stage). */
  lemma LineKeysApart(shape: Shape, v: WideEntry, w: WideEntry)
    requires Fit(shape, v) && Fit(shape, w) && CaseOf(shape, v) != CaseOf(shape, w)
    ensures var line := ByColumns(LineColumns(shape)); KeysOf(Long(shape, v), line) !! KeysOf(Long(shape, w), line)
  {
    LongKeepsCase(shape, v);
    LongKeepsCase(shape, w);
    hide Long, Fit, LineColumns, CaseColumns;
    var primary := ByColumns(LineColumns(shape));
    forall i, j | 0 <= i < |Long(shape, v)| && 0 <= j < |Long(shape, w)|
      ensures primary(Long(shape, v)[i]) != primary(Long(shape, w)[j])
    {
      assert Long(shape, v)[i] in Long(shape, v) && Long(shape, w)[j] in Long(shape, w);
      NoSharedKey(CaseOf(shape, v), CaseOf(shape, w), Cell(Long(shape, v)[i].row, shape.spec.nameTo),
                  Cell(Long(shape, w)[j].row, shape.spec.nameTo));
    }
  }

  lemma NoSharedKey(a: Key, b: Key, x: Value, y: Value)
    requires |a| == |b| && a != b
    ensures a + [x] != b + [y]
  {
    assert (a + [x])[..|a|] == a && (b + [y])[..|b|] == b;
  }

  lemma {:induction false} LineKeysOfOtherCases(shape: Shape, ws: seq<WideEntry>, w: WideEntry)
    requires AllFit(shape, ws) && Fit(shape, w)
    requires CaseOf(shape, w) !in KeysOf(ws, ByCase(shape))
    ensures var line := ByColumns(LineColumns(shape)); KeysOf(Long(shape, w), line) !! KeysOf(LongAll(shape, ws), line)
  {
    hide Long, Fit, LineColumns, CaseColumns, CaseOf;
    var primary := ByColumns(LineColumns(shape));
    if ws != [] {
      var init, last := ws[..|ws| - 1], ws[|ws| - 1];
      KeysOfConcat(init, [last], ByCase(shape));
      assert ws == init + [last] && ByCase(shape)([last][0]) in KeysOf([last], ByCase(shape));
      LineKeysOfOtherCases(shape, init, w);
      LineKeysApart(shape, w, last);
      KeysOfConcat(LongAll(shape, init), Long(shape, last), primary);
    }
  }

  /** What the last row of a package adds to what lands, and to what is meant. */
  lemma PackageStep(shape: Shape, init: seq<WideEntry>, last: WideEntry)
    requires AllFit(shape, init) && Fit(shape, last)
    ensures var primary := ByColumns(LineColumns(shape));
            var landed, meant := Fresh(LongAll(shape, init), primary, {}), Fresh(init, ByCase(shape), {});
            var more := Fresh(LongAll(shape, init + [last]), primary, {});
            var intended := LinesAll(shape, Fresh(init + [last], ByCase(shape), {}));
            |landed| >= |LinesAll(shape, meant)| ==>
              && |more| >= |intended|
              && (more == intended <==> landed == LinesAll(shape, meant) && AddsNothing(shape, init, last))
  {
    hide Long, Fit, LineColumns, CaseColumns, CaseOf;
    var primary := ByColumns(LineColumns(shape));
    var seen := KeysOf(LongAll(shape, init), primary);
    assert (init + [last])[..|init|] == init;
    FreshConcat(LongAll(shape, init), Long(shape, last), primary, {});
    assert {} + seen == seen;
    FreshSeen(Long(shape, last), primary, seen);
    var landed, meant := Fresh(LongAll(shape, init), primary, {}), Fresh(init, ByCase(shape), {});
    if CaseOf(shape, last) in KeysOf(init, ByCase(shape)) {
      assert Fresh(init + [last], ByCase(shape), {}) == meant;
    } else {
      LineKeysOfOtherCases(shape, init, last);
      assert Fresh(init + [last], ByCase(shape), {}) == meant + [last];
      assert (meant + [last])[..|meant|] == meant;
      Cancel(landed, LinesAll(shape, meant), Lines(shape, last));
    }
  }

  /** One package: what lands, against what the deduplicated wide rows stand for. */
  ghost predicate Square(shape: Shape, package: seq<WideEntry>) {
    var landed := Fresh(LongAll(shape, package), ByColumns(LineColumns(shape)), {});
    var meant := LinesAll(shape, Fresh(package, ByCase(shape), {}));
    && |landed| >= |meant|
    && (landed == meant <==> RepeatsAddNothing(shape, package))
  }

  lemma SquareGrows(shape: Shape, init: seq<WideEntry>, last: WideEntry)
    requires AllFit(shape, init) && Fit(shape, last) && Square(shape, init)
    ensures Square(shape, init + [last])
  {
    hide LongAll, LinesAll, Fresh, RepeatsAddNothing, AddsNothing, Fit, ByColumns, LineColumns;
    RepeatsInPrefix(shape, init, last);
    PackageStep(shape, init, last);
  }

  lemma NothingSquare(shape: Shape)
    ensures Square(shape, [])
  {
    hide AddsNothing;
    assert LongAll(shape, []) == [];
  }

  lemma {:induction false} PackageSquare(shape: Shape, package: seq<WideEntry>)
    requires AllFit(shape, package)
    ensures Square(shape, package)
  {
    hide Square, Fit;
    if package == [] {
      NothingSquare(shape);
    } else {
      var init, last := package[..|package| - 1], package[|package| - 1];
      PackageSquare(shape, init);
      SquareGrows(shape, init, last);
      assert package == init + [last];
    }
  }

  lemma Cancel<T>(a: seq<T>, b: seq<T>, tail: seq<T>)
    ensures a + tail == b + tail <==> a == b
  {
    if a + tail == b + tail {
      assert |a| == |b|;
      assert a == (a + tail)[..|a|] && b == (b + tail)[..|b|];
    }
  }

  /** The square for one load: unpivoting the merged wide table is loading the unpivoted package, exactly
      when the package repeats no case with a stage its earlier rows lacked. */
  lemma LoadSquare(shape: Shape, table: seq<WideEntry>, package: seq<WideEntry>)
    requires AllFit(shape, table) && AllFit(shape, package)
    ensures LinesAll(shape, WideMerge(shape, table, package))
              == DeleteInsert(LinesAll(shape, table), LongAll(shape, package),
                              Hints(shape.primaryKey, Some(shape.spec)))
       <==> RepeatsAddNothing(shape, package)
  {
    var byCase, primary := ByColumns(CaseColumns(shape)), ByColumns(LineColumns(shape));
    var cases := KeysOf(package, ByCase(shape));
    var long := LongAll(shape, package);
    var kept := Keep(LinesAll(shape, table), byCase, cases);
    CasesOfLong(shape, package);
    KeepLines(shape, table, cases);
    KeepLosesNothingMore(shape, LinesAll(shape, table), long);
    LinesOfConcat(shape, Keep(table, ByCase(shape), cases), Fresh(package, ByCase(shape), {}));
    PackageSquare(shape, package);
    CancelFront(kept, LinesAll(shape, Fresh(package, ByCase(shape), {})), Fresh(long, primary, {}));
  }

  lemma CancelFront<T>(front: seq<T>, a: seq<T>, b: seq<T>)
    ensures front + a == front + b <==> a == b
  {
    if front + a == front + b {
      assert a == (front + a)[|front|..] && b == (front + b)[|front|..];
    }
  }

  /** Once a case's rows are gone, no row shares a (case, stage) with the package. */
  lemma KeepLosesNothingMore(shape: Shape, table: seq<Entry>, package: seq<Entry>)
    ensures var byCase, primary := ByColumns(CaseColumns(shape)), ByColumns(LineColumns(shape));
            var kept := Keep(table, byCase, KeysOf(package, byCase));
            Keep(kept, primary, KeysOf(package, primary)) == kept
  {
    var byCase, primary := ByColumns(CaseColumns(shape)), ByColumns(LineColumns(shape));
    var kept := Keep(table, byCase, KeysOf(package, byCase));
    KeepElements(table, byCase, KeysOf(package, byCase));
    forall i, j | 0 <= i < |kept| && 0 <= j < |package| ensures primary(kept[i]) != primary(package[j]) {
      assert kept[i] in kept;
      LineKeyHasCase(shape, kept[i]);
      LineKeyHasCase(shape, package[j]);
      assert byCase(package[j]) in KeysOf(package, byCase);
    }
    KeepAllOrNothing(kept, primary, KeysOf(package, primary));
  }

  lemma LineKeyHasCase(shape: Shape, e: Entry)
    ensures KeyOf(e.row, LineColumns(shape))[..|CaseColumns(shape)|] == KeyOf(e.row, CaseColumns(shape))
  {
  }

  lemma {:induction false} LinesOfConcat(shape: Shape, a: seq<WideEntry>, b: seq<WideEntry>)
    ensures LinesAll(shape, a + b) == LinesAll(shape, a) + LinesAll(shape, b)
    decreases |b|
  {
    hide Lines;
    if b == [] {
      assert a + b == a;
    } else {
      assert (a + b)[..|a + b| - 1] == a + b[..|b| - 1];
      LinesOfConcat(shape, a, b[..|b| - 1]);
    }
  }

  // ---------------------------------------------------------------- whole histories

  /** Every successful load of a Binding's resource, as the landing table sees it. */
  function Landed(shape: Shape, history: seq<seq<WideEntry>>): seq<Entry> {
    if history == [] then []
    else
      DeleteInsert(Landed(shape, history[..|history| - 1]), LongAll(shape, history[|history| - 1]),
                   Hints(shape.primaryKey, Some(shape.spec)))
  }

  /** The same history, as the wide table sees it. */
  function Meant(shape: Shape, history: seq<seq<WideEntry>>): seq<WideEntry> {
    if history == [] then []
    else WideMerge(shape, Meant(shape, history[..|history| - 1]), history[|history| - 1])
  }

  lemma MergedFit(shape: Shape, table: seq<WideEntry>, package: seq<WideEntry>)
    requires AllFit(shape, table) && AllFit(shape, package)
    ensures AllFit(shape, WideMerge(shape, table, package))
  {
    var gone := KeysOf(package, ByCase(shape));
    KeepElements(table, ByCase(shape), gone);
    FreshIsUnique(package, ByCase(shape), {});
    var merged := WideMerge(shape, table, package);
    forall i | 0 <= i < |merged| ensures Fit(shape, merged[i]) {
      assert merged[i] in Keep(table, ByCase(shape), gone) || merged[i] in Fresh(package, ByCase(shape), {});
      if w :| 0 <= w < |table| && table[w] == merged[i] {
      } else {
        assert merged[i] in package;
      }
    }
  }

  /** Unpivot commutes with merge, over whole load histories: the landing table is the unpivot of the
      wide table, row for row. */
  lemma {:induction false} UnpivotCommutesWithMerge(shape: Shape, history: seq<seq<WideEntry>>)
    requires forall i :: 0 <= i < |history| ==> AllFit(shape, history[i]) && RepeatsAddNothing(shape, history[i])
    ensures AllFit(shape, Meant(shape, history))
    ensures Landed(shape, history) == LinesAll(shape, Meant(shape, history))
  {
    if history != [] {
      var n := |history| - 1;
      UnpivotCommutesWithMerge(shape, history[..n]);
      MergedFit(shape, Meant(shape, history[..n]), history[n]);
      LoadSquare(shape, Meant(shape, history[..n]), history[n]);
    }
  }

  lemma {:induction false} LandedLinesAreUnique(shape: Shape, history: seq<seq<WideEntry>>)
    ensures Unique(Landed(shape, history), ByColumns(LineColumns(shape)))
  {
    if history != [] {
      var n := |history| - 1;
      LandedLinesAreUnique(shape, history[..n]);
      var hints := Hints(shape.primaryKey, Some(shape.spec));
      LoadsKeepPrimaryKeysUnique(Landed(shape, history[..n]), LongAll(shape, history[n]), hints);
    }
  }

  function OneCase(shape: Shape, table: seq<Entry>, c: Key): seq<Entry> {
    if table == [] then []
    else
      var last := table[|table| - 1];
      OneCase(shape, table[..|table| - 1], c) + if KeyOf(last.row, CaseColumns(shape)) == c then [last] else []
  }

  lemma {:induction false} OneCaseConcat(shape: Shape, a: seq<Entry>, b: seq<Entry>, c: Key)
    ensures OneCase(shape, a + b, c) == OneCase(shape, a, c) + OneCase(shape, b, c)
    decreases |b|
  {
    if b == [] {
      assert a + b == a;
    } else {
      assert (a + b)[..|a + b| - 1] == a + b[..|b| - 1];
      OneCaseConcat(shape, a, b[..|b| - 1], c);
    }
  }

  lemma {:induction false} OneCaseOfKept(shape: Shape, table: seq<Entry>, gone: set<Key>, c: Key)
    ensures OneCase(shape, Keep(table, ByColumns(CaseColumns(shape)), gone), c)
         == if c in gone then [] else OneCase(shape, table, c)
  {
    if table != [] {
      var init, last := table[..|table| - 1], table[|table| - 1];
      OneCaseOfKept(shape, init, gone, c);
      var more := if KeyOf(last.row, CaseColumns(shape)) in gone then [] else [last];
      OneCaseConcat(shape, Keep(init, ByColumns(CaseColumns(shape)), gone), more, c);
      OneCaseAllOrNothing(shape, more, c);
    }
  }

  lemma {:induction false} OneCaseAllOrNothing(shape: Shape, rows: seq<Entry>, c: Key)
    ensures (forall i :: 0 <= i < |rows| ==> KeyOf(rows[i].row, CaseColumns(shape)) == c) ==>
              OneCase(shape, rows, c) == rows
    ensures (forall i :: 0 <= i < |rows| ==> KeyOf(rows[i].row, CaseColumns(shape)) != c) ==>
              OneCase(shape, rows, c) == []
  {
    hide KeyOf, CaseColumns;
    if rows != [] {
      var init, last := rows[..|rows| - 1], rows[|rows| - 1];
      assert forall i :: 0 <= i < |init| ==> init[i] == rows[i];
      OneCaseAllOrNothing(shape, init, c);
      assert OneCase(shape, rows, c)
          == OneCase(shape, init, c) + if KeyOf(last.row, CaseColumns(shape)) == c then [last] else [];
      hide OneCase;
      assert rows == init + [last];
    }
  }

  /** A load leaves every case it does not carry as it was: another case of this Binding, or any case of
      another Binding. */
  lemma OtherCasesUntouched(shape: Shape, table: seq<Entry>, package: seq<WideEntry>, c: Key)
    requires AllFit(shape, package) && c !in KeysOf(package, ByCase(shape))
    ensures OneCase(shape, DeleteInsert(table, LongAll(shape, package), Hints(shape.primaryKey, Some(shape.spec))), c)
         == OneCase(shape, table, c)
  {
    var byCase, primary, long := ByColumns(CaseColumns(shape)), ByColumns(LineColumns(shape)), LongAll(shape, package);
    CasesOfLong(shape, package);
    KeepLosesNothingMore(shape, table, long);
    OneCaseOfKept(shape, table, KeysOf(long, byCase), c);
    NoLinesOfOtherCases(shape, package, c);
    OneCaseConcat(shape, Keep(table, byCase, KeysOf(long, byCase)), Fresh(long, primary, {}), c);
  }

  /** A case a load carries once is afterwards exactly its own lines, at least one of them: a cleared stage
      is gone, and a case with every stage cleared still replaces what it had. */
  lemma SentCaseIsReplaced(shape: Shape, table: seq<Entry>, package: seq<WideEntry>, n: nat)
    requires AllFit(shape, package) && n < |package|
    requires forall i :: 0 <= i < |package| && i != n ==> CaseOf(shape, package[i]) != CaseOf(shape, package[n])
    ensures var after := DeleteInsert(table, LongAll(shape, package), Hints(shape.primaryKey, Some(shape.spec)));
            OneCase(shape, after, CaseOf(shape, package[n])) == Lines(shape, package[n]) != []
  {
    var byCase, primary, long := ByColumns(CaseColumns(shape)), ByColumns(LineColumns(shape)), LongAll(shape, package);
    var c := CaseOf(shape, package[n]);
    CasesOfLong(shape, package);
    assert ByCase(shape)(package[n]) in KeysOf(package, ByCase(shape));
    KeepLosesNothingMore(shape, table, long);
    OneCaseOfKept(shape, table, KeysOf(long, byCase), c);
    LinesKeepCase(shape, package[n]);
    FreshOneCase(shape, package, n);
    OneCaseConcat(shape, Keep(table, byCase, KeysOf(long, byCase)), Fresh(long, primary, {}), c);
  }

  /** What each row adds to a case's landed lines: its own lines, or nothing. */
  lemma OneCaseOfLater(shape: Shape, w: WideEntry, seen: set<Key>, c: Key)
    requires Fit(shape, w)
    ensures CaseOf(shape, w) != c ==>
              OneCase(shape, Fresh(Long(shape, w), ByColumns(LineColumns(shape)), seen), c) == []
    ensures CaseOf(shape, w) == c ==>
              OneCase(shape, Fresh(Long(shape, w), ByColumns(LineColumns(shape)), seen), c)
                == Fresh(Long(shape, w), ByColumns(LineColumns(shape)), seen)
  {
    LongKeepsCase(shape, w);
    hide Long, Fit, LineColumns, CaseColumns, CaseOf;
    FreshIsUnique(Long(shape, w), ByColumns(LineColumns(shape)), seen);
    var more := Fresh(Long(shape, w), ByColumns(LineColumns(shape)), seen);
    assert forall i :: 0 <= i < |more| ==> more[i] in more;
    OneCaseAllOrNothing(shape, more, c);
  }

  lemma NoLinesOfOtherCases(shape: Shape, package: seq<WideEntry>, c: Key)
    requires AllFit(shape, package) && c !in KeysOf(package, ByCase(shape))
    ensures OneCase(shape, Fresh(LongAll(shape, package), ByColumns(LineColumns(shape)), {}), c) == []
  {
    CasesOfLong(shape, package);
    hide Fit, LineColumns, CaseColumns, CaseOf, LongAll;
    var byCase, long := ByColumns(CaseColumns(shape)), LongAll(shape, package);
    FreshIsUnique(long, ByColumns(LineColumns(shape)), {});
    var added := Fresh(long, ByColumns(LineColumns(shape)), {});
    forall i | 0 <= i < |added| ensures KeyOf(added[i].row, CaseColumns(shape)) != c {
      assert added[i] in added;
      var j :| 0 <= j < |long| && long[j] == added[i];
      assert byCase(long[j]) in KeysOf(long, byCase);
    }
    OneCaseAllOrNothing(shape, added, c);
  }

  lemma {:induction false} FreshOneCase(shape: Shape, package: seq<WideEntry>, n: nat)
    requires AllFit(shape, package) && n < |package|
    requires forall i :: 0 <= i < |package| && i != n ==> CaseOf(shape, package[i]) != CaseOf(shape, package[n])
    ensures OneCase(shape, Fresh(LongAll(shape, package), ByColumns(LineColumns(shape)), {}), CaseOf(shape, package[n]))
         == Lines(shape, package[n])
    decreases |package|
  {
    hide Long, Fit, LineColumns, CaseColumns, CaseOf;
    var primary, c := ByColumns(LineColumns(shape)), CaseOf(shape, package[n]);
    var init, last := package[..|package| - 1], package[|package| - 1];
    var front, seen := LongAll(shape, init), KeysOf(LongAll(shape, init), primary);
    FreshConcat(front, Long(shape, last), primary, {});
    assert {} + seen == seen;
    OneCaseConcat(shape, Fresh(front, primary, {}), Fresh(Long(shape, last), primary, seen), c);
    OneCaseOfLater(shape, last, seen, c);
    if n == |package| - 1 {
      assert forall i :: 0 <= i < |init| ==> init[i] == package[i];
      LineKeysOfOtherCases(shape, init, last);
      FreshSeen(Long(shape, last), primary, seen);
      NoLinesOfOtherCases(shape, init, c);
    } else {
      FreshOneCase(shape, init, n);
    }
  }

  // ---------------------------------------------------------------- which stages a sent case has afterwards

  lemma {:induction false} OneCaseElements(shape: Shape, table: seq<Entry>, c: Key)
    ensures forall e :: e in OneCase(shape, table, c) <==> e in table && KeyOf(e.row, CaseColumns(shape)) == c
  {
    hide KeyOf, CaseColumns;
    if table != [] {
      var init, last := table[..|table| - 1], table[|table| - 1];
      OneCaseElements(shape, init, c);
      assert table == init + [last];
    }
  }

  /** A landed line of `stage`: of this load, stamped, with exactly the columns of an unpivoted row. */
  ghost predicate IsLine(shape: Shape, w: WideEntry, stage: string, e: Entry) {
    && e.load == w.load && Cell(e.row, shape.spec.nameTo) == Text(stage)
    && exists row :: IsRowFor(shape.spec, w.wide, stage, row) && e.row == Inject(row, w.binding, w.run)
  }

  lemma NamedStage(shape: Shape, w: WideEntry, stage: string, row: Row)
    requires Fit(shape, w)
    requires IsRowFor(shape.spec, w.wide, stage, row)
    ensures Cell(Inject(row, w.binding, w.run), shape.spec.nameTo) == Text(stage)
  {
    InjectStamps(row, w.binding, w.run);
  }

  lemma LongIs(shape: Shape, w: WideEntry)
    requires Unpivot(shape.spec, w.wide).Some?
    ensures var rows, long := Unpivot(shape.spec, w.wide).value, Long(shape, w);
            && |long| == |rows|
            && forall k :: 0 <= k < |rows| ==> long[k] == Entry(Inject(rows[k], w.binding, w.run), w.load)
  {
    hide Unpivot, Inject;
  }

  lemma PickedLands(spec: Spec, wide: WideRow, at: seq<nat>, k: nat)
    requires Indexes(at, Listing(spec, wide), c => Lands(spec, wide, c)) && k < |at|
    ensures at[k] < |Listing(spec, wide)| && Lands(spec, wide, Listing(spec, wide)[at[k]])
  {
    hide Lands;
    assert at[k] in at;
  }

  lemma LandsPicked(spec: Spec, wide: WideRow, at: seq<nat>, stage: string) returns (k: nat)
    requires Indexes(at, Listing(spec, wide), c => Lands(spec, wide, c)) && Lands(spec, wide, stage)
    ensures k < |at| && at[k] < |Listing(spec, wide)| && Listing(spec, wide)[at[k]] == stage
  {
    StageIsListed(spec, wide, stage);
    hide Lands;
    var i: nat :| i < |Listing(spec, wide)| && Listing(spec, wide)[i] == stage;
    k :| 0 <= k < |at| && at[k] == i;
  }

  /** The lines of a wide row are those of the stages that land. */
  lemma LongStages(shape: Shape, w: WideEntry)
    requires Fit(shape, w)
    ensures forall e :: e in Long(shape, w) ==>
              exists stage :: Lands(shape.spec, w.wide, stage) && IsLine(shape, w, stage, e)
    ensures forall stage :: Lands(shape.spec, w.wide, stage) ==>
              exists e :: e in Long(shape, w) && Cell(e.row, shape.spec.nameTo) == Text(stage)
  {
    var at := UnpivotRows(shape.spec, w.wide);
    LongIs(shape, w);
    assert Unpivot(shape.spec, w.wide).Some?;
    hide Fit, Unpivot, Long, Inject, IsRowFor, Lands, Indexes, Listing;
    var rows, listing, long := Unpivot(shape.spec, w.wide).value, Listing(shape.spec, w.wide), Long(shape, w);
    forall k | 0 <= k < |rows|
      ensures at[k] < |listing| && Lands(shape.spec, w.wide, listing[at[k]])
      ensures IsLine(shape, w, listing[at[k]], long[k])
    {
      PickedLands(shape.spec, w.wide, at, k);
      NamedStage(shape, w, listing[at[k]], rows[k]);
    }
    forall stage | Lands(shape.spec, w.wide, stage)
      ensures exists e :: e in long && Cell(e.row, shape.spec.nameTo) == Text(stage)
    {
      var k := LandsPicked(shape.spec, w.wide, at, stage);
      assert long[k] in long;
    }
  }

  lemma StageIsListed(spec: Spec, wide: WideRow, stage: string)
    requires Lands(spec, wide, stage)
    ensures stage in Listing(spec, wide)
  {
  }

  /** End to end: a case a load carries once has afterwards one line for each stage that lands and no other, each with
      exactly the columns of its unpivoted row, this Run's stamps and this load. */
  lemma SentCaseHasItsStages(shape: Shape, table: seq<Entry>, package: seq<WideEntry>, n: nat, stage: string)
    requires AllFit(shape, package) && n < |package|
    requires forall i :: 0 <= i < |package| && i != n ==> CaseOf(shape, package[i]) != CaseOf(shape, package[n])
    ensures var w, case0 := package[n], CaseOf(shape, package[n]);
            var after := DeleteInsert(table, LongAll(shape, package), Hints(shape.primaryKey, Some(shape.spec)));
            && (forall e :: e in after && KeyOf(e.row, CaseColumns(shape)) == case0 ==>
                  exists s :: Lands(shape.spec, w.wide, s) && IsLine(shape, w, s, e))
            && (Lands(shape.spec, w.wide, stage) ==>
                  exists e :: e in after && KeyOf(e.row, CaseColumns(shape)) == case0
                    && Cell(e.row, shape.spec.nameTo) == Text(stage))
  {
    var w := package[n];
    var after := DeleteInsert(table, LongAll(shape, package), Hints(shape.primaryKey, Some(shape.spec)));
    SentCaseIsReplaced(shape, table, package, n);
    OneCaseElements(shape, after, CaseOf(shape, w));
    LinesKeepCase(shape, w);
    LongStages(shape, w);
    if Lands(shape.spec, w.wide, stage) { var e := LineOfStage(shape, w, stage); }
    hide DeleteInsert, LongAll, Lines, Long, OneCase, KeyOf, CaseColumns, CaseOf, Lands, IsLine, Fit, Hints;
  }

  lemma SameStage(shape: Shape, w: WideEntry, a: Entry, b: Entry)
    requires Fit(shape, w) && a in Long(shape, w) && b in Long(shape, w)
    requires ByColumns(LineColumns(shape))(a) == ByColumns(LineColumns(shape))(b)
    ensures Cell(a.row, shape.spec.nameTo) == Cell(b.row, shape.spec.nameTo)
  {
    LongKeepsCase(shape, w);
    hide Fit, Long, KeyOf, CaseOf, CaseColumns, LineColumns, Cell;
    SplitsAlike(CaseOf(shape, w), Cell(a.row, shape.spec.nameTo), CaseOf(shape, w), Cell(b.row, shape.spec.nameTo));
  }

  lemma RowWithKey<T>(rows: seq<T>, key: T -> Key, k: Key) returns (row: T)
    requires k in KeysOf(rows, key)
    ensures row in rows && key(row) == k
  {
    var i :| 0 <= i < |rows| && key(rows[i]) == k;
    row := rows[i];
  }

  lemma KeyOfRow<T>(rows: seq<T>, key: T -> Key, row: T)
    requires row in rows
    ensures key(row) in KeysOf(rows, key)
  {
    var i :| 0 <= i < |rows| && rows[i] == row;
  }

  /** Keeping the first line of each stage keeps one of every stage. */
  lemma LineOfStage(shape: Shape, w: WideEntry, stage: string) returns (e: Entry)
    requires Fit(shape, w) && Lands(shape.spec, w.wide, stage)
    ensures e in Lines(shape, w) && Cell(e.row, shape.spec.nameTo) == Text(stage)
  {
    hide Fit, Long, Lines, KeyOf, CaseOf, CaseColumns, LineColumns, Lands, ByColumns, KeysOf, Cell;
    LongStages(shape, w);
    LinesKeepCase(shape, w);
    var line := ByColumns(LineColumns(shape));
    var long: Entry :| long in Long(shape, w) && Cell(long.row, shape.spec.nameTo) == Text(stage);
    KeyOfRow(Long(shape, w), line, long);
    e := RowWithKey(Lines(shape, w), line, line(long));
    SameStage(shape, w, e, long);
  }
}
