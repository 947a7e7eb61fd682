/** From a range or a trimmed sheet to landing records.
    (django_connectors/providers/google/sheets.py rows_from_values,
    django_connectors/providers/microsoft/excel.py sheet_records) */
module SheetRecords {
  import opened Sequences
  import opened Values
  import opened Headers

  /** Header cells as text; `text` is Python's `str`. */
  function HeaderTexts(cells: seq<Value>, text: Value -> string): seq<Option<string>> {
    seq(|cells|, i requires 0 <= i < |cells| => if cells[i].Null? then None else Some(text(cells[i])))
  }

  /** `columns` are the names these header cells give, left to right: each the first of its own that neither a column
      before it nor the reserved names have. Cells without text, and columns past the header, count as unnamed. */
  ghost predicate NamedBy(cells: seq<Value>, text: Value -> string, identify: string -> string, reserved: set<string>,
                          columns: seq<string>)
  {
    exists header ::
      && |header| == |cells|
      && (forall i :: 0 <= i < |cells| ==>
            if cells[i].Null? then header[i] == None else header[i] == Some(text(cells[i])))
      && Named(header, identify, reserved, columns)
  }

  lemma NamesAre(cells: seq<Value>, text: Value -> string, identify: string -> string, reserved: set<string>,
                 columns: seq<string>)
    requires Named(HeaderTexts(cells, text), identify, reserved, columns)
    ensures NamedBy(cells, text, identify, reserved, columns)
  {
    hide Named;
  }

  lemma NoNames(text: Value -> string, identify: string -> string, reserved: set<string>, columns: seq<string>)
    requires Named([], identify, reserved, columns)
    ensures NamedBy([], text, identify, reserved, columns)
  {
    hide Named;
    assert HeaderTexts([], text) == [];
    NamesAre([], text, identify, reserved, columns);
  }

  predicate StrictlyIncreasing(picked: seq<nat>) { forall i, j :: 0 <= i < j < |picked| ==> picked[i] < picked[j] }

  predicate BlankCells(row: seq<Value>, columns: seq<string>) {
    forall i :: 0 <= i < |columns| ==> CellAt(row, i) == Null
  }

  /** The record of one data row: every cell under its own column, next to the row number. */
  predicate IsRecord(record: Row, row: seq<Value>, columns: seq<string>, rowNumber: nat) {
    && record.Keys == {ROW_NUMBER_COLUMN} + Elements(columns)
    && record[ROW_NUMBER_COLUMN] == Int(rowNumber)
    && forall i :: 0 <= i < |columns| ==> record[columns[i]] == CellAt(row, i)
  }

  /** The key cell of a row, when there is a key column. */
  predicate Keyless(row: seq<Value>, columns: seq<string>, key: Option<string>) {
    key.Some? && exists i :: 0 <= i < |columns| && columns[i] == key.value && CellAt(row, i).Null?
  }

  datatype RangeError = UnknownKeyColumn | KeylessRow(rowNumber: nat)

  datatype RangeSpec = RangeSpec(headerRow: bool, key: Option<string>, skipKeyless: bool)

  function DataRows(values: seq<seq<Value>>, spec: RangeSpec): seq<seq<Value>> {
    if spec.headerRow && values != [] then values[1..] else values
  }

  function FirstRowNumber(spec: RangeSpec): nat { if spec.headerRow then 2 else 1 }

  method Width(values: seq<seq<Value>>) returns (width: nat)
    ensures forall i :: 0 <= i < |values| ==> |values[i]| <= width
    ensures values == [] ==> width == 0
    ensures values != [] ==> exists i :: 0 <= i < |values| && |values[i]| == width
  {
    width := 0;
    for i := 0 to |values|
      invariant forall k :: 0 <= k < i ==> |values[k]| <= width
      invariant i == 0 ==> width == 0
      invariant i > 0 ==> exists k :: 0 <= k < i && |values[k]| == width
    {
      if |values[i]| > width || i == 0 {
        width := |values[i]|;
      }
    }
  }

  /** A row that becomes no record: blank, or without its key where that is let pass. */
  predicate PassedOver(row: seq<Value>, columns: seq<string>, spec: RangeSpec) {
    BlankCells(row, columns) || (spec.skipKeyless && Keyless(row, columns, spec.key))
  }

  /** Of the first `n` rows, `records` are those of the rows `picked`, in order; the rest are passed over. */
  ghost predicate Picks(data: seq<seq<Value>>, n: nat, columns: seq<string>, spec: RangeSpec, records: seq<Row>,
                        picked: seq<nat>)
  {
    && n <= |data| && |picked| == |records| && StrictlyIncreasing(picked)
    && (forall i :: 0 <= i < |picked| ==> picked[i] < n)
    && (forall i :: 0 <= i < |picked| ==>
          && IsRecord(records[i], data[picked[i]], columns, FirstRowNumber(spec) + picked[i])
          && !BlankCells(data[picked[i]], columns) && !Keyless(data[picked[i]], columns, spec.key))
    && (forall k :: 0 <= k < n && k !in picked ==> PassedOver(data[k], columns, spec))
  }

  lemma NothingPicked(data: seq<seq<Value>>, columns: seq<string>, spec: RangeSpec)
    ensures Picks(data, 0, columns, spec, [], [])
  {
  }

  lemma PassOver(data: seq<seq<Value>>, n: nat, columns: seq<string>, spec: RangeSpec, records: seq<Row>,
                 picked: seq<nat>)
    requires Picks(data, n, columns, spec, records, picked) && n < |data| && PassedOver(data[n], columns, spec)
    ensures Picks(data, n + 1, columns, spec, records, picked)
  {
  }

  lemma PickOne(data: seq<seq<Value>>, n: nat, columns: seq<string>, spec: RangeSpec, records: seq<Row>,
                picked: seq<nat>, record: Row)
    requires Picks(data, n, columns, spec, records, picked) && n < |data|
    requires IsRecord(record, data[n], columns, FirstRowNumber(spec) + n)
    requires !BlankCells(data[n], columns) && !Keyless(data[n], columns, spec.key)
    ensures Picks(data, n + 1, columns, spec, records + [record], picked + [n])
  {
    hide IsRecord, Keyless, PassedOver, BlankCells;
    var more := picked + [n];
    assert more[|picked|] == n && forall i :: 0 <= i < |picked| ==> more[i] == picked[i];
    assert forall k :: k in picked ==> k in more;
    assert n in more;
  }

  /** Some row of the range that is not blank has no key. */
  ghost predicate SomeKeyless(data: seq<seq<Value>>, columns: seq<string>, spec: RangeSpec) {
    exists k :: KeylessAt(data, columns, spec, k)
  }

  predicate KeylessAt(data: seq<seq<Value>>, columns: seq<string>, spec: RangeSpec, k: int) {
    0 <= k < |data| && Keyless(data[k], columns, spec.key) && !BlankCells(data[k], columns)
  }

  /** Row `k` is the one to report: the first that is not blank and has no key. */
  ghost predicate FirstKeyless(data: seq<seq<Value>>, columns: seq<string>, spec: RangeSpec, k: int) {
    KeylessAt(data, columns, spec, k) && forall m :: 0 <= m < k ==> !KeylessAt(data, columns, spec, m)
  }

  datatype RowStep = Emitted(record: Row) | Passed | Refused

  /** What one data row becomes. */
  method ReadRow(row: seq<Value>, columns: seq<string>, rowNumber: nat, spec: RangeSpec) returns (step: RowStep)
    requires forall i, j :: 0 <= i < j < |columns| ==> columns[i] != columns[j]
    requires ROW_NUMBER_COLUMN !in columns && (spec.key.Some? ==> spec.key.value in columns)
    ensures step.Emitted? <==> !BlankCells(row, columns) && !Keyless(row, columns, spec.key)
    ensures step.Emitted? ==> IsRecord(step.record, row, columns, rowNumber)
    ensures step.Passed? <==> PassedOver(row, columns, spec)
    ensures step.Refused? <==> !spec.skipKeyless && Keyless(row, columns, spec.key) && !BlankCells(row, columns)
  {
    var record := RowRecord(row, columns, rowNumber);
    if record.None? {
      return Passed;
    }
    if spec.key.Some? && record.value[spec.key.value].Null? {
      step := if spec.skipKeyless then Passed else Refused;
    } else {
      step := Emitted(record.value);
    }
  }

  /** `records` are those of the lines `lines` of the sheet, counted from one as it shows them: every line below the
      header that is neither blank nor keyless. */
  ghost predicate ReadsLines(values: seq<seq<Value>>, columns: seq<string>, spec: RangeSpec, records: seq<Row>,
                             lines: seq<nat>)
  {
    && StrictlyIncreasing(lines)
    && AreRecordsOf(values, columns, records, lines)
    && ExactlyTheLines(values, columns, spec, lines)
  }

  ghost predicate AreRecordsOf(values: seq<seq<Value>>, columns: seq<string>, records: seq<Row>, lines: seq<nat>) {
    && |lines| == |records|
    && forall i :: 0 <= i < |lines| ==>
         0 < lines[i] <= |values| && IsRecord(records[i], values[lines[i] - 1], columns, lines[i])
  }

  ghost predicate ExactlyTheLines(values: seq<seq<Value>>, columns: seq<string>, spec: RangeSpec, lines: seq<nat>) {
    forall n: nat :: n in lines <==> ReadsLine(values, columns, spec, n)
  }

  /** Line `n` is below the header and neither blank nor keyless. */
  predicate ReadsLine(values: seq<seq<Value>>, columns: seq<string>, spec: RangeSpec, n: nat) {
    && (if spec.headerRow then 1 else 0) < n <= |values|
    && !BlankCells(values[n - 1], columns) && !Keyless(values[n - 1], columns, spec.key)
  }

  /** Line `n` has cells but not its key. */
  ghost predicate KeylessLine(values: seq<seq<Value>>, columns: seq<string>, spec: RangeSpec, n: int) {
    && (if spec.headerRow then 1 else 0) < n <= |values|
    && Keyless(values[n - 1], columns, spec.key) && !BlankCells(values[n - 1], columns)
  }

  lemma KeylessLineIs(values: seq<seq<Value>>, columns: seq<string>, spec: RangeSpec, n: int)
    requires values != []
    ensures KeylessLine(values, columns, spec, n)
       <==> KeylessAt(DataRows(values, spec), columns, spec, n - FirstRowNumber(spec))
  {
    hide Keyless, BlankCells;
  }

  function Numbered(picked: seq<nat>, first: nat): (lines: seq<nat>)
    ensures |lines| == |picked| && forall i :: 0 <= i < |picked| ==> lines[i] == picked[i] + first
  {
    seq(|picked|, i requires 0 <= i < |picked| => picked[i] + first)
  }

  lemma NumberedHolds(picked: seq<nat>, first: nat, n: nat)
    ensures n in Numbered(picked, first) <==> n >= first && n - first in picked
  {
    if n >= first && n - first in picked {
      var i :| 0 <= i < |picked| && picked[i] == n - first;
      assert Numbered(picked, first)[i] == n;
    }
  }

  /** A row of the data is picked exactly when it is neither blank nor keyless. */
  lemma PickedIff(data: seq<seq<Value>>, columns: seq<string>, spec: RangeSpec, records: seq<Row>, picked: seq<nat>,
                  k: nat)
    requires Picks(data, |data|, columns, spec, records, picked)
    requires spec.skipKeyless || !SomeKeyless(data, columns, spec)
    ensures k in picked <==>
            k < |data| && !BlankCells(data[k], columns) && !Keyless(data[k], columns, spec.key)
  {
    hide IsRecord, Keyless, BlankCells;
    assert KeylessAt(data, columns, spec, k) ==> SomeKeyless(data, columns, spec);
  }

  lemma DataAreLines(values: seq<seq<Value>>, spec: RangeSpec, k: nat)
    requires values != []
    ensures k < |DataRows(values, spec)| <==> k + FirstRowNumber(spec) <= |values|
    ensures k < |DataRows(values, spec)| ==> DataRows(values, spec)[k] == values[k + FirstRowNumber(spec) - 1]
  {
  }

  lemma LineIff(values: seq<seq<Value>>, columns: seq<string>, spec: RangeSpec, records: seq<Row>, picked: seq<nat>,
                n: nat)
    requires values != []
    requires Picks(DataRows(values, spec), |DataRows(values, spec)|, columns, spec, records, picked)
    requires spec.skipKeyless || !SomeKeyless(DataRows(values, spec), columns, spec)
    ensures n in Numbered(picked, FirstRowNumber(spec)) <==> ReadsLine(values, columns, spec, n)
  {
    hide Picks, BlankCells, Keyless, SomeKeyless, DataRows, Numbered;
    var first := FirstRowNumber(spec);
    NumberedHolds(picked, first, n);
    if n >= first {
      PickedIff(DataRows(values, spec), columns, spec, records, picked, n - first);
      DataAreLines(values, spec, n - first);
    }
  }

  lemma LineRecords(values: seq<seq<Value>>, columns: seq<string>, spec: RangeSpec, records: seq<Row>,
                    picked: seq<nat>, i: nat)
    requires values != [] && i < |picked|
    requires Picks(DataRows(values, spec), |DataRows(values, spec)|, columns, spec, records, picked)
    ensures var n := Numbered(picked, FirstRowNumber(spec))[i];
            |picked| == |records| && 0 < n <= |values| && IsRecord(records[i], values[n - 1], columns, n)
  {
    hide IsRecord, BlankCells, Keyless, DataRows, PassedOver;
    DataAreLines(values, spec, picked[i]);
  }

  lemma PicksAreLines(values: seq<seq<Value>>, columns: seq<string>, spec: RangeSpec, records: seq<Row>,
                      picked: seq<nat>)
    requires values != []
    requires Picks(DataRows(values, spec), |DataRows(values, spec)|, columns, spec, records, picked)
    requires spec.skipKeyless || !SomeKeyless(DataRows(values, spec), columns, spec)
    ensures ReadsLines(values, columns, spec, records, Numbered(picked, FirstRowNumber(spec)))
  {
    hide Picks, SomeKeyless, DataRows, FirstRowNumber, Numbered, StrictlyIncreasing, AreRecordsOf, ExactlyTheLines;
    PickedInOrder(DataRows(values, spec), columns, spec, records, picked);
    AllRecords(values, columns, spec, records, picked);
    AllLines(values, columns, spec, records, picked);
  }

  lemma AllRecords(values: seq<seq<Value>>, columns: seq<string>, spec: RangeSpec, records: seq<Row>,
                   picked: seq<nat>)
    requires values != []
    requires Picks(DataRows(values, spec), |DataRows(values, spec)|, columns, spec, records, picked)
    ensures AreRecordsOf(values, columns, records, Numbered(picked, FirstRowNumber(spec)))
  {
    hide Picks, IsRecord, DataRows, FirstRowNumber, StrictlyIncreasing;
    PickedInOrder(DataRows(values, spec), columns, spec, records, picked);
    var first := FirstRowNumber(spec);
    var lines := Numbered(picked, first);
    forall i | 0 <= i < |lines|
      ensures 0 < lines[i] <= |values| && IsRecord(records[i], values[lines[i] - 1], columns, lines[i])
    {
      LineRecords(values, columns, spec, records, picked, i);
    }
  }

  lemma AllLines(values: seq<seq<Value>>, columns: seq<string>, spec: RangeSpec, records: seq<Row>, picked: seq<nat>)
    requires values != []
    requires Picks(DataRows(values, spec), |DataRows(values, spec)|, columns, spec, records, picked)
    requires spec.skipKeyless || !SomeKeyless(DataRows(values, spec), columns, spec)
    ensures ExactlyTheLines(values, columns, spec, Numbered(picked, FirstRowNumber(spec)))
  {
    hide Picks, SomeKeyless, DataRows, ReadsLine, FirstRowNumber, Numbered;
    forall n: nat
      ensures n in Numbered(picked, FirstRowNumber(spec)) <==> ReadsLine(values, columns, spec, n)
    {
      LineIff(values, columns, spec, records, picked, n);
    }
  }

  lemma PickedInOrder(data: seq<seq<Value>>, columns: seq<string>, spec: RangeSpec, records: seq<Row>,
                      picked: seq<nat>)
    requires Picks(data, |data|, columns, spec, records, picked)
    ensures |picked| == |records| && StrictlyIncreasing(Numbered(picked, FirstRowNumber(spec)))
  {
    hide IsRecord, BlankCells, Keyless, PassedOver;
  }

  /** The records of a range: one for each line below the header that is neither blank nor keyless, in order, each
      holding every cell of its line and the number the sheet shows for it. A line without its key is an error, at the
      first of them, unless it may be skipped. */
  method RowsFromValues(values: seq<seq<Value>>, spec: RangeSpec, text: Value -> string, identify: string -> string)
    returns (records: Result<seq<Row>, RangeError>, ghost columns: seq<string>, ghost lines: seq<nat>)
    ensures values == [] ==> records == Ok([])
    ensures Distinct(columns) && forall k :: 0 <= k < |values| ==> |values[k]| <= |columns|
    ensures values != [] ==>
              && NamedBy(if spec.headerRow then values[0] else [], text, identify, {ROW_NUMBER_COLUMN}, columns)
              && exists k :: 0 <= k < |values| && |values[k]| == |columns|
    ensures records == Err(UnknownKeyColumn) <==> values != [] && spec.key.Some? && spec.key.value !in columns
    ensures records.Err? && records.error.KeylessRow? ==>
              && !spec.skipKeyless && KeylessLine(values, columns, spec, records.error.rowNumber)
              && forall n :: n < records.error.rowNumber ==> !KeylessLine(values, columns, spec, n)
    ensures records.Ok? ==> spec.skipKeyless || forall n :: !KeylessLine(values, columns, spec, n)
    ensures records.Ok? ==> ReadsLines(values, columns, spec, records.value, lines)
  {
    columns, lines := [], [];
    if values == [] {
      return Ok([]), [], [];
    }
    var width := Width(values);
    var header := if spec.headerRow then HeaderTexts(values[0], text) else [];
    var names := HeaderColumns(header, identify, {ROW_NUMBER_COLUMN}, width);
    columns := names;
    if spec.headerRow {
      NamesAre(values[0], text, identify, {ROW_NUMBER_COLUMN}, names);
    } else {
      NoNames(text, identify, {ROW_NUMBER_COLUMN}, names);
    }
    if spec.key.Some? && spec.key.value !in names {
      return Err(UnknownKeyColumn), columns, [];
    }
    ghost var picked;
    records, picked := RowsUnder(DataRows(values, spec), names, spec);
    forall n
      ensures KeylessLine(values, columns, spec, n)
         <==> KeylessAt(DataRows(values, spec), columns, spec, n - FirstRowNumber(spec))
    {
      KeylessLineIs(values, columns, spec, n);
    }
    hide Named, Picks, KeylessAt, ReadsLines, Keyless, BlankCells, NamedBy, DataRows;
    if records.Ok? {
      PicksAreLines(values, columns, spec, records.value, picked);
      lines := Numbered(picked, FirstRowNumber(spec));
    }
  }

  /** The data rows of a range under its columns. */
  method RowsUnder(data: seq<seq<Value>>, columns: seq<string>, spec: RangeSpec)
    returns (records: Result<seq<Row>, RangeError>, ghost picked: seq<nat>)
    requires forall i, j :: 0 <= i < j < |columns| ==> columns[i] != columns[j]
    requires ROW_NUMBER_COLUMN !in columns && (spec.key.Some? ==> spec.key.value in columns)
    ensures records.Err? ==>
              && records.error.KeylessRow? && !spec.skipKeyless
              && FirstKeyless(data, columns, spec, records.error.rowNumber - FirstRowNumber(spec))
    ensures records.Ok? ==> spec.skipKeyless || !SomeKeyless(data, columns, spec)
    ensures records.Ok? ==> Picks(data, |data|, columns, spec, records.value, picked)
  {
    hide Picks, IsRecord, Keyless, BlankCells, PassedOver;
    var out: seq<Row> := [];
    picked := [];
    NothingPicked(data, columns, spec);
    for k := 0 to |data|
      invariant Picks(data, k, columns, spec, out, picked)
      invariant spec.skipKeyless || forall m :: 0 <= m < k ==> !KeylessAt(data, columns, spec, m)
    {
      var step := ReadRow(data[k], columns, FirstRowNumber(spec) + k, spec);
      match step
      case Refused =>
        assert KeylessAt(data, columns, spec, k);
        return Err(KeylessRow(FirstRowNumber(spec) + k)), [];
      case Passed =>
        PassOver(data, k, columns, spec, out, picked);
      case Emitted(record) =>
        PickOne(data, k, columns, spec, out, picked, record);
        out, picked := out + [record], picked + [k];
    }
    records := Ok(out);
  }

  // ---------------------------------------------------------------- a trimmed sheet

  datatype SheetRecord = SheetRecord(rowNumber: nat, values: Row)

  datatype HeaderError = NoHeaderRow

  predicate BlankLine(row: seq<Value>) { forall i :: 0 <= i < |row| ==> IsBlank(row[i]) }

  function FirstDataIndex(headerRow: nat, skipRows: nat): nat {
    if headerRow > 0 then headerRow + skipRows else skipRows
  }

  /** The record of a line: every cell under its own column, with the number the sheet shows. */
  predicate IsSheetRecord(record: SheetRecord, grid: seq<seq<Value>>, n: nat, columns: seq<string>)
    requires n < |grid|
  {
    && record.rowNumber == n + 1 && record.values.Keys == Elements(columns) && |grid[n]| == |columns|
    && forall c :: 0 <= c < |columns| ==> record.values[columns[c]] == grid[n][c]
  }

  /** The records of lines `first` to `n`: one for each that is not blank, in order. */
  ghost predicate Lists(grid: seq<seq<Value>>, first: nat, n: nat, columns: seq<string>, records: seq<SheetRecord>,
                        lines: seq<nat>)
  {
    && |lines| == |records| && StrictlyIncreasing(lines)
    && (forall i :: 0 <= i < |lines| ==>
          && first <= lines[i] < n && lines[i] < |grid| && !BlankLine(grid[lines[i]])
          && IsSheetRecord(records[i], grid, lines[i], columns))
    && (forall m :: first <= m < n && m < |grid| && m !in lines ==> BlankLine(grid[m]))
  }

  lemma ListOne(grid: seq<seq<Value>>, first: nat, n: nat, columns: seq<string>, records: seq<SheetRecord>,
                lines: seq<nat>, record: SheetRecord)
    requires Lists(grid, first, n, columns, records, lines) && first <= n < |grid|
    requires !BlankLine(grid[n]) && IsSheetRecord(record, grid, n, columns)
    ensures Lists(grid, first, n + 1, columns, records + [record], lines + [n])
  {
    hide BlankLine, IsSheetRecord;
    var more := lines + [n];
    assert more[|lines|] == n && forall i :: 0 <= i < |lines| ==> more[i] == lines[i];
    assert forall k :: k in lines ==> k in more;
    assert n in more;
  }

  /** The records of a trimmed grid: one for each line after the header that is not blank, numbered as the sheet shows
      it, its cells untouched. Blank lines inside the used range are spacers. */
  method Records(grid: seq<seq<Value>>, width: nat, headerRow: nat, skipRows: nat, text: Value -> string,
                 identify: string -> string)
    returns (records: Result<seq<SheetRecord>, HeaderError>, ghost columns: seq<string>, ghost lines: seq<nat>)
    requires forall i :: 0 <= i < |grid| ==> |grid[i]| == width
    ensures records.Err? <==> grid != [] && headerRow > |grid|
    ensures records.Ok? && grid != [] ==>
              && |columns| == width && Distinct(columns)
              && NamedBy(if headerRow > 0 then grid[headerRow - 1] else [], text, identify, {}, columns)
    ensures records.Ok? ==> Lists(grid, headerRow + skipRows, |grid|, columns, records.value, lines)
  {
    columns, lines := [], [];
    if grid == [] {
      return Ok([]), [], [];
    }
    if headerRow > |grid| {
      return Err(NoHeaderRow), [], [];
    }
    var header := if headerRow > 0 then HeaderTexts(grid[headerRow - 1], text) else [];
    var names := HeaderColumns(header, identify, {}, |grid[0]|);
    columns := names;
    if headerRow > 0 {
      NamesAre(grid[headerRow - 1], text, identify, {}, names);
    } else {
      NoNames(text, identify, {}, names);
    }
    var out;
    out, lines := LinesUnder(grid, names, FirstDataIndex(headerRow, skipRows));
    records := Ok(out);
  }

  /** The lines of a grid from `first` on, under their columns. */
  method LinesUnder(grid: seq<seq<Value>>, columns: seq<string>, first: nat)
    returns (out: seq<SheetRecord>, ghost lines: seq<nat>)
    requires forall i :: 0 <= i < |grid| ==> |grid[i]| == |columns|
    requires forall i, j :: 0 <= i < j < |columns| ==> columns[i] != columns[j]
    ensures Lists(grid, first, |grid|, columns, out, lines)
  {
    hide Lists, BlankLine, IsSheetRecord;
    out, lines := [], [];
    NothingListed(grid, first, columns);
    for n := first to if first <= |grid| then |grid| else first
      invariant Lists(grid, first, n, columns, out, lines)
    {
      var spacer := AllBlank(grid[n]);
      if !spacer {
        var values := Under(grid[n], columns);
        UnderIs(grid, n, columns, values);
        ListOne(grid, first, n, columns, out, lines, SheetRecord(n + 1, values));
        out, lines := out + [SheetRecord(n + 1, values)], lines + [n];
      } else {
        ListNone(grid, first, n, columns, out, lines);
      }
    }
    if first > |grid| { ListedPastTheEnd(grid, first, columns, out, lines); }
  }

  /** `all(is_blank(value) for value in values)` */
  method AllBlank(row: seq<Value>) returns (blank: bool)
    ensures blank == BlankLine(row)
  {
    for i := 0 to |row|
      invariant forall k :: 0 <= k < i ==> IsBlank(row[k])
    {
      if !IsBlank(row[i]) {
        return false;
      }
    }
    blank := true;
  }

  lemma UnderIs(grid: seq<seq<Value>>, n: nat, columns: seq<string>, values: Row)
    requires n < |grid| && |grid[n]| == |columns| && values.Keys == Elements(columns)
    requires forall i :: 0 <= i < |columns| ==> values[columns[i]] == grid[n][i]
    ensures IsSheetRecord(SheetRecord(n + 1, values), grid, n, columns)
  {
  }

  lemma NothingListed(grid: seq<seq<Value>>, first: nat, columns: seq<string>)
    ensures Lists(grid, first, first, columns, [], [])
  {
  }

  lemma ListNone(grid: seq<seq<Value>>, first: nat, n: nat, columns: seq<string>, records: seq<SheetRecord>,
                 lines: seq<nat>)
    requires Lists(grid, first, n, columns, records, lines) && first <= n < |grid| && BlankLine(grid[n])
    ensures Lists(grid, first, n + 1, columns, records, lines)
  {
    hide BlankLine, IsSheetRecord;
  }

  lemma ListedPastTheEnd(grid: seq<seq<Value>>, first: nat, columns: seq<string>, records: seq<SheetRecord>,
                         lines: seq<nat>)
    requires Lists(grid, first, first, columns, records, lines) && first > |grid|
    ensures Lists(grid, first, |grid|, columns, records, lines)
  {
    hide BlankLine, IsSheetRecord;
  }

  /** A row's cells, each under its column. */
  method Under(row: seq<Value>, columns: seq<string>) returns (values: Row)
    requires |row| == |columns| && forall i, j :: 0 <= i < j < |columns| ==> columns[i] != columns[j]
    ensures values.Keys == Elements(columns)
    ensures forall i :: 0 <= i < |columns| ==> values[columns[i]] == row[i]
  {
    values := map[];
    NoElements<string>();
    for i := 0 to |columns|
      invariant values.Keys == Elements(columns[..i])
      invariant forall k :: 0 <= k < i ==> columns[k] in values && values[columns[k]] == row[k]
    {
      ElementsConcat(columns[..i], [columns[i]]);
      OneElement(columns[i]);
      assert columns[..i + 1] == columns[..i] + [columns[i]];
      values := values[columns[i] := row[i]];
    }
    assert columns[..|columns|] == columns;
  }
}
