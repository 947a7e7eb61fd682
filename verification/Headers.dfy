/** Header rows turned into distinct column names, and rows into records under them.
    (django_connectors/providers/google/sheets.py header_columns, row_record;
    django_connectors/providers/microsoft/excel.py column_keys) */
module Headers {
  import opened Sequences
  import opened Values

  const ROW_NUMBER_COLUMN: string := "sheet_row_number"

  // ---------------------------------------------------------------- decimal numerals

  function Digit(n: nat): char
    requires n < 10
  {
    ['0', '1', '2', '3', '4', '5', '6', '7', '8', '9'][n]
  }

  function Decimal(n: nat): string {
    if n < 10 then [Digit(n)] else Decimal(n / 10) + [Digit(n % 10)]
  }

  lemma {:induction false} DecimalInjective(a: nat, b: nat)
    requires Decimal(a) == Decimal(b)
    ensures a == b
  {
    var s := Decimal(a);
    assert s[|s| - 1] == Digit(a % 10) == Digit(b % 10);
    if a >= 10 && b >= 10 {
      assert Decimal(a / 10) == s[..|s| - 1] == Decimal(b / 10);
      DecimalInjective(a / 10, b / 10);
    } else {
      DecimalNonempty(a / 10);
      DecimalNonempty(b / 10);
    }
  }

  lemma DecimalNonempty(n: nat)
    ensures Decimal(n) != []
  {
  }

  /** What a decimal numeral stands for. */
  function Numeral(digits: string): int {
    if digits == "" then 0
    else 10 * Numeral(digits[..|digits| - 1]) + (digits[|digits| - 1] as int - '0' as int)
  }

  lemma {:induction false} DecimalReadsBack(n: nat)
    ensures Numeral(Decimal(n)) == n
  {
    var digits := Decimal(n);
    assert Digit(n % 10) as int - '0' as int == n % 10;
    if n >= 10 {
      DecimalReadsBack(n / 10);
      assert digits[..|digits| - 1] == Decimal(n / 10);
    } else {
      assert digits[..0] == "";
    }
  }

  // ---------------------------------------------------------------- the suffix loop

  /** `base`, `base_2`, `base_3`, ... */
  function Suffixed(base: string, suffix: nat): string {
    if suffix <= 1 then base else base + "_" + Decimal(suffix)
  }

  lemma SuffixedInjective(base: string, a: nat, b: nat)
    requires a >= 1 && b >= 1 && Suffixed(base, a) == Suffixed(base, b)
    ensures a == b
  {
    if a > 1 && b > 1 {
      assert Decimal(a) == Suffixed(base, a)[|base| + 1..] == Decimal(b);
      DecimalInjective(a, b);
    } else {
      assert |Suffixed(base, a)| > |base| <==> a > 1;
    }
  }

  /** The first `n` candidates all taken means at least `n` names are: suffixing never repeats one. */
  lemma {:induction false} TakenNamesCount(base: string, used: set<string>, n: nat)
    requires forall k :: 1 <= k <= n ==> Suffixed(base, k) in used
    ensures |used| >= n
  {
    if n > 0 {
      var last := Suffixed(base, n);
      forall k | 1 <= k <= n - 1 ensures Suffixed(base, k) in used - {last} {
        if Suffixed(base, k) == last { SuffixedInjective(base, k, n); }
      }
      TakenNamesCount(base, used - {last}, n - 1);
    }
  }

  /** The suffix loop: it ends because the names taken are finite, and settles on the first candidate not taken. */
  method FirstFree(base: string, used: set<string>) returns (name: string, ghost suffix: nat)
    ensures name !in used && suffix >= 1 && name == Suffixed(base, suffix)
    ensures forall k :: 1 <= k < suffix ==> Suffixed(base, k) in used
  {
    var n := 1;
    name := base;
    while name in used
      invariant n >= 1 && name == Suffixed(base, n)
      invariant forall k :: 1 <= k < n ==> Suffixed(base, k) in used
      decreases |used| + 1 - n
    {
      TakenNamesCount(base, used, n);
      n := n + 1;
      name := base + "_" + Decimal(n);
    }
    suffix := n;
  }

  // ---------------------------------------------------------------- a whole header row

  /** `str.strip`, over ASCII white space. */
  function Strip(text: string): string {
    if text != "" && WhiteSpace(text[0]) then Strip(text[1..])
    else if text != "" && WhiteSpace(text[|text| - 1]) then Strip(text[..|text| - 1])
    else text
  }

  lemma {:induction false} StripsToNothingIff(text: string)
    ensures Strip(text) == "" <==> Blank(text)
  {
    if text != "" && WhiteSpace(text[0]) {
      StripsToNothingIff(text[1..]);
      assert forall i :: 0 < i < |text| ==> text[1..][i - 1] == text[i];
    } else if text != "" && WhiteSpace(text[|text| - 1]) {
      StripsToNothingIff(text[..|text| - 1]);
    }
  }

  /** `trimmed` is `text` without the white space around it. */
  ghost predicate Trims(text: string, trimmed: string) {
    && (trimmed != "" ==> !WhiteSpace(trimmed[0]) && !WhiteSpace(trimmed[|trimmed| - 1]))
    && exists before, after :: Around(text, before, trimmed, after)
  }

  predicate Around(text: string, before: string, trimmed: string, after: string) {
    Blank(before) && Blank(after) && text == before + trimmed + after
  }

  lemma {:induction false} StripTrims(text: string)
    ensures Trims(text, Strip(text))
  {
    var trimmed := Strip(text);
    if text != "" && WhiteSpace(text[0]) {
      StripTrims(text[1..]);
      var before, after :| Around(text[1..], before, trimmed, after);
      assert Around(text, [text[0]] + before, trimmed, after);
    } else if text != "" && WhiteSpace(text[|text| - 1]) {
      var init, last := text[..|text| - 1], text[|text| - 1];
      StripTrims(init);
      var before, after :| Around(init, before, trimmed, after);
      assert text == before + trimmed + (after + [last]);
      assert Around(text, before, trimmed, after + [last]);
    } else {
      assert Around(text, "", trimmed, "");
    }
  }

  /** A header cell's text, if it has any; `identify` is the naming convention, "" where it has no identifier. */
  function Base(header: seq<Option<string>>, identify: string -> string, index: nat): string {
    var text := if index < |header| && header[index].Some? then Strip(header[index].value) else "";
    var name := if text == "" then "" else identify(text);
    if name == "" then "column_" + Decimal(index + 1) else name
  }

  /** A header cell with text that the convention can name is named by that text, trimmed; any other by its position,
      counted from one. */
  lemma BaseIs(header: seq<Option<string>>, identify: string -> string, index: nat)
    ensures index >= |header| || header[index].None? || Blank(header[index].value) ==>
              Base(header, identify, index) == "column_" + Decimal(index + 1)
    ensures index < |header| && header[index].Some? && !Blank(header[index].value) ==>
              exists trimmed :: Trims(header[index].value, trimmed)
                && Base(header, identify, index)
                   == if identify(trimmed) == "" then "column_" + Decimal(index + 1) else identify(trimmed)
  {
    if index < |header| && header[index].Some? {
      StripsToNothingIff(header[index].value);
      StripTrims(header[index].value);
    }
  }

  /** Each column has the first name of its own that neither a column to its left nor the reserved names have. */
  ghost predicate Named(header: seq<Option<string>>, identify: string -> string, reserved: set<string>,
                        columns: seq<string>)
  {
    forall i :: 0 <= i < |columns|
      ==> TakesFirstFree(Base(header, identify, i), reserved + Elements(columns[..i]), columns[i])
  }

  ghost predicate TakesFirstFree(base: string, used: set<string>, name: string) {
    name !in used && exists n: nat :: IsFirstFree(base, used, name, n)
  }

  ghost predicate IsFirstFree(base: string, used: set<string>, name: string, n: nat) {
    n >= 1 && name == Suffixed(base, n) && forall k :: 1 <= k < n ==> Suffixed(base, k) in used
  }

  lemma FirstFreeIsUnique(base: string, used: set<string>, a: string, b: string)
    requires TakesFirstFree(base, used, a) && TakesFirstFree(base, used, b)
    ensures a == b
  {
    var m: nat :| IsFirstFree(base, used, a, m);
    var n: nat :| IsFirstFree(base, used, b, n);
    assert m < n ==> Suffixed(base, m) in used;
    assert n < m ==> Suffixed(base, n) in used;
  }

  lemma NamedAreDistinct(header: seq<Option<string>>, identify: string -> string, reserved: set<string>,
                         columns: seq<string>, i: nat, j: nat)
    requires Named(header, identify, reserved, columns) && i < j < |columns|
    ensures columns[i] != columns[j] && columns[i] !in reserved && columns[j] !in reserved
  {
    assert TakesFirstFree(Base(header, identify, j), reserved + Elements(columns[..j]), columns[j]);
    assert TakesFirstFree(Base(header, identify, i), reserved + Elements(columns[..i]), columns[i]);
    assert columns[..j][i] in Elements(columns[..j]);
  }

  /** Adding columns on the right never renames one on the left: equal header cells up to a column give equal names. */
  lemma {:induction false} EarlierNamesStay(header: seq<Option<string>>, wider: seq<Option<string>>,
                                            identify: string -> string,
                                            reserved: set<string>, columns: seq<string>, more: seq<string>)
    requires Named(header, identify, reserved, columns) && Named(wider, identify, reserved, more) && |columns| <= |more|
    requires forall i :: 0 <= i < |columns| ==> Base(header, identify, i) == Base(wider, identify, i)
    ensures more[..|columns|] == columns
    decreases |columns|
  {
    hide TakesFirstFree, Base, Elements;
    if columns != [] {
      var n := |columns| - 1;
      assert forall i :: 0 <= i < n ==> columns[..n][..i] == columns[..i] && columns[..n][i] == columns[i];
      EarlierNamesStay(header, wider, identify, reserved, columns[..n], more);
      assert more[..n] == columns[..n];
      assert TakesFirstFree(Base(header, identify, n), reserved + Elements(columns[..n]), columns[n]);
      assert TakesFirstFree(Base(wider, identify, n), reserved + Elements(more[..n]), more[n]);
      FirstFreeIsUnique(Base(header, identify, n), reserved + Elements(columns[..n]), columns[n], more[n]);
      assert more[..n + 1] == more[..n] + [more[n]] && columns == columns[..n] + [columns[n]];
    }
  }

  /** Column names for a range. Google Sheets reserves the row-number column, Excel reserves nothing. */
  method HeaderColumns(header: seq<Option<string>>, identify: string -> string, reserved: set<string>, width: nat)
    returns (columns: seq<string>)
    ensures |columns| == width && Named(header, identify, reserved, columns)
    ensures forall i, j :: 0 <= i < j < width ==> columns[i] != columns[j]
    ensures forall i :: 0 <= i < width ==> columns[i] !in reserved
  {
    var used := reserved;
    columns := [];
    for index := 0 to width
      invariant |columns| == index && used == reserved + Elements(columns)
      invariant Named(header, identify, reserved, columns)
    {
      var candidate := Base(header, identify, index);
      var name, suffix := FirstFree(candidate, used);
      assert IsFirstFree(candidate, used, name, suffix);
      NamedGrows(header, identify, reserved, columns, name);
      used := used + {name};
      columns := columns + [name];
    }
    forall i, j | 0 <= i < j < width ensures columns[i] != columns[j] {
      NamedAreDistinct(header, identify, reserved, columns, i, j);
    }
    assert forall i :: 0 <= i < width ==>
             TakesFirstFree(Base(header, identify, i), reserved + Elements(columns[..i]), columns[i]);
  }

  lemma NamedGrows(header: seq<Option<string>>, identify: string -> string, reserved: set<string>,
                   columns: seq<string>, name: string)
    requires Named(header, identify, reserved, columns)
    requires TakesFirstFree(Base(header, identify, |columns|), reserved + Elements(columns), name)
    ensures Named(header, identify, reserved, columns + [name])
    ensures Elements(columns + [name]) == Elements(columns) + {name}
  {
    var more := columns + [name];
    assert forall i :: 0 <= i <= |columns| ==> more[..i] == columns[..i];
    assert columns[..|columns|] == columns;
    assert more[|columns|] == name && forall i :: 0 <= i < |columns| ==> more[i] == columns[i];
  }

  // ---------------------------------------------------------------- one data row

  /** Text is stripped, and blank text becomes None, never "". */
  function CellValue(value: Value): Value {
    if value.Text? then (if Strip(value.s) == "" then Null else Text(Strip(value.s))) else value
  }

  /** A cell lands as None exactly when it is blank, as its trimmed text when it is text, and otherwise as it is. */
  lemma CellsAreTrimmed(value: Value)
    ensures CellValue(value) == Null <==> IsBlank(value)
    ensures value.Text? && !Blank(value.s) ==> CellValue(value).Text? && Trims(value.s, CellValue(value).s)
    ensures !value.Text? ==> CellValue(value) == value
  {
    if value.Text? {
      StripTrims(value.s);
      StripsToNothingIff(value.s);
    }
  }

  function CellAt(row: seq<Value>, index: nat): Value { if index < |row| then CellValue(row[index]) else Null }

  /** One data row as a record, or None when every cell is blank. Under names as `HeaderColumns` gives them no cell
      overwrites another, nor the row number. */
  method RowRecord(row: seq<Value>, columns: seq<string>, rowNumber: nat) returns (record: Option<Row>)
    requires forall i, j :: 0 <= i < j < |columns| ==> columns[i] != columns[j]
    requires ROW_NUMBER_COLUMN !in columns
    ensures record.None? <==> forall i :: 0 <= i < |columns| ==> CellAt(row, i) == Null
    ensures record.Some? ==>
              && record.value.Keys == {ROW_NUMBER_COLUMN} + Elements(columns)
              && record.value[ROW_NUMBER_COLUMN] == Int(rowNumber)
              && forall i :: 0 <= i < |columns| ==> record.value[columns[i]] == CellAt(row, i)
  {
    hide Elements;
    var built: Row := map[ROW_NUMBER_COLUMN := Int(rowNumber)];
    var populated := false;
    NoElements<string>();
    for index := 0 to |columns|
      invariant built.Keys == {ROW_NUMBER_COLUMN} + Elements(columns[..index])
      invariant built[ROW_NUMBER_COLUMN] == Int(rowNumber)
      invariant forall i :: 0 <= i < index ==> columns[i] in built && built[columns[i]] == CellAt(row, i)
      invariant populated <==> exists i :: 0 <= i < index && CellAt(row, i) != Null
    {
      var value := if index < |row| then CellValue(row[index]) else Null;
      if value != Null {
        populated := true;
      }
      assert value == CellAt(row, index);
      assert columns[..index + 1] == columns[..index] + [columns[index]];
      ElementsConcat(columns[..index], [columns[index]]);
      OneElement(columns[index]);
      InElements(columns[..index], columns[index]);
      built := built[columns[index] := value];
    }
    assert columns[..|columns|] == columns;
    record := if populated then Some(built) else None;
  }
}
