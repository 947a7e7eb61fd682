/** Values that travel from a landed row, through a mapping, to a host record. */
module Values {

  datatype Option<+T> = None | Some(value: T)

  datatype Result<+T, +E> = Ok(value: T) | Err(error: E) {
    predicate IsFailure() { Err? }

    function PropagateFailure<U>(): Result<U, E>
      requires Err?
    {
      Err(error)
    }

    function Extract(): T
      requires Ok?
    {
      value
    }
  }

  /** A cell of a landed row, a JSON value of a mapping, or a coerced target value.
      `Other` is everything that is not plain JSON: datetimes, decimals, host objects. */
  datatype Value =
    | Null
    | Bool(b: bool)
    | Int(n: int)
    | Float(r: real)
    | Text(s: string)
    | List(items: seq<Value>)
    | Obj(members: seq<Member>)
    | Other(kind: string, repr: string)

  /** One key of a JSON object; a JSON object keeps its keys in the order they were written. */
  datatype Member = Member(key: string, value: Value)

  type Row = map<string, Value>

  /** The columns every landed row is stamped with. */
  const BINDING_ID_COLUMN: string := "_connector_binding_id"
  const RUN_ID_COLUMN: string := "_connector_run_id"
  const DELETED_COLUMN: string := "_connector_deleted"

  /** `dict.get(key)`: an absent key reads as None. */
  function Cell(row: Row, column: string): Value {
    if column in row then row[column] else Null
  }

  /** Where a JSON object holds `key`. */
  function Find(members: seq<Member>, key: string): (found: Option<nat>)
    ensures found.Some? ==> found.value < |members| && members[found.value].key == key
    ensures found.None? <==> forall i :: 0 <= i < |members| ==> members[i].key != key
  {
    if members == [] then None
    else if members[0].key == key then Some(0)
    else
      match Find(members[1..], key)
      case None => None
      case Some(i) => Some(i + 1)
  }

  predicate WhiteSpace(c: char) { c in {' ', '\t', '\n', '\r'} }

  /** `not text.strip()`, over ASCII white space. */
  predicate Blank(text: string) {
    forall i :: 0 <= i < |text| ==> WhiteSpace(text[i])
  }

  /** None, or text with nothing in it. */
  predicate IsBlank(value: Value) {
    value.Null? || (value.Text? && Blank(value.s))
  }
}
