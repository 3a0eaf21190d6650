/** JavaScript values as they appear in the app's row objects and spreadsheet
    cells. `undefined` is never stored: a missing key of a `Row`, or `None`,
    stands for it. */
module Values {

  datatype Option<+T> = None | Some(value: T)

  datatype Result<+T, +E> = Ok(value: T) | Err(error: E)

  /** A cell or field value: `null`, a number, a string or a boolean. */
  datatype Value = Null | Num(n: real) | Text(s: string) | Bool(b: bool)

  /** A row object: field name to value; an absent field is `undefined`. */
  type Row = map<string, Value>

  /** JavaScript truthiness of a defined value. */
  predicate Truthy(v: Value)
  {
    match v
    case Null => false
    case Num(n) => n != 0.0
    case Text(s) => s != ""
    case Bool(b) => b
  }

  /** Truthiness of a possibly `undefined` value. */
  predicate TruthyOpt(v: Option<Value>)
  {
    v.Some? && Truthy(v.value)
  }

  /** `row[key]`: `None` when the field is absent (`undefined`). */
  function Field(row: Row, key: string): (r: Option<Value>)
    ensures r.Some? <==> key in row
    ensures r.Some? ==> r.value == row[key]
  {
    if key in row then Some(row[key]) else None
  }
}
