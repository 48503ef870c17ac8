/** Option and Result, and PHP's notion of an "empty" value as far as the
    invoice code relies on it. */
module Wrappers {

  datatype Option<+T> = None | Some(value: T) {
    function GetOr(default: T): T {
      match this
      case Some(v) => v
      case None => default
    }
  }

  /** Concatenation regroups freely; named because the solver does not always find it. */
  lemma ConcatAssoc<T>(a: seq<T>, b: seq<T>, c: seq<T>)
    ensures (a + b) + c == a + (b + c)
  {
  }

  /** A call that either returns a value or throws an exception carrying a message. */
  datatype Result<+T> = Ok(value: T) | Thrown(message: string)

  /** A cell of a decoded CSV row or of an entity field: a string or NULL. */
  type Value = Option<string>

  /** A row: column (or field) name to value. PHP arrays of this shape. */
  type Row = map<string, Value>

  /** PHP's `empty()` (and the falsiness tested by `?:` and `if`) on a string-or-NULL
      value: NULL, "" and "0" are empty, every other string is not. */
  predicate IsEmptyValue(v: Value) {
    v == None || v == Some("") || v == Some("0")
  }

  /** `isset($row[$key]) ? $row[$key] : NULL`. */
  function Column(row: Row, key: string): (v: Value)
    ensures key !in row ==> v == None
    ensures key in row ==> v == row[key]
  {
    if key in row then row[key] else None
  }
}
