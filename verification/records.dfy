/**
 * Generic list items as the search and sort hooks see them: JavaScript
 * objects read through `item[key]`, where the field may hold a string, a
 * number, something else, or nothing.
 */
module Records {

  /** The runtime type of a field: `typeof` distinguishes strings and numbers. */
  datatype Value = Str(s: string) | Num(n: int) | Bool(b: bool) | Undefined

  /** An item: field name to value. */
  type Record = map<string, Value>

  /** `item[key]`, which is `undefined` for a missing field. */
  function Lookup(item: Record, key: string): Value {
    if key in item then item[key] else Undefined
  }
}
