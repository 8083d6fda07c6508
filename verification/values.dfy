/** JavaScript values as the application stores and reads them, and the
    `{ id: string }` records every collection holds. */
module Values {

  /** A `Date` object, identified by its time value in milliseconds since
      the Unix epoch. Only valid dates are ever built. */
  datatype Date = Date(ms: int)

  /** A JavaScript value. Numbers are modelled as integers. */
  datatype Value =
    | VUndefined
    | VNull
    | VBool(b: bool)
    | VNum(n: int)
    | VStr(s: string)
    | VDate(d: Date)
    | VArr(items: seq<Value>)
    | VObj(fields: map<string, Value>)

  /** JavaScript truthiness (`!!v`). */
  predicate Truthy(v: Value) {
    match v
    case VUndefined => false
    case VNull => false
    case VBool(b) => b
    case VNum(n) => n != 0
    case VStr(s) => s != ""
    case _ => true
  }

  /** `typeof v === 'object'` (which holds of `null`, arrays and dates). */
  predicate IsObject(v: Value) {
    v.VNull? || v.VDate? || v.VArr? || v.VObj?
  }

  /** Property read `o[k]` on a plain object: `undefined` when absent. */
  function Get(o: map<string, Value>, k: string): Value {
    if k in o then o[k] else VUndefined
  }

  /** A stored entity: a plain object with a string `id`. */
  type Record = r: map<string, Value> | "id" in r && r["id"].VStr?
    witness map["id" := VStr("")]

  function Id(r: Record): string {
    r["id"].s
  }
}
