/** Values, records and ids as the mail-record store sees them.

    A record ("courrier") is a plain JavaScript object whose properties are
    chosen by the caller; it is modelled as a map from property names to
    primitive values. `undefined` is not a value here: a missing property and
    a missing id are `None`.
 */
module Values {

  datatype Option<+T> = None | Some(value: T)

  /** A primitive JSON value. Numbers are integers: ids come from `Date.now()`. */
  datatype Value = Null | Bool(b: bool) | Num(n: int) | Str(s: string)

  /** A record: its own enumerable properties and their values. */
  type Record = map<string, Value>

  /** JavaScript truthiness of a value that may be `undefined` (`None`):
      the falsy values are exactly `undefined`, `null`, `false`, `0` and `""`. */
  predicate Truthy(v: Option<Value>): (b: bool)
    ensures !b <==> v in {None, Some(Null), Some(Bool(false)), Some(Num(0)), Some(Str(""))}
  {
    match v
    case None => false
    case Some(Null) => false
    case Some(Bool(b)) => b
    case Some(Num(n)) => n != 0
    case Some(Str(s)) => s != ""
  }

  /** Reading property `k` of a record: `None` when it has no such property. */
  function Get(r: Record, k: string): Option<Value> {
    if k in r then Some(r[k]) else None
  }

  /** `r.id` */
  function IdOf(r: Record): Option<Value> {
    Get(r, "id")
  }

  /** `r.id === id`, where the target id may itself be `undefined`. */
  predicate IdMatches(r: Record, id: Option<Value>) {
    IdOf(r) == id
  }
}
