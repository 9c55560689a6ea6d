/**
 * The JavaScript values that reach the query builders: where-objects, their
 * values, the `data` of create and update, and the rows the driver returns.
 */
module Values {

  /** A JavaScript value. `Obj` lists an object's own enumerable properties in
      the order `for...in` visits them; an array is the object whose keys are
      its indices. Numbers are integers here. */
  datatype Value =
    | Undefined
    | Null
    | Bool(b: bool)
    | Num(n: int)
    | Str(s: string)
    | Obj(fields: seq<Entry>)

  /** One property of an object: its key and its value. */
  type Entry = (string, Value)

  /** One result row: column name to column value. */
  type Row = seq<Entry>

  /** JavaScript truthiness. */
  predicate Truthy(v: Value)
  {
    match v
    case Undefined => false
    case Null => false
    case Bool(b) => b
    case Num(n) => n != 0
    case Str(s) => s != ""
    case Obj(_) => true
  }

  /** The string the `typeof` operator yields. */
  function TypeOf(v: Value): string
  {
    match v
    case Undefined => "undefined"
    case Null => "object"
    case Bool(_) => "boolean"
    case Num(_) => "number"
    case Str(_) => "string"
    case Obj(_) => "object"
  }

  /** The length of `Object.keys(v)` (a string has one key per character). */
  function KeyCount(v: Value): nat
  {
    match v
    case Obj(fields) => |fields|
    case Str(s) => |s|
    case _ => 0
  }

  /** The test every filtering builder applies to its `where` argument:
      `where && typeof where === 'object' && Object.keys(where).length > 0`.
      It holds exactly for an object with at least one key, so `null`,
      `undefined`, scalars and `{}` all mean "no filter". */
  predicate WhereGuard(where: Value): (b: bool)
    ensures b <==> where.Obj? && |where.fields| > 0
  {
    Truthy(where) && TypeOf(where) == "object" && KeyCount(where) > 0
  }

  /** Property access `row[key]`: the value of the first property named `key`,
      `undefined` when there is none. */
  function Lookup(row: Row, key: string): (v: Value)
    ensures (forall i | 0 <= i < |row| :: row[i].0 != key) ==> v == Undefined
    ensures forall i | 0 <= i < |row| && row[i].0 == key && (forall j | 0 <= j < i :: row[j].0 != key) ::
              v == row[i].1
  {
    if row == [] then Undefined
    else if row[0].0 == key then row[0].1
    else Lookup(row[1..], key)
  }
}
