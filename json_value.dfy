/** JSON values as the migration scripts see them after `json.load`, with
    the few pieces of Python dictionary and truthiness semantics the core
    relies on. */
module JsonValue {

  datatype Option<T> = None | Some(value: T)

  datatype Result<T> = Success(value: T) | Failure(error: string)

  /** A JSON document node. Numbers are integers only: the core never
      computes with fractional values. */
  datatype Json =
    | JNull
    | JBool(b: bool)
    | JInt(i: int)
    | JStr(s: string)
    | JArr(items: seq<Json>)
    | JObj(fields: map<string, Json>)

  /** A record as loaded from JSON: a Python `dict` with string keys. */
  type Dict = map<string, Json>

  /** `d.get(k)`: a missing key reads as `None`. */
  function Get(d: Dict, k: string): Json
  {
    if k in d then d[k] else JNull
  }

  /** `d.get(k, default)`: the default is used only when the key is absent,
      never when it is present with value `None`. */
  function GetOr(d: Dict, k: string, default: Json): Json
  {
    if k in d then d[k] else default
  }

  /** Python truthiness of a JSON value. */
  predicate Truthy(j: Json)
  {
    match j
    case JNull => false
    case JBool(b) => b
    case JInt(i) => i != 0
    case JStr(s) => s != []
    case JArr(xs) => xs != []
    case JObj(m) => m != map[]
  }

  /** Python `a or b`: the first operand if it is truthy, else the second. */
  function Or(a: Json, b: Json): (r: Json)
    ensures Truthy(r) <==> Truthy(a) || Truthy(b)
    ensures Truthy(a) ==> r == a
    ensures !Truthy(a) ==> r == b
  {
    if Truthy(a) then a else b
  }

  /** A value Python's `str()` renders without container syntax. */
  predicate IsScalar(j: Json)
  {
    !j.JArr? && !j.JObj?
  }

  /** Either a string or a falsy value: what a field must be when the code
      calls a string method on it only after a truthiness test. */
  predicate StrOrFalsy(j: Json)
  {
    j.JStr? || !Truthy(j)
  }

  /** A field that is absent, `None` or a string. */
  predicate OptStr(d: Dict, k: string)
  {
    k !in d || d[k].JNull? || d[k].JStr?
  }

  /** A field that is absent or a JSON object (`d.get(k, {})` is then a dict). */
  predicate ObjOrAbsent(d: Dict, k: string)
  {
    k !in d || d[k].JObj?
  }

  /** A field that is absent or a JSON array (`d.get(k, [])` is then a list). */
  predicate ArrOrAbsent(d: Dict, k: string)
  {
    k !in d || d[k].JArr?
  }

  /** `d.get(k, {})` for a field that is absent or an object. */
  function SubDict(d: Dict, k: string): Dict
    requires ObjOrAbsent(d, k)
  {
    if k in d then d[k].fields else map[]
  }

  /** `d.get(k, [])` for a field that is absent or an array. */
  function Items(d: Dict, k: string): seq<Json>
    requires ArrOrAbsent(d, k)
  {
    if k in d then d[k].items else []
  }

  /** Every element of a list is a JSON object. */
  predicate AllObjects(xs: seq<Json>)
  {
    forall i | 0 <= i < |xs| :: xs[i].JObj?
  }

  /** The decimal digits of a natural number, most significant first. */
  function Decimal(n: nat): (r: string)
    ensures r != []
    ensures forall k | 0 <= k < |r| :: '0' <= r[k] <= '9'
    ensures n >= 10 ==> r[0] != '0'
  {
    if n < 10 then [Digit(n)] else Decimal(n / 10) + [Digit(n % 10)]
  }

  function Digit(d: nat): (c: char)
    requires d < 10
    ensures '0' <= c <= '9'
    ensures d > 0 ==> c != '0'
  {
    "0123456789"[d]
  }

  /** Python `str()` of a JSON scalar: `None`, `True`/`False`, a decimal
      integer with a leading `-` when negative, or the string itself. */
  function PyStr(j: Json): string
    requires IsScalar(j)
  {
    match j
    case JNull => "None"
    case JBool(b) => if b then "True" else "False"
    case JInt(i) => if i < 0 then "-" + Decimal(-i) else Decimal(i)
    case JStr(s) => s
  }
}
