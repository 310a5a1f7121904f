/** JSON-shaped values as the Python code stores them in the session record and
    exchanges them with the model oracles. Numbers are integers: no part of the
    modelled core does floating-point arithmetic on stored values. */
module Json {
  import opened Text

  datatype Value =
    | Null
    | Str(s: string)
    | Num(n: int)
    | Bool(b: bool)
    | List(items: seq<Value>)
    | Dict(fields: map<string, Value>)

  /** Python truthiness: `not v` holds exactly for these values. */
  predicate Falsy(v: Value) {
    match v
    case Null => true
    case Str(s) => s == []
    case Num(n) => n == 0
    case Bool(b) => !b
    case List(items) => items == []
    case Dict(fields) => fields == map[]
  }

  /** `v in (None, "", [], {})`: Python's `==` never equates these with 0 or False. */
  predicate IsEmptyValue(v: Value) {
    v == Null || v == Str([]) || v == List([]) || v == Dict(map[])
  }

  /** The values that `(v or "")` turns into a string without raising: strings
      and falsy values. */
  predicate TextLike(v: Value) {
    v.Str? || Falsy(v)
  }

  /** `(v or "")` for a text-like value. */
  function TextOr(v: Value): (r: string)
    requires TextLike(v)
    ensures v.Str? ==> r == v.s
    ensures Falsy(v) ==> r == []
  {
    if v.Str? then v.s else []
  }

  /** `d.get(key)` on a dictionary value; None for a missing key. */
  function Get(fields: map<string, Value>, key: string): (r: Value)
    ensures key in fields ==> r == fields[key]
    ensures key !in fields ==> r == Null
  {
    if key in fields then fields[key] else Null
  }

  /** `(d.get(key) or {})` seen as a dictionary: the fields of a dictionary value,
      and no fields for a missing or falsy one. */
  function DictOr(v: Value): map<string, Value>
  {
    if v.Dict? then v.fields else map[]
  }

  /** Values that `(v or {})` turns into a dictionary without raising. */
  predicate DictLike(v: Value) {
    v.Dict? || Falsy(v)
  }

  /** int(v): an integer stays, a boolean counts as 0 or 1, a string is parsed,
      and anything else raises (None). */
  function IntOf(v: Value): (r: Option<int>)
    ensures v.Num? ==> r == Some(v.n)
    ensures v.Str? ==> r == ParseInt(v.s)
    ensures v.Null? || v.List? || v.Dict? ==> r.None?
  {
    match v
    case Num(n) => Some(n)
    case Bool(b) => Some(if b then 1 else 0)
    case Str(s) => ParseInt(s)
    case _ => None
  }

  /** Python's `a or b` */
  function Or(a: Value, b: Value): (r: Value)
    ensures Falsy(r) ==> Falsy(a) && Falsy(b)
    ensures !Falsy(a) ==> r == a
  {
    if Falsy(a) then b else a
  }
}
