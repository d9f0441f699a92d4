/** Decoded JSON values as the webhook sees them after `request.get_json()`,
    and the few Python operations the alert path applies to them. */
module Json {

  /** A decoded JSON document. An object is a dictionary from keys to values;
      JSON numbers with a fraction are not modelled. */
  datatype JSON =
    | Null
    | Bool(b: bool)
    | Int(i: int)
    | Str(s: string)
    | Arr(items: seq<JSON>)
    | Obj(fields: map<string, JSON>)

  /** Python truthiness: `None`, `False`, `0`, `""`, `[]` and `{}` are falsy,
      every other value is truthy. This is what `if x:` and `x or y` test. */
  predicate Truthy(v: JSON) {
    match v
    case Null => false
    case Bool(b) => b
    case Int(i) => i != 0
    case Str(s) => s != []
    case Arr(xs) => xs != []
    case Obj(m) => m != map[]
  }

  /** `a or b`: the first operand when it is truthy, otherwise the second. */
  function Or(a: JSON, b: JSON): JSON {
    if Truthy(a) then a else b
  }

  /** `d.get(k, default)`: falls back only when the key is ABSENT;
      a key that is present with a falsy value (even null) is returned as is. */
  function GetOr(m: map<string, JSON>, k: string, default: JSON): JSON {
    if k in m then m[k] else default
  }

  /** `d.get(k)`, whose default is `None`. */
  function Get(m: map<string, JSON>, k: string): JSON {
    GetOr(m, k, Null)
  }

  /** `type(v).__name__` for a decoded value, as it appears in Python's
      exception messages. */
  function TypeName(v: JSON): string {
    match v
    case Null => "NoneType"
    case Bool(_) => "bool"
    case Int(_) => "int"
    case Str(_) => "str"
    case Arr(_) => "list"
    case Obj(_) => "dict"
  }
}
