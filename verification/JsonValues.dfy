/** JSON documents and the two result shapes used throughout. */
module JsonValues {
  import opened Strings

  datatype Option<+T> = None | Some(value: T)

  datatype Result<+T, +E> = Ok(value: T) | Err(error: E)

  /** A parsed JSON document. Objects are maps: a Python dict has one value per
      key, and dict equality does not look at the order of the keys. */
  datatype Json =
    | Null
    | Bool(b: bool)
    | Int(n: int)
    | Float(x: real)
    | Str(s: string)
    | Arr(items: seq<Json>)
    | Obj(fields: map<string, Json>)

  /** Python truthiness. */
  predicate Truthy(j: Json)
  {
    match j
    case Null => false
    case Bool(b) => b
    case Int(n) => n != 0
    case Float(x) => x != 0.0
    case Str(s) => s != ""
    case Arr(items) => items != []
    case Obj(fields) => fields != map[]
  }

  function Get(fields: map<string, Json>, key: string): Option<Json>
  {
    if key in fields then Some(fields[key]) else None
  }

  /** Follow reference tokens from a value (RFC 6901 section 4): a member name
      in an object, a decimal index without leading zeros in an array. */
  function Walk(j: Json, tokens: seq<string>): Option<Json>
    decreases |tokens|
  {
    if tokens == [] then Some(j)
    else match j
      case Obj(fields) => if tokens[0] in fields then Walk(fields[tokens[0]], tokens[1..]) else None
      case Arr(items) =>
        var i := DecimalValue(tokens[0]);
        if 0 <= i < |items| && Decimal(i) == tokens[0] then Walk(items[i], tokens[1..]) else None
      case _ => None
  }

  /** Follow keys through objects, and through nothing else. */
  function Member(j: Json, keys: seq<string>): Option<Json>
    decreases |keys|
  {
    if keys == [] then Some(j)
    else if !j.Obj? || keys[0] !in j.fields then None
    else Member(j.fields[keys[0]], keys[1..])
  }

  /** ... along a dotted path. */
  function Dotted(fields: map<string, Json>, path: string): Option<Json>
  {
    Member(Obj(fields), Split(path, '.'))
  }
}
