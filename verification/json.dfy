/** Decoded JSON values and the Python operations the backend applies to them
    (`key in x`, `x[key]`, `x[:n]`, `x.get(key, default)`, truthiness). Every operation
    that would raise in Python returns `Err`. */
module Json {
  import opened Wrappers
  import Text

  /** A value produced by `json.loads`. Numbers are integers in this model. */
  datatype Json =
    | JNull
    | JBool(b: bool)
    | JNum(n: int)
    | JStr(s: string)
    | JArr(items: seq<Json>)
    | JObj(fields: map<string, Json>)

  /** Python truthiness: `None`, `False`, `0` and empty containers are false. */
  predicate Truthy(j: Json) {
    match j
    case JNull => false
    case JBool(b) => b
    case JNum(n) => n != 0
    case JStr(s) => s != ""
    case JArr(xs) => xs != []
    case JObj(m) => m != map[]
  }

  /** Lists and dicts cannot be members of a Python set. */
  predicate Hashable(j: Json) {
    !j.JArr? && !j.JObj?
  }

  /** Python `key in x` for a string key: dict membership, substring test, list
      membership; `None`, booleans and numbers raise `TypeError`. */
  function HasKey(x: Json, key: string): Result<bool> {
    match x
    case JObj(m) => Ok(key in m)
    case JStr(s) => Ok(Text.Occurs(key, s))
    case JArr(xs) => Ok(JStr(key) in xs)
    case _ => Err
  }

  /** Python `x[key]` for a string key: only a dict holding `key` succeeds. */
  function Index(x: Json, key: string): Result<Json> {
    if x.JObj? && key in x.fields then Ok(x.fields[key]) else Err
  }

  /** Python `x[:n]` followed by iteration: a list yields its first `n` items, a string
      its first `n` characters as one-character strings; anything else raises. */
  function Head(x: Json, n: nat): Result<seq<Json>> {
    match x
    case JArr(xs) => Ok(if |xs| <= n then xs else xs[..n])
    case JStr(s) =>
      var t := if |s| <= n then s else s[..n];
      Ok(seq(|t|, i requires 0 <= i < |t| => JStr([t[i]])))
    case _ => Err
  }

  /** Python `x.get(key, default)`: only dicts have `get`. */
  function Get(x: Json, key: string, default: Json): Result<Json> {
    match x
    case JObj(m) => Ok(if key in m then m[key] else default)
    case _ => Err
  }
}
