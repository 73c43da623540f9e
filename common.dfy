/** Shared vocabulary of both ends: optional values, results, JSON bodies and
    the string tests the two ends perform on paths and cookie values. */
module Common {

  datatype Option<+T> = None | Some(value: T)

  datatype Result<+T, +E> = Ok(value: T) | Err(error: E)

  /** A JSON value as it travels between the client and the API. */
  datatype Json =
    | JNull
    | JBool(b: bool)
    | JNum(n: int)
    | JStr(s: string)
    | JArr(items: seq<Json>)
    | JObj(fields: map<string, Json>)

  predicate StartsWith(s: string, prefix: string) {
    |prefix| <= |s| && s[..|prefix|] == prefix
  }

  predicate EndsWith(s: string, suffix: string) {
    |suffix| <= |s| && s[|s| - |suffix|..] == suffix
  }

  /** A cookie or form value that is present and not the empty string: the test
      both `if not value` in Python and `if (value)` in TypeScript perform on an
      optional string. */
  predicate Filled(v: Option<string>) {
    v.Some? && v.value != ""
  }

  /** `cookies.get(name)`: the value stored under `name`, if any. */
  function Get(m: map<string, string>, key: string): (v: Option<string>)
    ensures v.Some? <==> key in m
    ensures v.Some? ==> v.value == m[key]
  {
    if key in m then Some(m[key]) else None
  }
}
