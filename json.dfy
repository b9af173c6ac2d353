/**
 * JSON values as `json.loads` produces them, with the bits of Python
 * semantics the application relies on: truthiness, `dict.get` and `in`.
 */
module Json {
  import opened Wrappers

  /** A parsed JSON document. Objects are dictionaries; key order is not kept. */
  datatype Json =
    | JNull
    | JBool(b: bool)
    | JNum(n: real)
    | JStr(s: string)
    | JArr(items: seq<Json>)
    | JObj(fields: map<string, Json>)

  /** Python truthiness of the value `json.loads` gives for `j`. */
  predicate Truthy(j: Json)
  {
    match j
    case JNull => false
    case JBool(b) => b
    case JNum(n) => n != 0.0
    case JStr(s) => s != ""
    case JArr(items) => items != []
    case JObj(fields) => fields != map[]
  }

  /** `d.get(k, default)` on a dictionary. */
  function GetOr(d: map<string, Json>, k: string, default: Json): Json
  {
    if k in d then d[k] else default
  }

  /** `d.get(k)`: an absent key reads as None. */
  function Get(d: map<string, Json>, k: string): Json
  {
    GetOr(d, k, JNull)
  }

  /** `sub` occurs in `s` as a contiguous piece (Python's `sub in s` on two strings). */
  predicate ContainsText(s: string, sub: string)
    decreases |s|
  {
    sub <= s || (s != [] && ContainsText(s[1..], sub))
  }

  /** `ContainsText` agrees with "some position of `s` starts a copy of `sub`". */
  lemma {:induction false} ContainsTextAt(s: string, sub: string)
    ensures ContainsText(s, sub) <==> exists i :: 0 <= i <= |s| && sub <= s[i..]
    decreases |s|
  {
    if sub <= s {
      assert sub <= s[0..];
    } else if s == [] {
      assert !ContainsText(s, sub);
    } else {
      ContainsTextAt(s[1..], sub);
      if exists i :: 0 <= i <= |s| && sub <= s[i..] {
        var i :| 0 <= i <= |s| && sub <= s[i..];
        assert i != 0;
        assert s[1..][i - 1..] == s[i..];
      }
      if ContainsText(s[1..], sub) {
        var i :| 0 <= i <= |s[1..]| && sub <= s[1..][i..];
        assert s[1..][i..] == s[i + 1..];
      }
    }
  }

  /**
   * Python's `key in j`: membership of a key in a dictionary, of an equal
   * string in a list, of a substring in a string. `None` stands for the
   * `TypeError` raised on a number, a boolean or None.
   */
  function In(key: string, j: Json): (r: Option<bool>)
    ensures r.None? <==> j.JNull? || j.JBool? || j.JNum?
    ensures j.JObj? ==> r == Some(key in j.fields)
  {
    match j
    case JObj(fields) => Some(key in fields)
    case JArr(items) => Some(JStr(key) in items)
    case JStr(s) => Some(ContainsText(s, key))
    case _ => None
  }
}
