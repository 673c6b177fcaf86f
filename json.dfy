/** The Python values (decoded JSON, database rows as dicts) that the
    id-obfuscation code walks over. A dict keeps its keys in insertion
    order, as Python's does. */
module Json {
  import opened Text
  import StringUtils

  datatype Value =
    | VNull
    | VBool(b: bool)
    | VInt(i: int)
    | VStr(s: string)
    | VList(items: seq<Value>)
    | VDict(fields: seq<Field>)

  datatype Field = Field(key: string, val: Value)

  /** Python's `isinstance(v, int)`: `bool` is a subclass of `int`. */
  predicate IsPyInt(v: Value) { v.VInt? || v.VBool? }

  /** Python's `bool(v)`. */
  predicate Truthy(v: Value) {
    match v
    case VNull => false
    case VBool(b) => b
    case VInt(i) => i != 0
    case VStr(s) => s != ""
    case VList(items) => items != []
    case VDict(fields) => fields != []
  }

  /** Python's `str(v)`; collections are written with `repr` of their
      members (string escapes are not modelled). */
  function Str(v: Value): string
    decreases v, 0
  {
    match v
    case VNull => "None"
    case VBool(b) => if b then "True" else "False"
    case VInt(i) => IntToString(i)
    case VStr(s) => s
    case VList(items) =>
      "[" + StringUtils.CommaSep(seq(|items|, k requires 0 <= k < |items| => Repr(items[k]))) + "]"
    case VDict(fields) =>
      "{" + StringUtils.CommaSep(seq(|fields|, k requires 0 <= k < |fields| =>
        "'" + fields[k].key + "': " + Repr(fields[k].val))) + "}"
  }

  /** Python's `repr(v)`. */
  function Repr(v: Value): string
    decreases v, 1
  {
    if v.VStr? then "'" + v.s + "'" else Str(v)
  }

  /** The string form of an integer never starts with `!`. */
  lemma IntStrHasNoBang(v: Value)
    requires IsPyInt(v)
    ensures Str(v) != [] && Str(v)[0] != '!'
  {
    if v.VInt? {
      var s := IntToString(v.i);
      if v.i >= 0 {
        assert IsDigit(s[0]);
      }
    }
  }
}
