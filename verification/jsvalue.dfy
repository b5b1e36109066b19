/**
 * The JavaScript values the mini-program keeps in local storage and reads
 * from records, with the truthiness rule that `||`, `if` and `!` use, and
 * the storage itself as a map from keys to values.
 */
module JsValue {
  import opened Text

  /** Numbers are integers here; `NaN` is kept because `parseInt` produces it. */
  datatype Value =
    | Undefined
    | Null
    | Bool(b: bool)
    | Num(n: int)
    | NaN
    | Str(s: string)
    | Obj(fields: map<string, Value>)

  /** JavaScript truthiness: `undefined`, `null`, `false`, `0`, `NaN` and `''` are falsy. */
  predicate Truthy(v: Value) {
    match v
    case Undefined => false
    case Null => false
    case Bool(b) => b
    case Num(n) => n != 0
    case NaN => false
    case Str(s) => s != ""
    case Obj(_) => true
  }

  /** JavaScript `a || b`: the first operand when it is truthy, else the second. */
  function Or(a: Value, b: Value): (r: Value)
    ensures Truthy(a) ==> r == a
    ensures !Truthy(a) ==> r == b
  {
    if Truthy(a) then a else b
  }

  /** JavaScript `String(v)` for the values above. */
  function ToStr(v: Value): string {
    match v
    case Undefined => "undefined"
    case Null => "null"
    case Bool(b) => if b then "true" else "false"
    case Num(n) => IntToString(n)
    case NaN => "NaN"
    case Str(s) => s
    case Obj(_) => "[object Object]"
  }

  /** Property access `v.name`: a missing property, or any property of a non-object, reads as `undefined`. */
  function Field(v: Value, name: string): (r: Value)
    ensures v.Obj? && name in v.fields ==> r == v.fields[name]
    ensures !(v.Obj? && name in v.fields) ==> r == Undefined
  {
    if v.Obj? && name in v.fields then v.fields[name] else Undefined
  }

  /** `undefined` and `null`: reading any property of them throws a `TypeError`. */
  predicate Nullish(v: Value) {
    v == Undefined || v == Null
  }

  /** The mini-program's local storage (`wx.setStorageSync` / `wx.getStorageSync`). */
  type Storage = map<string, Value>

  /** `wx.getStorageSync(key)`: a key never written reads as the empty string. */
  function Load(st: Storage, key: string): (v: Value)
    ensures key in st ==> v == st[key]
    ensures key !in st ==> v == Str("")
  {
    if key in st then st[key] else Str("")
  }
}
