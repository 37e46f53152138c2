/** JavaScript values as they arrive in a parsed JSON request body, and the
    truthiness test that `!x` and `x || y` perform on them. */
module Js {

  datatype Value =
    | Undefined
    | Null
    | Bool(b: bool)
    | Num(n: real)
    | Str(s: string)
    | Arr(items: seq<Value>)
    | Obj(fields: map<string, Value>)

  /** The values `!x` turns into `true`: `undefined`, `null`, `false`, `0`
      and the empty string. Arrays and objects, even empty ones, are truthy. */
  predicate Falsy(v: Value): (b: bool)
    ensures b <==> v == Undefined || v == Null || v == Bool(false) || v == Num(0.0) || v == Str("")
  {
    match v
    case Undefined => true
    case Null => true
    case Bool(b) => !b
    case Num(n) => n == 0.0
    case Str(s) => s == ""
    case Arr(_) => false
    case Obj(_) => false
  }

  /** `a || b`: the first operand when it is truthy, otherwise the second. */
  function Or(a: Value, b: Value): (r: Value)
    ensures !Falsy(a) ==> r == a
    ensures Falsy(a) ==> r == b
  {
    if Falsy(a) then b else a
  }

  /** `message || fallback` on an error message string. */
  function OrMessage(message: string, fallback: string): (r: string)
    ensures message != "" ==> r == message
    ensures message == "" ==> r == fallback
  {
    if message == "" then fallback else message
  }
}
