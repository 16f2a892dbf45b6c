/** The JavaScript-level values and errors that the entry point of the library sees.
    Only the shapes and operations the core reads are modelled: `typeof`, truthiness,
    the two properties `word` and `pronounce`, and `String(err)` of an Error object. */
module Js {

  datatype Option<T> = None | Some(value: T)

  datatype Result<T, E> = Ok(value: T) | Err(error: E)

  /** A JavaScript Error object: the constructor's name (`Error`, `TypeError`,
      `ReferenceError`, ...) and its message. */
  datatype Failure = Failure(name: string, message: string)
  {
    /** What `String(err)` and template interpolation of an Error object produce
        (Error.prototype.toString). */
    function Text(): (t: string)
      ensures name != "" && message != "" ==> t == name + ": " + message
      ensures message == "" ==> t == name
    {
      if message == "" then name
      else if name == "" then message
      else name + ": " + message
    }
  }

  /** A JavaScript value as the validation code sees it. An object is reduced to the two
      properties the code reads; a property that is absent is `Undefined`. NaN is not
      modelled (`Num` holds a real). */
  datatype Value =
    | Str(s: string)
    | Num(x: real)
    | Bool(b: bool)
    | Undefined
    | Null
    | Arr(items: seq<Value>)
    | Obj(word: Value, pronounce: Value)

  /** JavaScript truthiness: "", 0, false, undefined and null are falsy. */
  predicate Truthy(v: Value) {
    match v
    case Str(s) => s != ""
    case Num(x) => x != 0.0
    case Bool(b) => b
    case Undefined => false
    case Null => false
    case Arr(_) => true
    case Obj(_, _) => true
  }

  /** The `typeof` operator (null and arrays are "object"). */
  function TypeOf(v: Value): (t: string)
    ensures t == "object" <==> v.Null? || v.Arr? || v.Obj?
    ensures t == "string" <==> v.Str?
  {
    match v
    case Str(_) => "string"
    case Num(_) => "number"
    case Bool(_) => "boolean"
    case Undefined => "undefined"
    case Null => "object"
    case Arr(_) => "object"
    case Obj(_, _) => "object"
  }
}
