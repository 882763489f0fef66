/**
 * The few JavaScript run-time notions the routing and event code depends on:
 * dynamically typed values, `typeof`, own property names, and the values
 * that code throws.
 */
module JsValues {

  /** A JavaScript value, as far as the modelled code inspects it.
      Numbers are integers (floating point is not modelled); a function is
      known only by an identity; an object lists its own properties in
      creation order (a JavaScript object never has two with the same key). */
  datatype Value =
    | Undefined
    | Null
    | Bool(b: bool)
    | Num(n: int)
    | Str(s: string)
    | Fn(id: nat)
    | Arr(items: seq<Value>)
    | Obj(props: seq<Prop>)

  datatype Prop = Prop(key: string, value: Value)

  /** The `typeof` operator. `typeof null` is "object", as are arrays. */
  function TypeOf(v: Value): string
  {
    match v
    case Undefined => "undefined"
    case Null => "object"
    case Bool(_) => "boolean"
    case Num(_) => "number"
    case Str(_) => "string"
    case Fn(_) => "function"
    case Arr(_) => "object"
    case Obj(_) => "object"
  }

  /** What the modelled code throws: the numeric status codes it throws
      itself, the TypeError a property access on `undefined`/`null` raises,
      the ReferenceError of an undeclared identifier, and a rejected promise
      of a collaborator. */
  datatype Thrown = Status(code: int) | TypeError | ReferenceError | Rejection

  datatype Result<T> = Ok(value: T) | Err(thrown: Thrown)

  datatype Option<T> = None | Some(value: T)
}
