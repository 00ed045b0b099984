/** Shared vocabulary: optional values and the JavaScript exceptions the library can raise. */
module Common {

  datatype Option<+T> = None | Some(value: T) {
    function GetOr(default: T): T {
      match this
      case Some(v) => v
      case None => default
    }

    /** No element, or the one value. */
    function ToSeq(): (s: seq<T>)
      ensures |s| <= 1 && (s == [] <==> None?)
      ensures Some? ==> s == [value]
    {
      match this
      case Some(v) => [v]
      case None => []
    }
  }

  /** Why a call threw. Every one of these is a JavaScript `TypeError` except
      `NotFound` (a DOM `NotFoundError`) and `StackOverflow` (a `RangeError`). */
  datatype Failure =
    | NullDereference   // a property read or write on `null`/`undefined`
    | NotAConstructor   // `new cls(config)` with `cls` undefined
    | NotANode          // `appendChild`/`removeChild` called on something that is not an element
    | NotFound          // `removeChild` of an element that is not a child of the receiver
    | NotAFunction      // `listeners.forEach` on a plain object
    | StackOverflow     // the call stack ran out

  /** How a void JavaScript call ended. */
  datatype Outcome = Done | Threw(failure: Failure)

  /** How a value-returning JavaScript call ended. */
  datatype Result<+T> = Ok(value: T) | Err(failure: Failure)

  /** JavaScript truthiness of an optional string: `undefined`, `null` and `""` are falsy. */
  predicate Truthy(s: Option<string>) {
    s.Some? && s.value != ""
  }

  /** `s || fallback` for an optional string. */
  function OrElse(s: Option<string>, fallback: string): string {
    if Truthy(s) then s.value else fallback
  }

  /** `s || null` for an optional string: keeps it only when it is truthy. */
  function OrNull(s: Option<string>): Option<string> {
    if Truthy(s) then s else None
  }
}
