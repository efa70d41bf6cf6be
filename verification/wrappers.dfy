/** Failure-carrying datatypes shared by every module of the model. */
module Wrappers {

  /** A JavaScript value that may be `undefined` (or `null` where the source treats both alike). */
  datatype Option<+T> = None | Some(value: T) {
    function GetOr(default: T): T {
      match this
      case Some(v) => v
      case None => default
    }
  }

  /** What a controller hands back to the GraphQL layer.
      `Ok` is a `SuccessResponse`, `Fail` an `ErrorResponse(status, message)`,
      and `Thrown` a runtime exception (a `TypeError` on `undefined`, say)
      that escapes the controller body. */
  datatype Outcome<+T> =
    | Ok(value: T)
    | Fail(status: int, message: string)
    | Thrown(reason: string)
  {
    predicate IsOk() { Ok? }
  }
}
