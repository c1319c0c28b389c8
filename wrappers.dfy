/** Small value wrappers shared by the other modules. */
module Wrappers {

  /** A JavaScript value that may be `null`/`undefined`. */
  datatype Option<T> = None | Some(value: T) {
    function GetOr(default: T): T {
      match this
      case Some(v) => v
      case None => default
    }
  }

  /** A property of a JSON request body: either absent or present with a value.
      Unlike `Option`, this distinguishes "not sent" from "sent as null" when
      the value type is itself an `Option`. */
  datatype Field<T> = Absent | Present(value: T) {
    function GetOr(default: T): T {
      match this
      case Present(v) => v
      case Absent => default
    }
  }

  datatype Result<T, E> = Success(value: T) | Failure(error: E)
}
