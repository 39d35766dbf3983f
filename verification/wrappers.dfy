/** Small datatypes shared by every module of the model: an option, a
    JavaScript nullable (undefined, null or a value) and a backend result.

    JavaScript distinguishes a missing property (`undefined`) from an explicit
    `null`; the services treat the two differently in places, so `Nullable`
    keeps all three cases while `Option` is used where the source collapses
    them (`x ?? null`).
 */
module Wrappers {

  datatype Option<+T> = None | Some(value: T) {

    function GetOr(default: T): T {
      match this
      case Some(v) => v
      case None => default
    }
  }

  /** A JavaScript value that may be `undefined`, `null` or present. */
  datatype Nullable<+T> = Undef | Null | Val(value: T) {

    /** `x ?? null` (and `x ?? undefined`): the two absent cases collapse. */
    function OrNull(): Option<T> {
      match this
      case Val(v) => Some(v)
      case _ => None
    }
  }

  /** The outcome of an operation that may throw. */
  datatype Result<+R, +E> = Success(value: R) | Failure(error: E)
}
