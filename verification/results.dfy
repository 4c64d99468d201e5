/**
 * Failure-carrying values used by every route handler of the model.
 *  - Option<T>: a lookup that may find nothing (a Firestore query whose snapshot is empty).
 *  - Result<T, E>: a handler outcome; `Err` carries the typed rule violation and, being a
 *    plain value with no state inside, a failing handler leaves the store exactly as it was.
 */
module Results {

  datatype Option<+T> = None | Some(value: T) {
    function GetOr(default: T): T {
      match this
      case Some(v) => v
      case None => default
    }
  }

  datatype Result<+T, +E> = Ok(value: T) | Err(error: E)
}
