/** Small value wrappers shared by every module of the model. */
module Wrappers {

  /** An optional value: a JSON key that is absent (or null) is `None`. */
  datatype Option<+T> = None | Some(value: T) {
    function GetOr(default: T): T {
      match this
      case Some(v) => v
      case None => default
    }
  }

  /** The outcome of a call into code outside the model (a Google API call,
      a credential refresh): either an answer or a raised exception with its
      message (`str(e)` in the source). */
  datatype Remote<+T> = Answer(value: T) | Raises(message: string)
}
