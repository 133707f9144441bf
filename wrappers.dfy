/** Failure-carrying values shared by every module of the model. */
module Wrappers {

  /** Python's `None` or a present value. */
  datatype Option<+T> = None | Some(value: T) {

    /** Python's `d.get(key, default)` once the lookup has been made. */
    function GetOr(default: T): (r: T)
      ensures Some? ==> r == value
      ensures None? ==> r == default
    {
      if Some? then value else default
    }
  }

  /** A value, or the message of the exception the source would raise. */
  datatype Result<+T> = Ok(value: T) | Err(message: string)
}
