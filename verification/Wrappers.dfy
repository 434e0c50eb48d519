/** The option type shared by every component of the model. */
module Wrappers {

  /** A value that may be missing: an absent field, a lookup that found nothing. */
  datatype Option<+T> = None | Some(value: T)
}
