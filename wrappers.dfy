/** The optional-value type shared by the digest mailer modules. */
module Wrappers {
  datatype Option<+T> = None | Some(value: T)
}
