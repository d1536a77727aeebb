/** Failure-carrying datatypes shared by the model. */
module Wrappers {

  datatype Option<+T> = None | Some(value: T)

  /** What a call into code outside the model did: it returned a value or it raised an
      exception whose text is `error`. */
  datatype Outcome<+T> = Returned(value: T) | Raised(error: string)
}
