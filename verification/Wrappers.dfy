/** A value that may be missing, and how a call ends. */
module Wrappers {
  datatype Option<+T> = None | Some(value: T)

  /** How an API call ends: it is answered, it fails without effect, or it takes effect and the
      answer is lost. */
  datatype Outcome = Answered | Refused | AnswerLost
}
