/** Optional values and results, for `None` and raised errors, and answers to remote requests. */
module Wrappers {
  datatype Option<+T> = None | Some(value: T)

  datatype Result<+T, +E> = Ok(value: T) | Err(error: E)

  /** What becomes of a request: carried out and answered, not carried out, or carried out
      with its answer lost. */
  datatype Answer = Answered | Refused | Lost

  /** Which requests fare how, by their number. */
  type Link = nat -> Answer

  ghost predicate AllAnswered(link: Link, first: nat, end: nat) {
    forall n: nat :: first <= n < end ==> link(n) == Answered
  }
}
