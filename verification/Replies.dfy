/** Results of filesystem calls and of the operations built on them. */
module Replies {
  datatype Option<+T> = None | Some(value: T)

  /** The error conditions the modelled code distinguishes. */
  datatype Errno = NotFound | NotADirectory | AlreadyExists | IsADirectory | NotEmpty | Io | Conflict

  /** The outcome of a call that computes a value or fails without an effect. */
  datatype Reply<+T> = Ok(value: T) | Err(errno: Errno)

  ghost predicate NoDuplicates<T>(s: seq<T>) {
    forall i, j :: 0 <= i < j < |s| ==> s[i] != s[j]
  }
}
