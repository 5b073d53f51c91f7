/** Option and Result, standing in for Java's nullable references and exceptions, and a fact
  * about sequences the other modules share. */
module Wrappers {

  /** A nullable reference: `None` is Java's `null`. */
  datatype Option<+T> = None | Some(value: T)

  /** The outcome of a Java call that may throw: `Err` carries the exception's message. */
  datatype Result<+T> = Ok(value: T) | Err(message: string)

  /** Concatenation is associative. */
  lemma ConcatAssociates<T>(a: seq<T>, b: seq<T>, c: seq<T>)
    ensures a + (b + c) == (a + b) + c
  {
  }
}
