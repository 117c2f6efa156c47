// Failure kinds and result wrappers shared by every module of the model.
module Wrappers {

  /** The Java exception (or error) a failing operation throws; only its kind is kept. */
  datatype Exception =
    | BeansException
    | IllegalArgumentException
    | NumberFormatException
    | IllegalStateException
    | NullPointerException
    | IndexOutOfBoundsException
    | ClassCastException
    | ApplicationContextException
    | RuntimeException
    | StackOverflowError

  /** A Java `null`-able reference. */
  datatype Option<T> = None | Some(value: T)

  /** The outcome of a Java call that returns a value or throws. */
  datatype Result<T> = Ok(value: T) | Err(error: Exception)
  {
    predicate IsFailure() { Err? }
    function PropagateFailure<U>(): Result<U> requires Err? { Err(error) }
    function Extract(): T requires Ok? { value }
  }

  /** The outcome of a Java call that returns nothing or throws. */
  datatype Outcome = Pass | Fail(error: Exception)
  {
    predicate IsFailure() { Fail? }
    function PropagateFailure(): Outcome requires Fail? { this }
  }

  /** Whether a caught exception is a `java.lang.Exception` (every kind but the stack overflow). */
  predicate IsJavaException(e: Exception)
  {
    e != StackOverflowError
  }

  /** A non-empty set has an element. */
  lemma SomeElement<T>(s: set<T>) returns (x: T)
    requires s != {}
    ensures x in s
  {
    if forall y :: y !in s {
      assert false;
    }
    x :| x in s;
  }

  /** Concatenation is associative; stated on opaque sequences so that no definition is unfolded. */
  lemma ConcatAssoc<T>(x: seq<T>, y: seq<T>, z: seq<T>)
    ensures (x + y) + z == x + (y + z)
  {
  }
}
