/** Failure-carrying values shared by every module: Python's `None`-or-value
    and its exceptions; and the one fact about logs that every module uses. */
module Wrappers {

  datatype Option<+T> = None | Some(value: T)

  /** A value, or the exception that the Python code would raise instead. */
  datatype Result<+T, +E> = Ok(value: T) | Err(error: E)

  /** The outcome of an operation that returns nothing unless it raises. */
  datatype Outcome<+E> = Pass | Fail(error: E)

  /** Extending a log by two pieces extends it by their concatenation. */
  lemma AppendTwice<T>(t: seq<T>, a: seq<T>, b: seq<T>)
    ensures (t + a) + b == t + (a + b)
  {
  }

  /** The first two of four pieces, joined in any grouping, begin the whole. */
  lemma PrefixOfFour<T>(a: seq<T>, b: seq<T>, c: seq<T>, d: seq<T>)
    ensures a + b <= a + (b + c) + d
  {
    assert a + (b + c) + d == (a + b) + (c + d);
  }
}
