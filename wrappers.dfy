/** Failure-carrying results used throughout the loader model. */
module Wrappers {

  datatype Option<+T> = None | Some(value: T)

  datatype Result<+T, +E> = Ok(value: T) | Err(error: E)

  datatype Outcome<+E> = Pass | Fail(error: E)

  /** Every element of `xs` is present. */
  predicate AllSome<T>(xs: seq<Option<T>>)
  {
    forall i :: 0 <= i < |xs| ==> xs[i].Some?
  }

  /** The values carried by a sequence of present options. */
  function Values<T>(xs: seq<Option<T>>): (r: seq<T>)
    requires AllSome(xs)
    ensures |r| == |xs|
    ensures forall i :: 0 <= i < |xs| ==> xs[i] == Some(r[i])
  {
    seq(|xs|, i requires 0 <= i < |xs| => xs[i].value)
  }

  /** The element at position `k`, if there is one: what an iterator's
      `next()` yields after `k` earlier calls. */
  function Nth<T>(xs: seq<T>, k: nat): Option<T>
  {
    if k < |xs| then Some(xs[k]) else None
  }
}
