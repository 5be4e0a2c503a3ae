/** Result types shared by the whole model. */
module Basics {

  datatype Option<+T> = None | Some(value: T)

  /** What one step inside the machine can do: succeed, raise the machine's own
      error type, or throw anything else. */
  datatype Outcome<+T, +E> = Ok(value: T) | Err(error: E) | Fault

  /** What a public entry point can do: return, or throw at its caller. */
  datatype Call<+T> = Returns(value: T) | Throws

  predicate Distinct<T(==)>(s: seq<T>) {
    forall i, j | 0 <= i < j < |s| :: s[i] != s[j]
  }

  /** `findIndex`: the first element with this key; the length of the list stands for -1. */
  function IndexOf<T, K(==)>(key: T -> K, xs: seq<T>, k: K): (i: nat)
    ensures i <= |xs|
    ensures i < |xs| ==> key(xs[i]) == k
    ensures forall j | 0 <= j < i :: key(xs[j]) != k
  {
    if xs == [] || key(xs[0]) == k then 0 else 1 + IndexOf(key, xs[1..], k)
  }
}
