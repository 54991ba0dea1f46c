/**
 * The few Python built-in behaviours the rest of the model relies on:
 * optional values (`None`), results that may raise, and the indexing rule
 * of Python lists (negative indices count from the end).
 */
module Py {

  datatype Option<+T> = None | Some(value: T)

  /**
   * The exceptions the modelled code can raise; PortNotFound stands for
   * whatever the framework's port lookup raises for a port it does not hold.
   */
  datatype Exception = IndexError | KeyError | TypeError | PortNotFound

  /** A computation that either returns a value or raises. */
  datatype Result<+T> = Success(value: T) | Failure(error: Exception)

  /**
   * Python's rule for `xs[i]` on a list of length `len`: a negative index
   * counts from the end, and anything outside `-len .. len - 1` raises
   * IndexError (None here).
   */
  function ListIndex(i: int, len: nat): (r: Option<nat>)
    ensures r.Some? <==> -(len as int) <= i < len
    ensures r.Some? ==> r.value < len
    ensures r.Some? && i >= 0 ==> r.value == i
    ensures r.Some? && i < 0 ==> r.value as int == len + i
  {
    if 0 <= i < len then Some(i as nat)
    else if -(len as int) <= i < 0 then Some((len + i) as nat)
    else None
  }

  /** True when no element of `s` occurs twice. */
  predicate NoDuplicates<T(==)>(s: seq<T>)
  {
    forall i, j :: 0 <= i < j < |s| ==> s[i] != s[j]
  }

  /** Python's `min(a, b)` on integers. */
  function Min(a: int, b: int): int
  {
    if a <= b then a else b
  }

  /** The number of iterations of `for _ in range(n)`: none when `n` is negative. */
  function RangeLength(n: int): nat
  {
    if n < 0 then 0 else n
  }
}
