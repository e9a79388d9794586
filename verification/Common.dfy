/** Small definitions shared by the modules. */
module Common {
  datatype Option<T> = None | Some(value: T)

  /** `n` copies of `x`. */
  function Repeat<T>(n: nat, x: T): (s: seq<T>)
    ensures |s| == n && forall i :: 0 <= i < n ==> s[i] == x
  {
    if n == 0 then [] else [x] + Repeat(n - 1, x)
  }

  predicate Distinct<T(==)>(q: seq<T>) {
    forall i, j {:trigger q[i], q[j]} :: 0 <= i < j < |q| ==> q[i] != q[j]
  }
}
