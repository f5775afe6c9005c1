/** Shared vocabulary: optional values, results, and opaque identifiers. */
module Prelude {

  /** An identifier stored as text. The control plane only compares identifiers
      for equality and order, so a natural number stands for each of them;
      0 stands for the empty text, which every boundary rejects. */
  type Id = nat

  /** The largest integer that every number type of the control plane holds exactly. */
  const MAX_SAFE_INTEGER: nat := 9007199254740991

  datatype Option<+T> = None | Some(value: T)

  datatype Result<+T, +E> = Ok(value: T) | Err(error: E)

  function Max(a: int, b: int): int {
    if a >= b then a else b
  }

  function Min(a: int, b: int): int {
    if a <= b then a else b
  }

  /** Taking an element out of a finite set lowers its size by one, and by nothing when it
      was not there. */
  lemma SizeWithout<T>(s: set<T>, x: T)
    ensures |s - {x}| == |s| - (if x in s then 1 else 0)
  {
  }

  lemma {:induction false} SizeMonotone<T>(s: set<T>, t: set<T>)
    requires s <= t
    ensures |s| <= |t|
  {
    if s != {} {
      var x :| x in s;
      SizeMonotone(s - {x}, t - {x});
    }
  }
}
