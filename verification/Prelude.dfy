/** Small shared vocabulary: optional values, results that may carry an exception, and bounds. */
module Prelude {

  datatype Option<+T> = None | Some(value: T)

  /** The outcome of an operation that the source lets raise. */
  datatype Result<+T> = Ok(value: T) | Err(error: string)

  function Min(a: int, b: int): int {
    if a <= b then a else b
  }

  function Max(a: int, b: int): int {
    if a >= b then a else b
  }

  /** No value occurs at two positions. */
  ghost predicate Distinct<T>(s: seq<T>) {
    forall i, j :: 0 <= i < j < |s| ==> s[i] != s[j]
  }

  /** The elements of a sequence, as a set. */
  function Elements<T(==)>(s: seq<T>): set<T> {
    set x | x in s
  }

  /** `xs` with the element at `i` taken out. */
  function Without<T>(xs: seq<T>, i: nat): seq<T>
    requires i < |xs|
  {
    xs[..i] + xs[i + 1..]
  }

  /** A number above all of a finite set. */
  lemma {:induction false} NumberAbove(used: set<nat>) returns (n: nat)
    ensures forall x: nat | x in used :: x < n
  {
    n := 0;
    if used != {} {
      var top: nat :| top in used;
      var m := NumberAbove(used - {top});
      n := if m <= top then top + 1 else m;
      assert forall x: nat | x in used :: x == top || x in used - {top};
    }
  }
}
