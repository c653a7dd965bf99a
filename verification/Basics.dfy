/** Small notions shared by the models. */
module Basics {

  datatype Option<+T> = None | Some(value: T)

  /** Go's conversion to int, and decimal's IntPart: truncation toward zero. */
  function Truncate(x: real): int { if x >= 0.0 then x.Floor else -((-x).Floor) }

  /** The integer part: the distance to x is less than one, and never away from zero. */
  lemma TruncateFacts(x: real)
    ensures x >= 0.0 ==> Truncate(x) as real <= x < Truncate(x) as real + 1.0
    ensures x <= 0.0 ==> Truncate(x) as real - 1.0 < x <= Truncate(x) as real
  {
  }

  /** floatEpsilon of controller/ratio_sync.go. */
  const EPSILON := 0.000000001

  predicate NearlyEqual(a: real, b: real) { if a > b then a - b < EPSILON else b - a < EPSILON }

  function Items<T>(xs: seq<T>): set<T> { set x | x in xs }

  /** Some element of a non-empty set. */
  method Pick<T>(s: set<T>) returns (x: T)
    requires s != {}
    ensures x in s
  {
    x :| x in s;
  }

  lemma EmptyItems<T>(xs: seq<T>)
    ensures Items(xs) == {} <==> xs == []
  {
    if xs != [] { assert xs[0] in Items(xs); }
  }
}
