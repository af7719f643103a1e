/** Go's int64 and the two operations on it that the planner uses. */
module Int64s {
  const MIN: int := -0x8000_0000_0000_0000
  const MAX: int := 0x7fff_ffff_ffff_ffff
  const SPAN: int := 0x1_0000_0000_0000_0000

  type Int64 = x: int | MIN <= x <= MAX

  /** Two's-complement subtraction. */
  function Sub64(a: Int64, b: Int64): Int64 {
    var d := a - b;
    if d > MAX then d - SPAN else if d < MIN then d + SPAN else d
  }

  /** `abs` of plan.go: negating the smallest int64 gives it back. */
  function Abs64(x: Int64): Int64 {
    if x < 0 && x != MIN then -x else x
  }

  function Abs(x: int): nat {
    if x < 0 then -x else x
  }

  /**
   Exactly when the code's test `abs(a - b) > tol` means what it says: always while the
   true distance fits in an int64, and beyond that only when the wrapped distance is still large.
   */
  lemma FarExactlyWhen(a: Int64, b: Int64, tol: Int64)
    requires tol >= 0
    ensures (Abs64(Sub64(a, b)) > tol) == (Abs(a - b) > tol) <==>
            Abs(a - b) <= MAX || (Abs(a - b) > MAX + 1 && SPAN - Abs(a - b) > tol)
  {
  }

  /** Wrapped distance does not depend on the order of its operands, even at the smallest int64. */
  lemma DistanceSymmetric(a: Int64, b: Int64)
    ensures Abs64(Sub64(a, b)) == Abs64(Sub64(b, a))
  {
  }
}
