/** The initial capacity both integrators give their output list,
    `(int)((t2 - t1) / dt) + 1`: the quotient is cast to a 32-bit `int`,
    which truncates toward zero, one is added, and the list constructor
    throws `ArgumentOutOfRangeException` for a negative capacity. The call
    goes on only when that expression is a valid, non-negative `int`. */
module ListCapacity {

  /** The largest C# `int`. */
  const IntMax: int := 0x7FFF_FFFF

  /** The cast `(int)x` of an in-range number: truncation toward zero. */
  function Truncate(x: real): (r: int)
    ensures 0.0 <= x ==> 0 <= r && r as real <= x < r as real + 1.0
    ensures x < 0.0 ==> r <= 0 && r as real - 1.0 < x <= r as real
  {
    if x >= 0.0 then x.Floor else -((-x).Floor)
  }

  /** The capacity expression, computed without a width limit. */
  function Capacity(t1: real, t2: real, dt: real): int
    requires dt != 0.0
  {
    Truncate((t2 - t1) / dt) + 1
  }

  /** The list is created: the quotient is a number (dt is not zero) and
      the capacity lies in 0 .. IntMax, so neither the cast nor the `+ 1`
      leaves the `int` range and the capacity is not negative. */
  predicate CapacityOk(t1: real, t2: real, dt: real)
  {
    dt != 0.0 && -2.0 < (t2 - t1) / dt < IntMax as real
  }

  /** `CapacityOk` is exactly "the capacity expression is a non-negative
      `int`". */
  lemma CapacityOkMeans(t1: real, t2: real, dt: real)
    requires dt != 0.0
    ensures CapacityOk(t1, t2, dt) <==> 0 <= Capacity(t1, t2, dt) <= IntMax
  {
    var q := (t2 - t1) / dt;
    var n := Truncate(q);
    if -2.0 < q < IntMax as real {
      assert -1 <= n <= IntMax - 1;
    }
    if 0 <= n + 1 <= IntMax {
      assert -2.0 < q < IntMax as real;
    }
  }

  /** With a positive step and t1 past t2 the list is created only while
      t1 - t2 < 2 dt: otherwise the capacity is negative. */
  lemma ReversedInterval(t1: real, t2: real, dt: real)
    requires dt > 0.0 && t1 > t2
    ensures CapacityOk(t1, t2, dt) <==> t1 - t2 < 2.0 * dt
  {
    var q := (t2 - t1) / dt;
    assert q * dt == t2 - t1;
    assert q < 0.0;
  }
}
