/** Go's integer division and remainder, which truncate toward zero
    (Dafny's `/` and `%` are Euclidean). */
module GoInt {

  /** Euclidean division of non-negative by positive numbers, as Dafny
      defines it. */
  lemma DivBounds(a: int, b: int)
    requires a >= 0 && b > 0
    ensures a / b >= 0
    ensures (a / b) * b <= a < (a / b) * b + b
  {
  }

  /** The magnitude of `x`. */
  function Abs(x: int): int {
    if x >= 0 then x else -x
  }

  /** Go's `a / b` for `b != 0`: the quotient of the magnitudes, rounded
      toward zero, with the sign of `a * b`. */
  function Quot(a: int, b: int): (q: int)
    requires b != 0
    ensures (a >= 0) == (b > 0) ==> q >= 0
    ensures (a >= 0) != (b > 0) ==> q <= 0
    ensures Abs(a) - Abs(b) < Abs(q) * Abs(b) <= Abs(a)
    ensures a >= 0 && b > 0 ==> q * b <= a < q * b + b
  {
    if a >= 0 && b > 0 then DivBounds(a, b); a / b
    else if a < 0 && b < 0 then DivBounds(-a, -b); (-a) / (-b)
    else if a < 0 then DivBounds(-a, b); -((-a) / b)
    else DivBounds(a, -b); -(a / (-b))
  }

  lemma MulNeg(n: int, y: int)
    ensures n * (-y) == -(n * y) && (-n) * y == -(n * y) && (-n) * (-y) == n * y
  {
  }

  /** Go's quotient times the divisor is the magnitudes' product, signed
      as `a`. */
  lemma QuotOfMagnitudes(a: int, b: int)
    requires b != 0
    ensures Abs(a) == (Abs(a) / Abs(b)) * Abs(b) + Abs(a) % Abs(b)
    ensures Quot(a, b) * b == if a >= 0 then (Abs(a) / Abs(b)) * Abs(b) else -((Abs(a) / Abs(b)) * Abs(b))
  {
    var x, y := Abs(a), Abs(b);
    var n := x / y;
    MulNeg(n, y);
    if a >= 0 && b > 0 {
      assert x == a && y == b && Quot(a, b) == n;
    } else if a < 0 && b < 0 {
      assert x == -a && y == -b && Quot(a, b) == n;
    } else if a < 0 {
      assert x == -a && y == b && Quot(a, b) == -n;
    } else {
      assert x == a && y == -b && Quot(a, b) == -n;
    }
  }

  /** Go's `a % b` for `b != 0`: the remainder of the magnitudes, with the
      sign of `a`; it completes Go's quotient. */
  function Rem(a: int, b: int): (r: int)
    requires b != 0
    ensures a == Quot(a, b) * b + r
    ensures a >= 0 ==> 0 <= r < Abs(b)
    ensures a < 0 ==> r <= 0 && -r < Abs(b)
  {
    QuotOfMagnitudes(a, b);
    var m := Abs(a) % Abs(b);
    if a >= 0 then m else -m
  }
}
