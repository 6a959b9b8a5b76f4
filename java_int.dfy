/** Java's 32-bit `int`: the value range, two's-complement wrap-around and
    division that truncates toward zero. */
module JavaInt {

  const MIN_VALUE: int := -0x8000_0000
  const MAX_VALUE: int := 0x7fff_ffff
  const MODULUS: int := 0x1_0000_0000

  type Int32 = x: int | MIN_VALUE <= x <= MAX_VALUE

  function Abs(x: int): nat
  {
    if x < 0 then -x else x
  }

  /** The 32-bit result Java keeps of an exact integer result. */
  function Wrap(x: int): (r: Int32)
    ensures MIN_VALUE <= x <= MAX_VALUE ==> r == x
    ensures (x - r) % MODULUS == 0
  {
    (x - MIN_VALUE) % MODULUS + MIN_VALUE
  }

  /** Integer division rounding toward zero, as Java's `/` does before it wraps:
      the magnitude is the floor of |a| / |b|, the sign that of a * b. The
      remainder left over is smaller than the divisor in magnitude and is zero
      or carries the dividend's sign, and the quotient is never larger than
      the dividend in magnitude. */
  function Quot(a: int, b: int): (q: int)
    requires b != 0
    ensures Abs(a - q * b) < Abs(b)
    ensures a - q * b == 0 || (a - q * b < 0) == (a < 0)
    ensures Abs(q) <= Abs(a)
  {
    var q := if (a < 0) == (b < 0) then Abs(a) / Abs(b) else -(Abs(a) / Abs(b));
    TruncatedRemainder(a, b, q);
    q
  }

  /** The remainder facts behind Quot, from the Euclidean division of the
      magnitudes. */
  lemma TruncatedRemainder(a: int, b: int, q: int)
    requires b != 0
    requires q == if (a < 0) == (b < 0) then Abs(a) / Abs(b) else -(Abs(a) / Abs(b))
    ensures Abs(a - q * b) < Abs(b)
    ensures a - q * b == 0 || (a - q * b < 0) == (a < 0)
    ensures Abs(q) <= Abs(a)
  {
    var x, y := Abs(a), Abs(b);
    var d, m := x / y, x % y;
    assert x == y * d + m && 0 <= m < y;
    MulGrows(y, d);
    var p: int := y * d;
    if b > 0 {
      assert q * b == (if a < 0 then -p else p);
    } else {
      assert q * b == (if a < 0 then -p else p);
    }
  }

  /** Multiplying by a positive natural never shrinks a natural. */
  lemma MulGrows(y: nat, d: nat)
    requires y > 0
    ensures y * d >= d
  {
    assert (y - 1) * d >= 0;
    assert y * d == (y - 1) * d + d;
  }

  function Add(a: Int32, b: Int32): Int32 { Wrap(a + b) }
  function Sub(a: Int32, b: Int32): Int32 { Wrap(a - b) }
  function Mul(a: Int32, b: Int32): Int32 { Wrap(a * b) }
  /** Java's `a / b` on ints: the truncated quotient, except that
      MIN_VALUE / -1 overflows back to MIN_VALUE. */
  function Div(a: Int32, b: Int32): (r: Int32)
    requires b != 0
    ensures a == MIN_VALUE && b == -1 ==> r == MIN_VALUE
    ensures !(a == MIN_VALUE && b == -1) ==> r == Quot(a, b)
  {
    Wrap(Quot(a, b))
  }
  function Inc(a: Int32): Int32 { Wrap(a + 1) }
}
