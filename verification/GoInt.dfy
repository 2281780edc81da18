/** The fixed-width integer arithmetic of Go that the queue relies on: signed
    64-bit wrap-around, and division that truncates toward zero. */
module GoInt {
  const TWO_63: int := 0x8000_0000_0000_0000
  const TWO_64: int := 0x1_0000_0000_0000_0000
  const MAX_INT64: int := TWO_63 - 1
  const MAX_UINT64: int := TWO_64 - 1

  predicate IsInt64(x: int) {
    -TWO_63 <= x < TWO_63
  }

  /** The int64 with the same low 64 bits as `x`. */
  function WrapInt64(x: int): (r: int)
    ensures IsInt64(r)
    ensures IsInt64(x) ==> r == x
  {
    (x + TWO_63) % TWO_64 - TWO_63
  }

  /** The uint64 with the same low 64 bits as `x`. */
  function WrapUint64(x: int): (r: int)
    ensures 0 <= r < TWO_64
    ensures 0 <= x < TWO_64 ==> r == x
  {
    x % TWO_64
  }

  /** Multiples of 2^64 do not matter. */
  lemma Wraps(n: int, q: int)
    ensures IsInt64(q) ==> WrapInt64(n * TWO_64 + q) == q
    ensures 0 <= q < TWO_64 ==> WrapUint64(n * TWO_64 + q) == q
  {
    if IsInt64(q) { Remainder(n, q + TWO_63); }
    if 0 <= q < TWO_64 { Remainder(n, q); }
  }

  lemma Remainder(n: int, r: int)
    requires 0 <= r < TWO_64
    ensures (n * TWO_64 + r) % TWO_64 == r
  {
    var x := n * 0x1_0000_0000_0000_0000 + r;
    var quotient := x / 0x1_0000_0000_0000_0000;
    assert x == quotient * 0x1_0000_0000_0000_0000 + x % 0x1_0000_0000_0000_0000;
    assert quotient == n;
  }

  /** Go's `/`: the quotient rounded toward zero. */
  function TruncDiv(a: int, b: int): int
    requires b > 0
  {
    if a >= 0 then a / b else -(-a / b)
  }

  /** Go's `%`: the remainder has the sign of the dividend. */
  function TruncMod(a: int, b: int): (m: int)
    requires b > 0
    ensures a == TruncDiv(a, b) * b + m
    ensures a >= 0 ==> 0 <= m < b
    ensures a < 0 ==> -b < m <= 0
  {
    a - TruncDiv(a, b) * b
  }
}
