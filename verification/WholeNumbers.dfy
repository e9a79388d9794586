/** Division by a variable, which the other modules take one fact at a time. */
module WholeNumbers {
  function TwoTo(k: nat): (n: nat)
    ensures n > 0
  {
    if k == 0 then 1 else 2 * TwoTo(k - 1)
  }

  lemma {:induction false} MulMonotone(a: int, b: int, c: int)
    requires a <= b && 0 <= c
    ensures a * c <= b * c
  {
    assert (b - a) * c >= 0;
    assert (b - a) * c == b * c - a * c;
  }

  lemma {:induction false} MulNext(a: int, b: int, c: int)
    requires a < b && 0 <= c
    ensures a * c + c <= b * c
  {
    MulMonotone(a + 1, b, c);
    assert (a + 1) * c == a * c + c;
  }

  /** Quotient and remainder are unique. */
  lemma {:induction false} DivUnique(a: int, b: int, q: int, r: int)
    requires 0 <= r < b && a == q * b + r
    ensures a / b == q && a % b == r
  {
    var p := a / b;
    assert a == p * b + a % b;
    if p < q {
      MulNext(p, q, b);
    } else if q < p {
      MulNext(q, p, b);
    }
  }

  lemma {:induction false} DivExact(q: int, b: int)
    requires 0 < b
    ensures q * b / b == q && q * b % b == 0
  {
    DivUnique(q * b, b, q, 0);
  }

  lemma {:induction false} DivMonotone(a: int, c: int, b: int)
    requires a <= c && 0 < b
    ensures a / b <= c / b
  {
    var p, q := a / b, c / b;
    assert a == p * b + a % b && c == q * b + c % b;
    if q < p {
      MulNext(q, p, b);
    }
  }

  lemma {:induction false} DivNonNegative(a: int, b: int)
    requires 0 <= a && 0 < b
    ensures 0 <= a / b
  {
    DivExact(0, b);
    DivMonotone(0, a, b);
  }

  lemma {:induction false} DivBelow(a: int, b: int, c: int)
    requires 0 < c && a < b * c
    ensures a / c < b
  {
    var q := a / c;
    assert a == q * c + a % c;
    if b <= q {
      MulMonotone(b, q, c);
    }
  }

  lemma {:induction false} DivShift(m: int, b: int, r: int)
    requires 0 < b
    ensures (m * b + r) / b == m + r / b && (m * b + r) % b == r % b
  {
    assert r == r / b * b + r % b;
    assert (m + r / b) * b == m * b + r / b * b;
    DivUnique(m * b + r, b, m + r / b, r % b);
  }

  lemma {:induction false} DivDiv(a: int, b: int, c: int)
    requires 0 < b && 0 < c
    ensures 0 < b * c && a / b / c == a / (b * c)
  {
    var q, r := a / b, a % b;
    var p, s := q / c, q % c;
    MulMonotone(1, b, c);
    assert a == (p * c + s) * b + r;
    assert (p * c + s) * b == p * (b * c) + s * b;
    MulNext(s, c, b);
    assert b * c == c * b;
    MulMonotone(0, s, b);
    DivUnique(a, b * c, p, s * b + r);
  }

  /** The digits of a number do not depend on those above them. */
  lemma {:induction false} LowDigits(a: int, unit: int, size: int, more: int)
    requires 0 < unit && 0 < size && 0 < more
    ensures 0 < unit * (size * more)
    ensures a % (unit * (size * more)) / unit % size == a / unit % size
  {
    MulMonotone(1, size, more);
    MulMonotone(1, unit, size * more);
    var whole := unit * (size * more);
    var q, r := a / whole, a % whole;
    assert a == q * whole + r;
    assert q * whole == (q * more * size) * unit;
    DivShift(q * more * size, unit, r);
    DivShift(q * more, size, r / unit);
  }

  /** A number made of three digits. */
  lemma {:induction false} ThreeDigits(high: int, mid: int, low: int, top: int, size: int, unit: int)
    requires 0 <= high < top && 0 <= mid < size && 0 <= low < unit
    ensures 0 <= (high * size + mid) * unit + low < top * size * unit
  {
    MulNext(high, top, size);
    MulMonotone(0, high, size);
    MulNext(high * size + mid, top * size, unit);
    MulMonotone(0, high * size + mid, unit);
  }
}
