/** Integer helpers shared by the whole model: Go's truncating division,
    absolute value, minimum and maximum. */
module GoInt {

  /** Go's integer `/`: the quotient is truncated toward zero. */
  function Div(a: int, b: int): (q: int)
    requires b != 0
    ensures a >= 0 && b > 0 ==> q == a / b
    ensures b == 2 ==> Abs(a) - 1 <= Abs(q) + Abs(q) <= Abs(a)
    ensures b == 2 ==> (a >= 0 ==> q >= 0) && (a <= 0 ==> q <= 0)
  {
    if (a >= 0) == (b > 0) then Abs(a) / Abs(b) else -(Abs(a) / Abs(b))
  }

  /** Go's integer `%`: the remainder has the sign of the dividend. */
  function Rem(a: int, b: int): (r: int)
    requires b != 0
    ensures a == Div(a, b) * b + r
    ensures Abs(r) < Abs(b)
    ensures a >= 0 ==> r >= 0
    ensures a <= 0 ==> r <= 0
  {
    RemBounds(a, b);
    a - Div(a, b) * b
  }

  /** The remainder left by truncating division is the Euclidean one of
      the magnitudes, carrying the dividend's sign. */
  lemma RemBounds(a: int, b: int)
    requires b != 0
    ensures a >= 0 ==> a - Div(a, b) * b == Abs(a) % Abs(b)
    ensures a < 0 ==> a - Div(a, b) * b == -(Abs(a) % Abs(b))
  {
    if b > 0 {
      RemPositiveDivisor(a, b);
    } else {
      RemNegativeDivisor(a, b);
    }
  }

  lemma RemPositiveDivisor(a: int, b: int)
    requires b > 0
    ensures a >= 0 ==> a - Div(a, b) * b == Abs(a) % b
    ensures a < 0 ==> a - Div(a, b) * b == -(Abs(a) % b)
  {
    var q := Abs(a) / b;
    assert Abs(a) == q * b + Abs(a) % b;
    if a < 0 {
      assert Div(a, b) == -q;
      assert -q * b == -(q * b);
    }
  }

  lemma RemNegativeDivisor(a: int, b: int)
    requires b < 0
    ensures a >= 0 ==> a - Div(a, b) * b == Abs(a) % Abs(b)
    ensures a < 0 ==> a - Div(a, b) * b == -(Abs(a) % Abs(b))
  {
    var c := Abs(b);
    assert b == -c;
    var q := Abs(a) / c;
    assert Abs(a) == q * c + Abs(a) % c;
    MulNeg(q, c);
    if a >= 0 {
      assert Div(a, b) == -q;
      MulNeg(-q, c);
    } else {
      assert Div(a, b) == q;
    }
  }

  lemma MulNeg(q: int, c: int)
    ensures q * -c == -(q * c)
  {
  }

  function Abs(x: int): (r: int)
    ensures r >= 0 && (r == x || r == -x)
  {
    if x < 0 then -x else x
  }

  function Max(a: int, b: int): (r: int)
    ensures r >= a && r >= b && (r == a || r == b)
  {
    if a > b then a else b
  }

  function Min(a: int, b: int): (r: int)
    ensures r <= a && r <= b && (r == a || r == b)
  {
    if a < b then a else b
  }

  /** A float converted to an integer, as Go's `int(x)` and Python's
      `int(x)` both do it: truncation toward zero. */
  function Trunc(x: real): (r: int)
    ensures x >= 0.0 ==> r >= 0 && r as real <= x < r as real + 1.0
    ensures x <= 0.0 ==> r <= 0 && r as real - 1.0 < x <= r as real
  {
    if x >= 0.0 then x.Floor else -((-x).Floor)
  }

  /** A 64-bit signed result: the value reduced to two's complement, as
      Go's `int64` multiplication wraps on overflow. */
  function Wrap64(x: int): (r: int)
    ensures -0x8000_0000_0000_0000 <= r < 0x8000_0000_0000_0000
    ensures -0x8000_0000_0000_0000 <= x < 0x8000_0000_0000_0000 ==> r == x
    ensures (x - r) % 0x1_0000_0000_0000_0000 == 0
  {
    (x + 0x8000_0000_0000_0000) % 0x1_0000_0000_0000_0000 - 0x8000_0000_0000_0000
  }

  /** Truncating halving, the most common use of `Div` in the sources. */
  lemma HalfBounds(a: int)
    ensures a >= 0 ==> 0 <= Div(a, 2) <= a && Div(a, 2) + Div(a, 2) <= a
    ensures a <= 0 ==> a <= Div(a, 2) <= 0 && Div(a, 2) + Div(a, 2) >= a
    ensures a - Div(a, 2) - Div(a, 2) == Rem(a, 2)
  {
  }
}

/** The optional value used where the sources return nil. */
module Wrappers {
  datatype Option<T> = None | Some(value: T)

  /** A value or the error message a Go function returns beside it. */
  datatype Result<T> = Ok(value: T) | Err(error: string)
}
