/** The C math library functions the program calls (std::sqrt, sin, cos). They
    are not modelled numerically: they are passed in as values, and the proofs
    rely only on the algebraic facts stated by the predicates below. */
module CMath {

  datatype Libm = Libm(sqrt: real -> real, sin: real -> real, cos: real -> real)
  {
    /** sqrt returns the non-negative square root of a non-negative argument. */
    ghost predicate SqrtExact() {
      forall x: real :: 0.0 <= x ==> 0.0 <= sqrt(x) && sqrt(x) * sqrt(x) == x
    }

    /** sin and cos of the same angle lie on the unit circle. */
    ghost predicate SinCosUnit() {
      forall a: real :: sin(a) * sin(a) + cos(a) * cos(a) == 1.0
    }
  }

  /** An exact square root is zero exactly at zero and positive elsewhere. */
  lemma SqrtPositive(m: Libm, x: real)
    requires m.SqrtExact() && 0.0 <= x
    ensures m.sqrt(x) == 0.0 <==> x == 0.0
    ensures 0.0 < x ==> 0.0 < m.sqrt(x)
  {
    var r := m.sqrt(x);
    assert 0.0 <= r && r * r == x;
    if r == 0.0 {
      calc { x; == r * r; == 0.0; }
    } else {
      calc { x; == r * r; > 0.0; }
    }
  }

  function Min(a: int, b: int): (r: int)
    ensures r <= a && r <= b && (r == a || r == b)
  {
    if a < b then a else b
  }

  function Max(a: int, b: int): (r: int)
    ensures a <= r && b <= r && (r == a || r == b)
  {
    if a < b then b else a
  }

  function MinReal(a: real, b: real): (r: real)
    ensures r <= a && r <= b && (r == a || r == b)
  {
    if a < b then a else b
  }

  function MaxReal(a: real, b: real): (r: real)
    ensures a <= r && b <= r && (r == a || r == b)
  {
    if a < b then b else a
  }

  /** static_cast<int> of a double: truncation toward zero. */
  function TruncToInt(x: real): (n: int)
    ensures 0.0 <= x ==> (n as real) <= x < (n as real) + 1.0
    ensures x < 0.0 ==> (n as real) - 1.0 < x <= (n as real)
  {
    if 0.0 <= x then x.Floor else -((-x).Floor)
  }
}
