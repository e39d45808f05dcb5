/** Three-component vectors over the reals (class Vec3 of the source). */
module Vectors {
  import opened CMath

  datatype Vec3 = Vec3(x: real, y: real, z: real)
  {
    /** -v: the additive inverse. */
    function Neg(): Vec3
    {
      Vec3(-x, -y, -z)
    }

    /** v + u */
    function Add(v: Vec3): Vec3
    {
      Vec3(x + v.x, y + v.y, z + v.z)
    }

    /** v - u, which is v + (-u). */
    function Sub(v: Vec3): (r: Vec3)
    {
      Vec3(x - v.x, y - v.y, z - v.z)
    }

    /** v * t */
    function Scale(t: real): (r: Vec3)
    {
      Vec3(x * t, y * t, z * t)
    }

    /** v / t */
    function Div(t: real): (r: Vec3)
      requires t != 0.0
      ensures r.Scale(t) == this
    {
      Vec3(x / t, y / t, z / t)
    }

    function LengthSquared(): (r: real)
      ensures 0.0 <= r && r == Dot(this, this)
    {
      var r := x * x + y * y + z * z;
      SumOfSquares(x, y, z, r);
      r
    }

    /** length(): the square root of length_squared(). */
    function Length(m: Libm): real
    {
      m.sqrt(LengthSquared())
    }

    /** normalized(): v / length(), or the zero vector when the length is zero. */
    function Normalized(m: Libm): (n: Vec3)
    {
      var len := m.sqrt(LengthSquared());
      if len == 0.0 then Vec3(0.0, 0.0, 0.0) else Div(len)
    }
  }

  function Zero(): Vec3 { Vec3(0.0, 0.0, 0.0) }

  /** The square of a real is non-negative, and positive unless the real is zero. */
  lemma SquareSign(a: real)
    ensures 0.0 <= a * a
    ensures a != 0.0 ==> 0.0 < a * a
  {
    if a < 0.0 {
      calc { a * a; == (-a) * (-a); > 0.0; }
    }
  }

  /** A sum t of three squares is non-negative, and zero only when every term is. */
  lemma SumOfSquares(a: real, b: real, c: real, t: real)
    requires t == a * a + b * b + c * c
    ensures 0.0 <= t
    ensures t == 0.0 <==> a == 0.0 && b == 0.0 && c == 0.0
  {
    SquareSign(a);
    SquareSign(b);
    SquareSign(c);
    if a != 0.0 || b != 0.0 || c != 0.0 {
      calc { t; == a * a + b * b + c * c; > 0.0; }
    } else {
      calc { t; == a * a + b * b + c * c; == 0.0; }
    }
    calc { t; == a * a + b * b + c * c; >= 0.0; }
  }

  /** A product of two non-negative reals is non-negative. */
  lemma NonNegativeProduct(a: real, b: real, t: real)
    requires 0.0 <= a && 0.0 <= b && t == a * b
    ensures 0.0 <= t
  {
    calc { t; == a * b; >= 0.0 * b; == 0.0; }
  }

  /** A product of two positive reals is positive. */
  lemma PositiveProduct(a: real, b: real, t: real)
    requires 0.0 < a && 0.0 < b && t == a * b
    ensures 0.0 < t
  {
    calc { t; == a * b; > 0.0 * b; == 0.0; }
  }

  /** A non-positive real divided by a positive one is non-positive. */
  lemma NonPositiveQuotient(n: real, d: real)
    requires n <= 0.0 < d
    ensures n / d <= 0.0
  {
    var q := n / d;
    assert q * d == n;
    if 0.0 < q {
      PositiveProduct(q, d, n);
    }
  }

  /** Only the zero vector has squared length zero. */
  lemma LengthSquaredZero(v: Vec3)
    ensures v.LengthSquared() == 0.0 <==> v == Zero()
  {
    SumOfSquares(v.x, v.y, v.z, v.LengthSquared());
  }

  function Dot(u: Vec3, v: Vec3): real
  {
    u.x * v.x + u.y * v.y + u.z * v.z
  }

  /** cross(u, v) */
  function Cross(u: Vec3, v: Vec3): Vec3
  {
    Vec3(u.y * v.z - u.z * v.y,
         u.z * v.x - u.x * v.z,
         u.x * v.y - u.y * v.x)
  }

  /** t * v, the free operator, agrees with the member v * t. */
  function ScaleLeft(t: real, v: Vec3): (r: Vec3)
    ensures r == v.Scale(t)
  {
    Vec3(t * v.x, t * v.y, t * v.z)
  }

  /** -v is the additive inverse of v. */
  lemma NegCancels(v: Vec3)
    ensures v.Neg().Add(v) == Zero()
  {
  }

  /** Subtraction undoes addition. */
  lemma AddThenSub(u: Vec3, v: Vec3)
    ensures u.Add(v).Sub(v) == u
  {
  }

  /** Negating twice gives the vector back. */
  lemma NegNeg(v: Vec3)
    ensures v.Neg().Neg() == v
  {
  }

  /** u - v is u + (-v), component by component. */
  lemma SubIsAddNeg(u: Vec3, v: Vec3)
    ensures u.Sub(v) == u.Add(v.Neg())
  {
  }

  /** Addition is commutative. */
  lemma AddCommutes(u: Vec3, v: Vec3)
    ensures u.Add(v) == v.Add(u)
  {
  }

  lemma DotCommutes(u: Vec3, v: Vec3)
    ensures Dot(u, v) == Dot(v, u)
  {
  }

  /** Swapping the arguments of cross negates it, so cross(u, u) is zero. */
  lemma CrossAntiSymmetric(u: Vec3, v: Vec3)
    ensures Cross(u, v) == Cross(v, u).Neg()
    ensures Cross(u, u) == Zero()
  {
  }

  /** Scaling a vector by t scales its squared length by t * t. */
  lemma ScaleLengthSquared(v: Vec3, t: real)
    ensures v.Scale(t).LengthSquared() == t * t * v.LengthSquared()
  {
  }

  /** cross(u, v) is orthogonal to both of its arguments. */
  lemma CrossOrthogonal(u: Vec3, v: Vec3)
    ensures Dot(Cross(u, v), u) == 0.0 && Dot(Cross(u, v), v) == 0.0
  {
  }

  lemma CrossZeroRight(p: Vec3)
    ensures Cross(p, Zero()) == Zero()
  {
  }

  lemma CrossZeroLeft(p: Vec3)
    ensures Cross(Zero(), p) == Zero()
  {
  }

  /** (v * a) * b == v * (a * b) */
  lemma VecScaleAssociates(v: Vec3, a: real, b: real)
    ensures v.Scale(a).Scale(b) == v.Scale(a * b)
  {
  }

  /** v * a + v * b == v * (a + b) */
  lemma VecScaleDistributes(v: Vec3, a: real, b: real)
    ensures v.Scale(a).Add(v.Scale(b)) == v.Scale(a + b)
  {
  }

  /** A vector parallel to p (a multiple of it) has zero cross product with p. */
  lemma CrossParallel(p: Vec3, t: real)
    ensures Cross(p, p.Scale(t)) == Zero()
  {
  }

  /** The zero vector normalizes to itself, whatever sqrt returns. */
  lemma NormalizedZero(m: Libm, v: Vec3)
    requires v == Zero()
    ensures v.Normalized(m) == Zero()
  {
    var len := m.sqrt(v.LengthSquared());
    if len != 0.0 {
      ZeroDividedBy(len);
      assert v.Normalized(m) == v.Div(len);
    }
  }

  lemma ZeroDividedBy(t: real)
    requires t != 0.0
    ensures Zero().Div(t) == Zero()
  {
    assert 0.0 / t == 0.0;
  }

  /** If q * k == q for a nonzero q, then k is one. */
  lemma CancelNonZero(q: real, k: real)
    requires q != 0.0 && q * k == q
    ensures k == 1.0
  {
    calc { k; == (q * k) / q; == q / q; == 1.0; }
  }

  /** A nonzero vector has positive length, normalizes to a unit vector, and
      is recovered by scaling its normalization by its length. */
  lemma NormalizedUnit(m: Libm, v: Vec3)
    requires m.SqrtExact() && v != Zero()
    ensures 0.0 < v.Length(m)
    ensures v.Normalized(m).LengthSquared() == 1.0
    ensures v.Normalized(m).Scale(v.Length(m)) == v
  {
    var ls := v.LengthSquared();
    var len := v.Length(m);
    LengthSquaredZero(v);
    SqrtPositive(m, ls);
    assert len * len == ls;
    var n := v.Normalized(m);
    assert n == v.Div(len);
    assert n.Scale(len) == v;
    ScaleLengthSquared(n, len);
    calc {
      (len * len) * n.LengthSquared();
      == n.Scale(len).LengthSquared();
      == v.LengthSquared();
      == len * len;
    }
    SquareSign(len);
    CancelNonZero(len * len, n.LengthSquared());
  }
}
