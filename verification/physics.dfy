/** The photon state and the equations of motion of light around a
    Schwarzschild black hole (physics.h). */
module Physics {
  import opened CMath
  import opened Vectors
  import opened OdeSolver

  /** A photon: its position and its momentum (direction of travel). */
  datatype PhotonState = PhotonState(pos: Vec3, mom: Vec3)
  {
    /** Component-wise sum of two states. */
    function Add(other: PhotonState): PhotonState
    {
      PhotonState(pos.Add(other.pos), mom.Add(other.mom))
    }

    /** Both components scaled by s. */
    function Scale(s: real): PhotonState
    {
      PhotonState(pos.Scale(s), mom.Scale(s))
    }
  }

  /** The free operator s * p: the member Scale with its operands swapped. */
  function ScaleLeft(s: real, p: PhotonState): PhotonState
  {
    p.Scale(s)
  }

  function ZeroState(): PhotonState { PhotonState(Zero(), Zero()) }

  /** The two operators of PhotonState, as the Runge-Kutta step asks for them. */
  function PhotonOps(): VectorOps<PhotonState>
  {
    VectorOps((a: PhotonState, b: PhotonState) => a.Add(b), (a: PhotonState, s: real) => a.Scale(s))
  }

  lemma PhotonAddZero()
    ensures PhotonOps().AddZero(ZeroState())
  {
    var ops := PhotonOps();
    forall u: PhotonState ensures ops.add(u, ZeroState()) == u {
      assert u.Add(ZeroState()) == u;
    }
  }

  lemma PhotonScaleAssociates()
    ensures PhotonOps().ScaleAssociates()
  {
    var ops := PhotonOps();
    forall u: PhotonState, a: real, b: real
      ensures ops.scale(ops.scale(u, a), b) == ops.scale(u, a * b)
    {
      VecScaleAssociates(u.pos, a, b);
      VecScaleAssociates(u.mom, a, b);
    }
  }

  lemma PhotonScaleDistributes()
    ensures PhotonOps().ScaleDistributes()
  {
    var ops := PhotonOps();
    forall u: PhotonState, a: real, b: real
      ensures ops.add(ops.scale(u, a), ops.scale(u, b)) == ops.scale(u, a + b)
    {
      VecScaleDistributes(u.pos, a, b);
      VecScaleDistributes(u.mom, a, b);
    }
  }

  /** PhotonState with + and * is a real vector space with zero state
      (Vec3(0,0,0), Vec3(0,0,0)): the Runge-Kutta lemmas apply to it. */
  lemma PhotonLaws()
    ensures PhotonOps().Laws(ZeroState())
  {
    var ops := PhotonOps();
    PhotonAddZero();
    assert ops.ScaleZero(ZeroState());
    assert ops.ScaleByZero(ZeroState());
    assert ops.ScaleOne();
    PhotonScaleAssociates();
    PhotonScaleDistributes();
  }

  /** The radius below which the equations are switched off: 0.1 * rs. */
  function GuardRadius(rs: real): real { 0.1 * rs }

  /** The strength of the attraction, -(3/2) rs h^2 / r^5, with h = pos x mom.
      The source divides by r^5 unguarded; where that is zero (only possible
      when rs <= 0 and the photon sits at the origin, a NaN in the source)
      this model returns 0. */
  function Factor(m: Libm, s: PhotonState, rs: real): real
  {
    var r2 := s.pos.LengthSquared();
    var r := m.sqrt(r2);
    var h2 := Cross(s.pos, s.mom).LengthSquared();
    var denom := r2 * r2 * r;
    if denom == 0.0 then 0.0 else -1.5 * rs * h2 / denom
  }

  /** schwarzschild_equations: d(pos)/dl = mom and d(mom)/dl = Factor * pos,
      frozen to zero inside the guard radius. The affine parameter is
      not used. The force is central: it is parallel to the position. */
  function SchwarzschildEquations(m: Libm, s: PhotonState, affine: real, rs: real): (d: PhotonState)
    ensures d.pos == Zero() || d.pos == s.mom
    ensures Cross(s.pos, d.mom) == Zero()
  {
    var r := m.sqrt(s.pos.LengthSquared());
    if r < GuardRadius(rs) then
      CrossZeroRight(s.pos);
      ZeroState()
    else
      CrossParallel(s.pos, Factor(m, s, rs));
      PhotonState(s.mom, s.pos.Scale(Factor(m, s, rs)))
  }

  /** Inside the guard radius both derivatives are exactly zero. */
  lemma GuardFreezes(m: Libm, s: PhotonState, affine: real, rs: real)
    requires m.sqrt(s.pos.LengthSquared()) < GuardRadius(rs)
    ensures SchwarzschildEquations(m, s, affine, rs) == ZeroState()
  {
  }

  /** Outside the guard radius the position moves with the momentum and the
      momentum changes along the position. */
  lemma OutsideGuard(m: Libm, s: PhotonState, affine: real, rs: real)
    requires GuardRadius(rs) <= m.sqrt(s.pos.LengthSquared())
    ensures SchwarzschildEquations(m, s, affine, rs).pos == s.mom
    ensures SchwarzschildEquations(m, s, affine, rs).mom == s.pos.Scale(Factor(m, s, rs))
  {
  }

  /** The equations do not depend on the affine parameter. */
  lemma LambdaIndependent(m: Libm, s: PhotonState, l1: real, l2: real, rs: real)
    ensures SchwarzschildEquations(m, s, l1, rs) == SchwarzschildEquations(m, s, l2, rs)
  {
  }

  /** No torque: the instantaneous change of the angular momentum pos x mom,
      cross(d pos, mom) + cross(pos, d mom), is zero. */
  lemma TorqueFree(m: Libm, s: PhotonState, affine: real, rs: real)
    ensures var d := SchwarzschildEquations(m, s, affine, rs);
            Cross(d.pos, s.mom).Add(Cross(s.pos, d.mom)) == Zero()
  {
    var d := SchwarzschildEquations(m, s, affine, rs);
    CentralRate(s.pos, s.mom, d.pos, d.mom);
  }

  /** The rate of change cross(dp, q) + cross(p, dq) of the angular momentum
      p x q vanishes when p moves along q (or not at all) and dq is parallel to p. */
  lemma CentralRate(p: Vec3, q: Vec3, dp: Vec3, dq: Vec3)
    requires dp == Zero() || dp == q
    requires Cross(p, dq) == Zero()
    ensures Cross(dp, q).Add(Cross(p, dq)) == Zero()
  {
    CrossAntiSymmetric(q, q);
    CrossZeroLeft(q);
    assert Cross(dp, q) == Zero();
  }

  /** The attraction points inward: for rs >= 0 the factor is never positive. */
  lemma FactorNonPositive(m: Libm, s: PhotonState, rs: real)
    requires m.SqrtExact() && 0.0 <= rs
    ensures Factor(m, s, rs) <= 0.0
  {
    var r2 := s.pos.LengthSquared();
    var r := m.sqrt(r2);
    var h2 := Cross(s.pos, s.mom).LengthSquared();
    var denom := r2 * r2 * r;
    if denom != 0.0 {
      assert 0.0 <= r;
      NonNegativeProduct(r2 * r2, r, denom);
      var num := -1.5 * rs * h2;
      NonNegativeProduct(1.5 * rs, h2, -num);
      assert num / denom <= 0.0 by {
        NonPositiveQuotient(num, denom);
      }
    }
  }

  /** For rs > 0 the guard keeps r away from zero, so the source's division is
      defined and the model's fallback is never taken. */
  lemma DivisorPositive(m: Libm, s: PhotonState, rs: real)
    requires m.SqrtExact() && 0.0 < rs
    requires GuardRadius(rs) <= m.sqrt(s.pos.LengthSquared())
    ensures 0.0 < s.pos.LengthSquared() * s.pos.LengthSquared() * m.sqrt(s.pos.LengthSquared())
  {
    var r2 := s.pos.LengthSquared();
    var r := m.sqrt(r2);
    assert 0.0 < r;
    SqrtPositive(m, r2);
    assert 0.0 < r2;
    PositiveProduct(r2, r2, r2 * r2);
    PositiveProduct(r2 * r2, r, r2 * r2 * r);
  }

  /** Without mass (rs = 0) there is no force on a photon away from the
      origin: light travels in straight lines. */
  lemma NoMassNoForce(m: Libm, s: PhotonState, affine: real)
    requires m.SqrtExact() && s.pos != Zero()
    ensures SchwarzschildEquations(m, s, affine, 0.0) == PhotonState(s.mom, Zero())
  {
    assert 0.0 <= m.sqrt(s.pos.LengthSquared());
    assert Factor(m, s, 0.0) == 0.0;
  }
}
