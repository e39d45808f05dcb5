/** The classical fourth-order Runge-Kutta step (rk4_step), generic over the
    state type: any type with an addition and a scaling by a real will do. */
module OdeSolver {

  /** The two operators rk4_step asks of its State type: x + y and x * s. */
  datatype VectorOps<!S(!new)> = VectorOps(add: (S, S) -> S, scale: (S, real) -> S)
  {
    /** The vector-space laws (with `zero` as the additive identity) that the
        properties of the step below rely on. */
    ghost predicate Laws(zero: S)
    {
      AddZero(zero) && ScaleZero(zero) && ScaleByZero(zero) && ScaleOne()
      && ScaleDistributes() && ScaleAssociates()
    }

    /** zero is a right identity of the addition. */
    ghost predicate AddZero(zero: S) { forall u :: add(u, zero) == u }

    /** Scaling zero gives zero. */
    ghost predicate ScaleZero(zero: S) { forall a :: scale(zero, a) == zero }

    /** Scaling by 0.0 gives zero. */
    ghost predicate ScaleByZero(zero: S) { forall u :: scale(u, 0.0) == zero }

    /** Scaling by 1.0 is the identity. */
    ghost predicate ScaleOne() { forall u :: scale(u, 1.0) == u }

    /** u * a + u * b == u * (a + b) */
    ghost predicate ScaleDistributes()
    {
      forall u, a, b :: add(scale(u, a), scale(u, b)) == scale(u, a + b)
    }

    /** (u * a) * b == u * (a * b) */
    ghost predicate ScaleAssociates()
    {
      forall u, a, b :: scale(scale(u, a), b) == scale(u, a * b)
    }
  }

  /** One step of length dt from state x at time t of dx/dt = f(x, t): the four
      slopes k1..k4 are combined with weights 1, 2, 2, 1 and scaled by dt / 6. */
  function Rk4Step<S(!new)>(ops: VectorOps<S>, x: S, t: real, dt: real, f: (S, real) -> S): S
  {
    var k1 := f(x, t);
    var k2 := f(ops.add(x, ops.scale(k1, dt * 0.5)), t + dt * 0.5);
    var k3 := f(ops.add(x, ops.scale(k2, dt * 0.5)), t + dt * 0.5);
    var k4 := f(ops.add(x, ops.scale(k3, dt)), t + dt);
    var sum := ops.add(ops.add(ops.add(k1, ops.scale(k2, 2.0)), ops.scale(k3, 2.0)), k4);
    ops.add(x, ops.scale(sum, dt / 6.0))
  }

  /** The step samples f only at times t, t + dt/2 and t + dt: two rate functions
      that agree at those times give the same step. */
  lemma StageTimes<S(!new)>(ops: VectorOps<S>, x: S, t: real, dt: real, f: (S, real) -> S, g: (S, real) -> S)
    requires forall y, s :: s == t || s == t + dt * 0.5 || s == t + dt ==> f(y, s) == g(y, s)
    ensures Rk4Step(ops, x, t, dt, f) == Rk4Step(ops, x, t, dt, g)
  {
    var k1 := f(x, t);
    assert k1 == g(x, t);
    var k2 := f(ops.add(x, ops.scale(k1, dt * 0.5)), t + dt * 0.5);
    assert k2 == g(ops.add(x, ops.scale(k1, dt * 0.5)), t + dt * 0.5);
    var k3 := f(ops.add(x, ops.scale(k2, dt * 0.5)), t + dt * 0.5);
    assert k3 == g(ops.add(x, ops.scale(k2, dt * 0.5)), t + dt * 0.5);
    assert f(ops.add(x, ops.scale(k3, dt)), t + dt) == g(ops.add(x, ops.scale(k3, dt)), t + dt);
  }

  /** At a fixed point of the flow (every slope is zero) the step stays put. */
  lemma ZeroSlope<S(!new)>(ops: VectorOps<S>, zero: S, x: S, t: real, dt: real, f: (S, real) -> S)
    requires ops.AddZero(zero) && ops.ScaleZero(zero)
    requires forall y, s :: f(y, s) == zero
    ensures Rk4Step(ops, x, t, dt, f) == x
  {
    var k1 := f(x, t);
    var k2 := f(ops.add(x, ops.scale(k1, dt * 0.5)), t + dt * 0.5);
    var k3 := f(ops.add(x, ops.scale(k2, dt * 0.5)), t + dt * 0.5);
    var k4 := f(ops.add(x, ops.scale(k3, dt)), t + dt);
    assert k1 == zero && k2 == zero && k3 == zero && k4 == zero;
    var sum := ops.add(ops.add(ops.add(k1, ops.scale(k2, 2.0)), ops.scale(k3, 2.0)), k4);
    calc {
      sum;
      == ops.add(ops.add(ops.add(zero, ops.scale(zero, 2.0)), ops.scale(zero, 2.0)), zero);
      == ops.add(ops.add(ops.add(zero, zero), zero), zero);
      == zero;
    }
    calc {
      Rk4Step(ops, x, t, dt, f);
      == ops.add(x, ops.scale(sum, dt / 6.0));
      == ops.add(x, ops.scale(zero, dt / 6.0));
      == ops.add(x, zero);
      == x;
    }
  }

  /** A state at which every slope is zero is a fixed point of the step: k1 is
      zero, so every stage is evaluated at x itself. */
  lemma RestPoint<S(!new)>(ops: VectorOps<S>, zero: S, x: S, t: real, dt: real, f: (S, real) -> S)
    requires ops.AddZero(zero) && ops.ScaleZero(zero)
    requires forall s :: f(x, s) == zero
    ensures Rk4Step(ops, x, t, dt, f) == x
  {
    var k1 := f(x, t);
    assert k1 == zero;
    assert ops.add(x, ops.scale(k1, dt * 0.5)) == x;
    var k2 := f(x, t + dt * 0.5);
    assert k2 == zero;
    var k3 := f(ops.add(x, ops.scale(k2, dt * 0.5)), t + dt * 0.5);
    assert k3 == zero;
    assert ops.add(x, ops.scale(k3, dt)) == x;
    var k4 := f(x, t + dt);
    assert k4 == zero;
    var sum := ops.add(ops.add(ops.add(k1, ops.scale(k2, 2.0)), ops.scale(k3, 2.0)), k4);
    assert sum == zero;
  }

  /** A step of length zero leaves the state unchanged, whatever the slopes. */
  lemma ZeroStep<S(!new)>(ops: VectorOps<S>, zero: S, x: S, t: real, f: (S, real) -> S)
    requires ops.AddZero(zero) && ops.ScaleByZero(zero)
    ensures Rk4Step(ops, x, t, 0.0, f) == x
  {
    var k1 := f(x, t);
    var k2 := f(ops.add(x, ops.scale(k1, 0.0 * 0.5)), t + 0.0 * 0.5);
    var k3 := f(ops.add(x, ops.scale(k2, 0.0 * 0.5)), t + 0.0 * 0.5);
    var k4 := f(ops.add(x, ops.scale(k3, 0.0)), t + 0.0);
    var sum := ops.add(ops.add(ops.add(k1, ops.scale(k2, 2.0)), ops.scale(k3, 2.0)), k4);
    calc {
      Rk4Step(ops, x, t, 0.0, f);
      == ops.add(x, ops.scale(sum, 0.0 / 6.0));
      == ops.add(x, ops.scale(sum, 0.0));
      == ops.add(x, zero);
      == x;
    }
  }

  /** The weights 1, 2, 2, 1 of the four slopes add up to 6. */
  lemma WeightSum<S(!new)>(ops: VectorOps<S>, c: S)
    requires ops.ScaleOne() && ops.ScaleDistributes()
    ensures ops.add(ops.add(ops.add(c, ops.scale(c, 2.0)), ops.scale(c, 2.0)), c) == ops.scale(c, 6.0)
  {
    var c1 := ops.scale(c, 1.0);
    assert c1 == c;
    var c3 := ops.add(c1, ops.scale(c, 2.0));
    assert c3 == ops.scale(c, 3.0);
    var c5 := ops.add(c3, ops.scale(c, 2.0));
    assert c5 == ops.scale(c, 5.0);
    assert ops.add(c5, c1) == ops.scale(c, 6.0);
  }

  /** With a constant slope c the method is exact: one step moves x by c * dt. */
  lemma ConstantSlope<S(!new)>(ops: VectorOps<S>, x: S, c: S, t: real, dt: real, f: (S, real) -> S)
    requires ops.ScaleOne() && ops.ScaleDistributes() && ops.ScaleAssociates()
    requires forall y, s :: f(y, s) == c
    ensures Rk4Step(ops, x, t, dt, f) == ops.add(x, ops.scale(c, dt))
  {
    var k1 := f(x, t);
    var k2 := f(ops.add(x, ops.scale(k1, dt * 0.5)), t + dt * 0.5);
    var k3 := f(ops.add(x, ops.scale(k2, dt * 0.5)), t + dt * 0.5);
    var k4 := f(ops.add(x, ops.scale(k3, dt)), t + dt);
    assert k1 == c && k2 == c && k3 == c && k4 == c;
    var sum := ops.add(ops.add(ops.add(k1, ops.scale(k2, 2.0)), ops.scale(k3, 2.0)), k4);
    WeightSum(ops, c);
    assert sum == ops.scale(c, 6.0);
    assert 6.0 * (dt / 6.0) == dt;
    assert ops.scale(sum, dt / 6.0) == ops.scale(c, dt);
  }

  /** The reals, with + and *, as a state type. */
  function RealOps(): VectorOps<real>
  {
    VectorOps((u: real, v: real) => u + v, (u: real, a: real) => u * a)
  }

  /** Real multiplication is associative: (u * a) * b == u * (a * b). */
  lemma RealScaleAssociates()
    ensures RealOps().ScaleAssociates()
  {
    var ops := RealOps();
    forall u: real, a: real, b: real
      ensures ops.scale(ops.scale(u, a), b) == ops.scale(u, a * b)
    {
      calc { ops.scale(ops.scale(u, a), b); == (u * a) * b; == u * (a * b); }
    }
  }

  /** Real multiplication distributes over addition: u * a + u * b == u * (a + b). */
  lemma RealScaleDistributes()
    ensures RealOps().ScaleDistributes()
  {
    var ops := RealOps();
    forall u: real, a: real, b: real
      ensures ops.add(ops.scale(u, a), ops.scale(u, b)) == ops.scale(u, a + b)
    {
      calc { ops.add(ops.scale(u, a), ops.scale(u, b)); == u * a + u * b; == u * (a + b); }
    }
  }

  /** The reals satisfy the laws the step relies on. */
  lemma RealLaws()
    ensures RealOps().Laws(0.0)
  {
    var ops := RealOps();
    assert ops.AddZero(0.0);
    assert ops.ScaleZero(0.0);
    assert ops.ScaleByZero(0.0);
    assert ops.ScaleOne();
    RealScaleAssociates();
    RealScaleDistributes();
  }

  /** The Taylor polynomial of exp(h) of degree four. */
  function Taylor4(h: real): real
  {
    1.0 + h + h * h / 2.0 + h * h * h / 6.0 + h * h * h * h / 24.0
  }

  /** The rate function of the scalar linear equation dx/dt = k * x. */
  function LinearRate(k: real): (real, real) -> real
  {
    (y: real, s: real) => k * y
  }

  /** On the scalar linear equation dx/dt = k * x, one step multiplies x by the
      Taylor polynomial of exp(h) of degree four, h = k * dt: the method is of
      fourth order. */
  lemma LinearGrowth(x: real, t: real, dt: real, k: real)
    ensures Rk4Step(RealOps(), x, t, dt, LinearRate(k))
         == x * Taylor4(k * dt)
  {
    var k1, k2, k3, k4 := RealStep(x, t, dt, LinearRate(k));
    LinearSlopes(x, t, dt, k, k1, k2, k3, k4);
    calc {
      Rk4Step(RealOps(), x, t, dt, LinearRate(k));
      == x + (((k1 + k2 * 2.0) + k3 * 2.0) + k4) * (dt / 6.0);
      == { LinearPolynomial(x, k, dt, k1, k2, k3, k4); }
         x * Taylor4(k * dt);
    }
  }

  /** The four slopes of dx/dt = k * x. */
  lemma LinearSlopes(x: real, t: real, dt: real, k: real, k1: real, k2: real, k3: real, k4: real)
    requires k1 == LinearRate(k)(x, t)
    requires k2 == LinearRate(k)(x + k1 * (dt * 0.5), t + dt * 0.5)
    requires k3 == LinearRate(k)(x + k2 * (dt * 0.5), t + dt * 0.5)
    requires k4 == LinearRate(k)(x + k3 * dt, t + dt)
    ensures k1 == k * x
    ensures k2 == k * (x + k1 * (dt * 0.5))
    ensures k3 == k * (x + k2 * (dt * 0.5))
    ensures k4 == k * (x + k3 * dt)
  {
  }

  /** The slopes of dx/dt = k * x, combined with weights 1, 2, 2, 1 over 6. */
  lemma LinearPolynomial(x: real, k: real, dt: real, k1: real, k2: real, k3: real, k4: real)
    requires k1 == k * x
    requires k2 == k * (x + k1 * (dt * 0.5))
    requires k3 == k * (x + k2 * (dt * 0.5))
    requires k4 == k * (x + k3 * dt)
    ensures x + (((k1 + k2 * 2.0) + k3 * 2.0) + k4) * (dt / 6.0)
         == x * Taylor4(k * dt)
  {
    ScaledStage(k, dt, x, k1, 0.5, k2);
    ScaledStage(k, dt, x, k2, 0.5, k3);
    ScaledStage(k, dt, x, k3, 1.0, k4);
    LinearStages(x, k * dt, k1 * dt, k2 * dt, k3 * dt, k4 * dt);
    WeightedAverage(dt, k1, k2, k3, k4);
  }

  /** The step on the reals, written with + and *: the four slopes k1..k4 as
      the source names them. */
  lemma RealStep(x: real, t: real, dt: real, f: (real, real) -> real)
    returns (k1: real, k2: real, k3: real, k4: real)
    ensures k1 == f(x, t)
    ensures k2 == f(x + k1 * (dt * 0.5), t + dt * 0.5)
    ensures k3 == f(x + k2 * (dt * 0.5), t + dt * 0.5)
    ensures k4 == f(x + k3 * dt, t + dt)
    ensures Rk4Step(RealOps(), x, t, dt, f) == x + (((k1 + k2 * 2.0) + k3 * 2.0) + k4) * (dt / 6.0)
  {
    var ops := RealOps();
    k1 := f(x, t);
    assert ops.add(x, ops.scale(k1, dt * 0.5)) == x + k1 * (dt * 0.5);
    k2 := f(x + k1 * (dt * 0.5), t + dt * 0.5);
    assert k2 == f(ops.add(x, ops.scale(k1, dt * 0.5)), t + dt * 0.5);
    assert ops.add(x, ops.scale(k2, dt * 0.5)) == x + k2 * (dt * 0.5);
    k3 := f(x + k2 * (dt * 0.5), t + dt * 0.5);
    assert k3 == f(ops.add(x, ops.scale(k2, dt * 0.5)), t + dt * 0.5);
    assert ops.add(x, ops.scale(k3, dt)) == x + k3 * dt;
    k4 := f(x + k3 * dt, t + dt);
    assert k4 == f(ops.add(x, ops.scale(k3, dt)), t + dt);
    var sum := ops.add(ops.add(ops.add(k1, ops.scale(k2, 2.0)), ops.scale(k3, 2.0)), k4);
    assert sum == ((k1 + k2 * 2.0) + k3 * 2.0) + k4;
    assert Rk4Step(ops, x, t, dt, f) == ops.add(x, ops.scale(sum, dt / 6.0));
    assert ops.add(x, ops.scale(sum, dt / 6.0)) == x + sum * (dt / 6.0);
  }

  /** A stage kk = k * (x + c * (w * dt)) of the linear equation, times dt. */
  lemma ScaledStage(k: real, dt: real, x: real, c: real, w: real, kk: real)
    requires kk == k * (x + c * (dt * w))
    ensures kk * dt == (k * dt) * (x + (c * dt) * w)
  {
  }

  /** Scaling the weighted sum by dt / 6 is scaling each slope by dt. */
  lemma WeightedAverage(dt: real, k1: real, k2: real, k3: real, k4: real)
    ensures (((k1 + k2 * 2.0) + k3 * 2.0) + k4) * (dt / 6.0)
         == (((k1 * dt + (k2 * dt) * 2.0) + (k3 * dt) * 2.0) + k4 * dt) / 6.0
  {
  }

  /** The four stages of the linear equation, each multiplied by dt, as
      polynomials in h = k * dt. */
  lemma LinearStages(x: real, h: real, a1: real, a2: real, a3: real, a4: real)
    requires a1 == h * x
    requires a2 == h * (x + a1 * 0.5)
    requires a3 == h * (x + a2 * 0.5)
    requires a4 == h * (x + a3 * 1.0)
    ensures x + (((a1 + a2 * 2.0) + a3 * 2.0) + a4) / 6.0
         == x * Taylor4(h)
  {
  }
}
