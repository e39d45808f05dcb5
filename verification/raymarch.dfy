/** The per-pixel ray march of step_calculation: a photon leaves the camera
    through a pixel of the virtual screen and is integrated with adaptive
    Runge-Kutta steps until it falls into the hole, escapes, or runs out of
    steps (main.cpp). */
module RayMarch {
  import opened CMath
  import opened Vectors
  import opened OdeSolver
  import opened Physics

  const ImageWidth: int := 500
  const ImageHeight: int := 300
  /** The step budget of one ray. */
  const MaxSteps: nat := 2000
  /** A ray farther than this from the hole has escaped. */
  const EscapeRadius: real := 1000.0

  /** The adaptive step: 0.5 far out, 0.1 inside 10 rs, 0.02 inside 3 rs. */
  function StepSize(r: real, rs: real): (dt: real)
    ensures dt == 0.02 || dt == 0.1 || dt == 0.5
    ensures 0.0 < rs ==> (dt == 0.02 <==> r < 3.0 * rs)
    ensures 0.0 < rs ==> (dt == 0.1 <==> 3.0 * rs <= r < 10.0 * rs)
    ensures 0.0 < rs ==> (dt == 0.5 <==> 10.0 * rs <= r)
  {
    var dt := if r < rs * 10.0 then 0.1 else 0.5;
    if r < rs * 3.0 then 0.02 else dt
  }

  /** The capture test as written: r^2 < rs * rs * 1.1, that is r below
      sqrt(1.1) rs (not 1.1 rs). */
  predicate Captured(rSquared: real, rs: real)
  {
    rSquared < rs * rs * 1.1
  }

  predicate Escaped(rSquared: real)
  {
    rSquared > EscapeRadius * EscapeRadius
  }

  /** The rate function handed to rk4_step: the Schwarzschild equations for the
      current rs, with the step's time passed as the affine parameter. */
  function Equations(m: Libm, rs: real): (PhotonState, real) -> PhotonState
  {
    (s: PhotonState, t: real) => SchwarzschildEquations(m, s, t, rs)
  }

  /** One march step from s: the step size chosen from the current radius, then
      one Runge-Kutta step. The march never advances its time t, which stays 0. */
  function Advance(m: Libm, s: PhotonState, rs: real): PhotonState
  {
    var dt := StepSize(m.sqrt(s.pos.LengthSquared()), rs);
    Rk4Step(PhotonOps(), s, 0.0, dt, Equations(m, rs))
  }

  /** Advance as a function value: the step the march applies. */
  function Stepper(m: Libm, rs: real): PhotonState -> PhotonState
  {
    (s: PhotonState) => Advance(m, s, rs)
  }

  /** The outcome of a march: whether the photon was captured, its last state,
      and how many steps were taken. */
  datatype MarchResult = MarchResult(hit: bool, final: PhotonState, steps: nat)

  /** The march from s with at most fuel steps of adv left: after every step
      the capture test comes first, then the escape test. Trace checks the
      budget and TraceStep takes one step; the state in the decreases clauses
      keeps the verifier from unrolling the 2000 steps of a march with a
      literal budget. */
  function Trace(adv: PhotonState -> PhotonState, s: PhotonState, rs: real, fuel: nat): (r: MarchResult)
    ensures r.steps <= fuel
    ensures 0 < fuel ==> 0 < r.steps
    ensures r.hit ==> Captured(r.final.pos.LengthSquared(), rs)
    ensures 0 < fuel && Captured(r.final.pos.LengthSquared(), rs) ==> r.hit
    ensures r.steps < fuel ==> r.hit || Escaped(r.final.pos.LengthSquared())
    decreases fuel, s, 1
  {
    if fuel == 0 then MarchResult(false, s, 0) else TraceStep(adv, s, rs, fuel)
  }

  /** One step of the march from s, with fuel > 0 steps left. */
  function TraceStep(adv: PhotonState -> PhotonState, s: PhotonState, rs: real, fuel: nat): (r: MarchResult)
    requires 0 < fuel
    ensures 0 < r.steps <= fuel
    ensures r.hit <==> Captured(r.final.pos.LengthSquared(), rs)
    ensures r.steps < fuel ==> r.hit || Escaped(r.final.pos.LengthSquared())
    decreases fuel, s, 0
  {
    var next := adv(s);
    var rSquared := next.pos.LengthSquared();
    if Captured(rSquared, rs) then MarchResult(true, next, 1)
    else if Escaped(rSquared) then MarchResult(false, next, 1)
    else
      var rest := Trace(adv, next, rs, fuel - 1);
      MarchResult(rest.hit, rest.final, rest.steps + 1)
  }

  /** The state after k steps of adv from s. */
  function Iter(adv: PhotonState -> PhotonState, s: PhotonState, k: nat): PhotonState
    decreases k
  {
    if k == 0 then s else Iter(adv, adv(s), k - 1)
  }

  /** The march stops at the first exit: its final state is the state after
      its steps, and no state before it passed either test. */
  lemma {:induction false} TraceFirstExit(adv: PhotonState -> PhotonState, s: PhotonState, rs: real, fuel: nat)
    ensures var r := Trace(adv, s, rs, fuel);
            r.final == Iter(adv, s, r.steps) &&
            forall k :: 0 < k < r.steps ==>
              !Captured(Iter(adv, s, k).pos.LengthSquared(), rs) &&
              !Escaped(Iter(adv, s, k).pos.LengthSquared())
    decreases fuel
  {
    if fuel > 0 {
      var next := adv(s);
      var rSquared := next.pos.LengthSquared();
      assert Iter(adv, s, 1) == next;
      if !Captured(rSquared, rs) && !Escaped(rSquared) {
        var rest := Trace(adv, next, rs, fuel - 1);
        TraceFirstExit(adv, next, rs, fuel - 1);
        var r := Trace(adv, s, rs, fuel);
        assert r == MarchResult(rest.hit, rest.final, rest.steps + 1);
        forall k | 0 < k < r.steps
          ensures !Captured(Iter(adv, s, k).pos.LengthSquared(), rs)
          ensures !Escaped(Iter(adv, s, k).pos.LengthSquared())
        {
          if k > 1 {
            assert Iter(adv, s, k) == Iter(adv, next, k - 1);
          }
        }
      }
    }
  }

  /** A march that is neither captured nor escaped after its last step used
      its whole budget. */
  lemma StoppedEarly(adv: PhotonState -> PhotonState, s: PhotonState, rs: real, fuel: nat)
    requires var r := Trace(adv, s, rs, fuel);
             !r.hit && !Escaped(r.final.pos.LengthSquared())
    ensures Trace(adv, s, rs, fuel).steps == fuel
  {
  }

  /** The inner loop of step_calculation: at most MaxSteps steps of adv,
      leaving early on capture (hit) or escape. */
  method MarchRay(adv: PhotonState -> PhotonState, start: PhotonState, rs: real)
    returns (hit: bool, state: PhotonState)
    ensures hit == Trace(adv, start, rs, MaxSteps).hit
    ensures state == Trace(adv, start, rs, MaxSteps).final
  {
    state := start;
    hit := false;
    var step := 0;
    while step < MaxSteps
      invariant 0 <= step <= MaxSteps
      invariant Trace(adv, state, rs, MaxSteps - step).hit == Trace(adv, start, rs, MaxSteps).hit
      invariant Trace(adv, state, rs, MaxSteps - step).final == Trace(adv, start, rs, MaxSteps).final
    {
      state := adv(state);
      var rSquared := state.pos.LengthSquared();
      if rSquared < rs * rs * 1.1 {
        hit := true;
        break;
      }
      if rSquared > 1000.0 * 1000.0 {
        break;
      }
      step := step + 1;
    }
  }

  /** Inside the guard radius the equations vanish, so a step leaves the
      photon where it is. */
  lemma FrozenInsideGuard(m: Libm, s: PhotonState, rs: real)
    requires m.sqrt(s.pos.LengthSquared()) < GuardRadius(rs)
    ensures Advance(m, s, rs) == s
  {
    var f := Equations(m, rs);
    forall t: real ensures f(s, t) == ZeroState() {
      GuardFreezes(m, s, t, rs);
    }
    PhotonLaws();
    RestPoint(PhotonOps(), ZeroState(), s, 0.0, StepSize(m.sqrt(s.pos.LengthSquared()), rs), f);
  }

  /** With exact square roots, a radius below the guard radius passes the
      capture test as written, r^2 < 0.01 rs^2 < 1.1 rs^2, and the test with a
      margin of 1.1 rs, r^2 < 1.21 rs^2. */
  lemma GuardInsideCapture(m: Libm, rSquared: real, rs: real)
    requires m.SqrtExact() && 0.0 <= rSquared
    requires m.sqrt(rSquared) < GuardRadius(rs)
    ensures Captured(rSquared, rs)
    ensures rSquared < (1.1 * rs) * (1.1 * rs)
  {
    var r := m.sqrt(rSquared);
    assert 0.0 <= r && r * r == rSquared;
    var g := 0.1 * rs;
    assert 0.0 <= r < g;
    calc {
      rSquared;
      == r * r;
      <= { NonNegativeProduct(g - r, r, (g - r) * r); }
         g * r;
      <= { NonNegativeProduct(g, g - r, g * (g - r)); }
         g * g;
      == 0.01 * (rs * rs);
    }
    PositiveProduct(rs, rs, rs * rs);
    assert (1.1 * rs) * (1.1 * rs) == 1.21 * (rs * rs);
  }

  /** A march from a state that the step leaves in place and that passes the
      capture test is a hit after one step. */
  lemma TraceAtRest(adv: PhotonState -> PhotonState, s: PhotonState, rs: real, fuel: nat)
    requires 0 < fuel && adv(s) == s
    requires Captured(s.pos.LengthSquared(), rs)
    ensures Trace(adv, s, rs, fuel) == MarchResult(true, s, 1)
  {
  }

  /** A photon inside the guard radius is reported as a hit after one step and
      is never integrated through the singularity. */
  lemma GuardIsCaptured(m: Libm, s: PhotonState, rs: real, fuel: nat)
    requires m.SqrtExact() && 0 < fuel
    requires m.sqrt(s.pos.LengthSquared()) < GuardRadius(rs)
    ensures Trace(Stepper(m, rs), s, rs, fuel) == MarchResult(true, s, 1)
  {
    FrozenInsideGuard(m, s, rs);
    GuardInsideCapture(m, s.pos.LengthSquared(), rs);
    TraceAtRest(Stepper(m, rs), s, rs, fuel);
  }

  /** Screen geometry of the pinhole camera: the screen is 10 in front of the
      camera, 32 wide and 32 * 300 / 500 high. */
  const ScreenDist: real := 10.0
  const ScreenWidth: real := 32.0
  const ScreenHeight: real := ScreenWidth * ((ImageHeight as real) / (ImageWidth as real))

  /** The camera sits on the z axis at distance dist from the hole. */
  function CameraPos(dist: real): Vec3 { Vec3(0.0, 0.0, -dist) }

  /** pixel_pos - cam_pos for pixel (i, j) of a cols x rows grid laid over the
      screen; row j = 0 is the top of the picture, so the screen's y runs from
      the bottom row up. The march uses the 500 x 300 grid, the inset a
      125 x 75 one over the same screen. */
  function ScreenOffset(dist: real, cols: int, rows: int, i: int, j: int): Vec3
    requires 0 < cols && 0 < rows
  {
    var camPos := CameraPos(dist);
    var forward := Vec3(0.0, 0.0, 1.0);
    var right := Vec3(1.0, 0.0, 0.0);
    var up := Vec3(0.0, 1.0, 0.0);
    var origin := camPos.Add(forward.Scale(ScreenDist))
                        .Sub(right.Scale(ScreenWidth * 0.5))
                        .Sub(up.Scale(ScreenHeight * 0.5));
    var screenX := right.Scale(ScreenWidth / (cols as real));
    var screenY := up.Scale(ScreenHeight / (rows as real));
    var pixelPos := origin.Add(screenX.Scale(i as real)).Add(screenY.Scale((rows - 1 - j) as real));
    pixelPos.Sub(camPos)
  }

  /** The photon that leaves the camera through pixel (i, j) of the picture. */
  function PixelStart(m: Libm, dist: real, i: int, j: int): PhotonState
  {
    PhotonState(CameraPos(dist), ScreenOffset(dist, ImageWidth, ImageHeight, i, j).Normalized(m))
  }

  /** The offset of every pixel from the camera is 10 deep, the screen distance. */
  lemma ScreenOffsetDepth(dist: real, cols: int, rows: int, i: int, j: int)
    requires 0 < cols && 0 < rows
    ensures ScreenOffset(dist, cols, rows, i, j).z == ScreenDist
  {
    var camPos := CameraPos(dist);
    var forward := Vec3(0.0, 0.0, 1.0);
    var right := Vec3(1.0, 0.0, 0.0);
    var up := Vec3(0.0, 1.0, 0.0);
    var origin := camPos.Add(forward.Scale(ScreenDist))
                        .Sub(right.Scale(ScreenWidth * 0.5))
                        .Sub(up.Scale(ScreenHeight * 0.5));
    assert origin.z == ScreenDist - dist;
    var screenX := right.Scale(ScreenWidth / (cols as real));
    var screenY := up.Scale(ScreenHeight / (rows as real));
    assert screenX.z == 0.0 && screenY.z == 0.0;
    var a := screenX.Scale(i as real);
    var b := screenY.Scale((rows - 1 - j) as real);
    assert a.z == 0.0 * (i as real) == 0.0;
    assert b.z == 0.0 * ((rows - 1 - j) as real) == 0.0;
    assert ScreenOffset(dist, cols, rows, i, j) == origin.Add(a).Add(b).Sub(camPos);
  }

  /** Every ray through the screen points into it, 10 ahead of the camera
      whatever its distance: its direction is a unit vector looking forward. */
  lemma ScreenRayForward(m: Libm, dist: real, cols: int, rows: int, i: int, j: int)
    requires m.SqrtExact() && 0 < cols && 0 < rows
    ensures ScreenOffset(dist, cols, rows, i, j).Normalized(m).LengthSquared() == 1.0
    ensures 0.0 < ScreenOffset(dist, cols, rows, i, j).Normalized(m).z
  {
    var v := ScreenOffset(dist, cols, rows, i, j);
    ScreenOffsetDepth(dist, cols, rows, i, j);
    LengthSquaredZero(v);
    NormalizedUnit(m, v);
    var len := v.Length(m);
    assert v.Normalized(m) == v.Div(len);
    assert v.Normalized(m).z == 10.0 / len;
  }

  /** The outcome of the march for pixel (i, j), for hole size rs and camera
      distance dist. */
  function PixelTrace(m: Libm, rs: real, dist: real, i: int, j: int): MarchResult
  {
    Trace(Stepper(m, rs), PixelStart(m, dist, i, j), rs, MaxSteps)
  }

  /** One entry of the distortion map. */
  datatype PrecomputedPixel = PrecomputedPixel(hit: bool, localDir: Vec3)

  /** How step_calculation updates an entry from a march outcome: the hit flag
      is always written; the escape direction only when the ray escaped, so a
      captured ray keeps whatever direction the entry held before. */
  function Record(m: Libm, prev: PrecomputedPixel, hit: bool, final: PhotonState): (p: PrecomputedPixel)
    ensures p.hit == hit
    ensures hit ==> p.localDir == prev.localDir
    ensures !hit ==> p.localDir == final.mom.Normalized(m)
  {
    var p := prev.(hit := hit);
    if !hit then p.(localDir := final.mom.Normalized(m)) else p
  }

  /** The entry step_calculation leaves for pixel (i, j), given what the entry
      held before: it agrees with the march of that pixel. */
  function Recorded(m: Libm, prev: PrecomputedPixel, rs: real, dist: real, i: int, j: int): (p: PrecomputedPixel)
    ensures Agrees(m, p, rs, dist, i, j)
  {
    var r := PixelTrace(m, rs, dist, i, j);
    Record(m, prev, r.hit, r.final)
  }

  /** An entry agrees with the march of its pixel: same hit flag, and for an
      escaped ray the normalized final direction. */
  predicate Agrees(m: Libm, p: PrecomputedPixel, rs: real, dist: real, i: int, j: int)
  {
    var r := PixelTrace(m, rs, dist, i, j);
    p.hit == r.hit && (!r.hit ==> p.localDir == r.final.mom.Normalized(m))
  }
}
