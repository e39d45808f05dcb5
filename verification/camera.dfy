/** The camera's orientation: rotate_vector, and the pointer drag that turns
    the camera in main_loop (main.cpp). */
module Camera {
  import opened CMath
  import opened Vectors

  /** rotate_vector: first a rotation by pitch about the x axis, then a
      rotation by yaw about the y axis, with the sines and cosines taken from m. */
  function RotateVector(m: Libm, v: Vec3, yaw: real, pitch: real): Vec3
  {
    var cp := m.cos(pitch);
    var sp := m.sin(pitch);
    var y1 := v.y * cp - v.z * sp;
    var z1 := v.y * sp + v.z * cp;
    var x1 := v.x;
    var cy := m.cos(yaw);
    var sy := m.sin(yaw);
    var x2 := x1 * cy + z1 * sy;
    var z2 := -x1 * sy + z1 * cy;
    var y2 := y1;
    Vec3(x2, y2, z2)
  }

  /** A plane rotation (a, b) -> (a c - b s, a s + b c) with c^2 + s^2 = 1
      keeps a^2 + b^2. */
  lemma PlaneRotation(a: real, b: real, c: real, s: real)
    requires c * c + s * s == 1.0
    ensures (a * c - b * s) * (a * c - b * s) + (a * s + b * c) * (a * s + b * c) == a * a + b * b
  {
    calc {
      (a * c - b * s) * (a * c - b * s) + (a * s + b * c) * (a * s + b * c);
      == a * a * (c * c) - 2.0 * a * b * c * s + b * b * (s * s)
         + a * a * (s * s) + 2.0 * a * b * s * c + b * b * (c * c);
      == a * a * (c * c + s * s) + b * b * (c * c + s * s);
      == a * a + b * b;
    }
  }

  /** The yaw form of the plane rotation, (a, b) -> (a c + b s, -a s + b c). */
  lemma PlaneRotationYaw(a: real, b: real, c: real, s: real)
    requires c * c + s * s == 1.0
    ensures (a * c + b * s) * (a * c + b * s) + (-a * s + b * c) * (-a * s + b * c) == a * a + b * b
  {
    PlaneRotation(a, -b, c, s);
    assert a * c - (-b) * s == a * c + b * s;
    assert a * s + (-b) * c == -(-a * s + b * c);
  }

  /** With sin and cos on the unit circle the rotation keeps lengths. */
  lemma RotationKeepsLength(m: Libm, v: Vec3, yaw: real, pitch: real)
    requires m.SinCosUnit()
    ensures RotateVector(m, v, yaw, pitch).LengthSquared() == v.LengthSquared()
  {
    var cp, sp := m.cos(pitch), m.sin(pitch);
    var cy, sy := m.cos(yaw), m.sin(yaw);
    assert sp * sp + cp * cp == 1.0;
    assert sy * sy + cy * cy == 1.0;
    var y1 := v.y * cp - v.z * sp;
    var z1 := v.y * sp + v.z * cp;
    var x2 := v.x * cy + z1 * sy;
    var z2 := -v.x * sy + z1 * cy;
    var w := RotateVector(m, v, yaw, pitch);
    assert w == Vec3(x2, y1, z2);
    calc {
      w.LengthSquared();
      == x2 * x2 + y1 * y1 + z2 * z2;
      == (x2 * x2 + z2 * z2) + y1 * y1;
      == { PlaneRotationYaw(v.x, z1, cy, sy); }
         (v.x * v.x + z1 * z1) + y1 * y1;
      == v.x * v.x + (y1 * y1 + z1 * z1);
      == { PlaneRotation(v.y, v.z, cp, sp); }
         v.x * v.x + (v.y * v.y + v.z * v.z);
      == v.LengthSquared();
    }
  }

  /** With cos 0 = 1 and sin 0 = 0 the zero rotation is the identity. */
  lemma RotateByZero(m: Libm, v: Vec3)
    requires m.cos(0.0) == 1.0 && m.sin(0.0) == 0.0
    ensures RotateVector(m, v, 0.0, 0.0) == v
  {
  }

  /** The pitch limit of the drag, in radians. */
  const PitchLimit: real := 1.5
  /** Radians turned per pixel of pointer motion. */
  const DragSpeed: real := 0.005

  /** max(-1.5, min(1.5, pitch)) */
  function ClampPitch(pitch: real): (r: real)
    ensures -PitchLimit <= r <= PitchLimit
    ensures -PitchLimit <= pitch <= PitchLimit ==> r == pitch
    ensures pitch < -PitchLimit ==> r == -PitchLimit
    ensures PitchLimit < pitch ==> r == PitchLimit
  {
    MaxReal(-PitchLimit, MinReal(PitchLimit, pitch))
  }

  /** An SDL_MOUSEMOTION event: the relative motion and whether the left
      button was held. Other event kinds are ignored by the loop and are not
      represented. */
  datatype MouseMotion = MouseMotion(xrel: int, yrel: int, leftHeld: bool)

  /** The camera angles (yaw, pitch). */
  datatype Angles = Angles(yaw: real, pitch: real)

  /** One event of the polling loop: a drag with the left button turns the
      camera, moving right decreasing yaw and moving down increasing pitch,
      which is then clamped; motion without the button changes nothing. */
  function ApplyMotion(a: Angles, e: MouseMotion): (r: Angles)
    ensures !e.leftHeld ==> r == a
    ensures e.leftHeld ==> -PitchLimit <= r.pitch <= PitchLimit
    ensures e.leftHeld ==> r.yaw == a.yaw - (e.xrel as real) * DragSpeed
    ensures e.leftHeld && -PitchLimit <= a.pitch + (e.yrel as real) * DragSpeed <= PitchLimit
            ==> r.pitch == a.pitch + (e.yrel as real) * DragSpeed
  {
    if e.leftHeld then
      Angles(a.yaw - (e.xrel as real) * DragSpeed, ClampPitch(a.pitch + (e.yrel as real) * DragSpeed))
    else a
  }

  /** All the events of one frame, in order. */
  function Drag(a: Angles, events: seq<MouseMotion>): Angles
    decreases |events|
  {
    if |events| == 0 then a else Drag(ApplyMotion(a, events[0]), events[1..])
  }

  /** A pitch inside the limits stays inside them, whatever the events. */
  lemma {:induction false} DragKeepsPitch(a: Angles, events: seq<MouseMotion>)
    requires -PitchLimit <= a.pitch <= PitchLimit
    ensures -PitchLimit <= Drag(a, events).pitch <= PitchLimit
    decreases |events|
  {
    if |events| != 0 {
      DragKeepsPitch(ApplyMotion(a, events[0]), events[1..]);
    }
  }

  /** The total horizontal motion of the events with the button held. */
  function HeldMotionX(events: seq<MouseMotion>): int
    decreases |events|
  {
    if |events| == 0 then 0
    else (if events[0].leftHeld then events[0].xrel else 0) + HeldMotionX(events[1..])
  }

  /** Yaw is never clamped: after any drag it is the start yaw minus 0.005
      times the total horizontal motion of the events with the button held. */
  lemma {:induction false} DragYaw(a: Angles, events: seq<MouseMotion>)
    ensures Drag(a, events).yaw == a.yaw - (HeldMotionX(events) as real) * DragSpeed
    decreases |events|
  {
    if |events| != 0 {
      DragYaw(ApplyMotion(a, events[0]), events[1..]);
    }
  }
}
