# Black-hole lensing renderer: a verified model

This project models the core of a small real-time renderer of gravitational
lensing around a Schwarzschild black hole, compiled to WebAssembly in the
program. Once per parameter change the program marches one photon per pixel of
a 500 x 300 picture through the curved field, integrating the equations of
motion with fourth-order Runge-Kutta steps. It records each ray's outcome in a
distortion map: captured by the hole, or escaped in some direction. The march
is spread over many frames, five rows per frame. Once the map is ready, every
frame redraws the picture from it. Each pixel shows black or the background
seen in the recorded escape direction, turned by the camera's yaw and pitch.
A quarter-size inset in the upper right shows the same background without the
hole.

The modules follow the source files:

- `Vectors` (vec3.h): the vector type and its operators.
- `Physics` (physics.h): the photon state and the Schwarzschild equations.
- `OdeSolver` (ode_solver.h): `rk4_step`, generic over any state type with
  an addition and a scaling.
- The rest of main.cpp, split by concern:
  - `RayMarch`: the adaptive march of one ray and the screen geometry.
  - `Scheduler`: the row cursor and the flags of the progressive
    precomputation.
  - `Camera`: `rotate_vector` and the pointer drag.
  - `Background`: `get_background_color` and the uploaded image.
  - `Compositor`: the bytes of a finished frame.
  - `App`: the program's globals as a class `Lensing`. Its fields are the
    source's globals: the distortion map and the pixel buffer are arrays that
    the methods update in place. Its methods are `set_mass`, `set_dist`,
    `set_background_image`, `reset_calculation`, `step_calculation` and
    `main_loop`.

`std::sqrt`, `sin` and `cos` are values of a `Libm` datatype. Proofs that need
them assume only what `Libm.SqrtExact()` and `Libm.SinCosUnit()` state:
sqrt(x)^2 = x for x >= 0, and sin^2 + cos^2 = 1. `Camera.RotateByZero`
also assumes cos 0 = 1 and sin 0 = 0. Doubles are modelled as
reals. The byte conversions and integer casts are written out: truncation
toward zero, then reduction modulo 256.

The capture test is modelled as the code writes it. The ray is a hit when
r^2 < rs * rs * 1.1, which puts the capture radius at sqrt(1.1) rs, about
1.049 rs. A margin of 1.1 rs around the horizon would instead be
r^2 < (1.1 rs)^2. The model follows the code (`RayMarch.Captured`). `RayMarch.GuardInsideCapture`
proves that every photon inside the 0.1 rs guard passes both the test as
written and the test with the 1.1 rs margin: its r^2 is below 0.01 rs^2.

## Model

| member | source | states |
|---|---|---|
| Vectors.Vec3.Neg | src/vec3.h:20 | component-wise negation; no contract of its own: `NegCancels` and `NegNeg` state its properties |
| Vectors.Vec3.Add | src/vec3.h:23-25 | component-wise sum; no contract of its own: `AddCommutes`, `AddThenSub` and `VecScaleDistributes` state its properties |
| Vectors.Vec3.Sub | src/vec3.h:36-38 | component-wise difference; no contract of its own: `AddThenSub` and `SubIsAddNeg` state its properties |
| Vectors.Vec3.Scale | src/vec3.h:41-43 | component-wise product with t; no contract of its own: `VecScaleAssociates`, `VecScaleDistributes` and `ScaleLengthSquared` state its properties |
| Vectors.Vec3.Div | src/vec3.h:46-48 | dividing by a nonzero t is undone by scaling by t |
| Vectors.Vec3.LengthSquared | src/vec3.h:51-53 | the squared length is non-negative and is the dot product of the vector with itself |
| Vectors.Vec3.Length | src/vec3.h:56-58 | sqrt of the squared length; no contract of its own: `NormalizedUnit` states that it is positive for a nonzero vector under exact sqrt |
| Vectors.Vec3.Normalized | src/vec3.h:61-65 | the zero vector when the length is 0, otherwise the vector divided by its length; no contract of its own: `NormalizedZero` and `NormalizedUnit` state its properties |
| Vectors.Dot | src/vec3.h:68-70 | the dot product; no contract of its own: `DotCommutes` and `CrossOrthogonal` state its properties |
| Vectors.Cross | src/vec3.h:73-77 | the cross product; no contract of its own: `CrossAntiSymmetric`, `CrossOrthogonal` and `CrossParallel` state its properties |
| Vectors.LengthSquaredZero | src/vec3.h:51-53 | only the zero vector has squared length zero |
| Vectors.ScaleLeft | src/vec3.h:81-83 | the free t * v equals the member v * t |
| Vectors.NegCancels | src/vec3.h:20-25 | -v is the additive inverse of v |
| Vectors.NegNeg | src/vec3.h:20 | negating twice gives the vector back |
| Vectors.AddCommutes | src/vec3.h:23-25 | addition is commutative |
| Vectors.AddThenSub | src/vec3.h:23-38 | subtracting v undoes adding v |
| Vectors.SubIsAddNeg | src/vec3.h:20-38 | u - v equals u + (-v) |
| Vectors.DotCommutes | src/vec3.h:68-70 | dot is symmetric |
| Vectors.CrossAntiSymmetric | src/vec3.h:73-77 | swapping the arguments of cross negates it, and cross(u, u) is zero |
| Vectors.CrossOrthogonal | src/vec3.h:68-77 | cross(u, v) is orthogonal to u and to v |
| Vectors.CrossParallel | src/vec3.h:73-77 | a multiple of p has zero cross product with p |
| Vectors.ScaleLengthSquared | src/vec3.h:41-53 | scaling by t multiplies the squared length by t^2 |
| Vectors.VecScaleAssociates | src/vec3.h:41-43 | (v * a) * b equals v * (a * b) |
| Vectors.VecScaleDistributes | src/vec3.h:23-43 | v * a + v * b equals v * (a + b) |
| Vectors.NormalizedZero | src/vec3.h:61-65 | the zero vector normalizes to the zero vector, whatever sqrt returns |
| Vectors.NormalizedUnit | src/vec3.h:56-65 | with exact sqrt, a nonzero vector has positive length, normalizes to a unit vector, and is its normalization scaled by its length |
| CMath.TruncToInt | src/main.cpp:351-353 | static_cast<int> truncates toward zero: for x >= 0 the result n has n <= x < n + 1, for x < 0 it has n - 1 < x <= n |
| OdeSolver.Rk4Step | src/ode_solver.h:18-33 | one classical Runge-Kutta step over any state type with + and scaling; no contract of its own: the lemmas below state its properties |
| OdeSolver.StageTimes | src/ode_solver.h:18-33 | the step samples the rate function only at t, t + dt/2 and t + dt: two rate functions that agree there give the same step |
| OdeSolver.ZeroSlope | src/ode_solver.h:18-33 | when every slope is zero, the step leaves the state unchanged |
| OdeSolver.RestPoint | src/ode_solver.h:18-33 | a state whose own slopes are all zero is a fixed point of the step |
| OdeSolver.ZeroStep | src/ode_solver.h:18-33 | a step of length zero leaves the state unchanged |
| OdeSolver.WeightSum | src/ode_solver.h:32 | the slope weights 1, 2, 2, 1 sum to 6 |
| OdeSolver.ConstantSlope | src/ode_solver.h:18-33 | with a constant slope c the step is exact: x moves to x + c * dt |
| OdeSolver.RealLaws | src/ode_solver.h:18-33 | the reals with + and * satisfy the vector-space laws the step lemmas rely on |
| OdeSolver.RealStep | src/ode_solver.h:18-33 | on the reals the step is x + (k1 + 2 k2 + 2 k3 + k4) dt / 6, with the four slopes as the source defines them |
| OdeSolver.LinearGrowth | src/ode_solver.h:18-33 | on dx/dt = k x one step multiplies x by the degree-four Taylor polynomial of exp(k dt), so the method is of fourth order |
| Physics.ScaleLeft | src/physics.h:20-22 | the free operator s * p, computed as the member p * s; no contract of its own |
| Physics.PhotonState.Add | src/physics.h:12-14 | component-wise sum of two states; no contract of its own: `PhotonAddZero`, `PhotonScaleDistributes` and `PhotonLaws` state its properties |
| Physics.PhotonState.Scale | src/physics.h:15-17 | both components scaled by s; no contract of its own: `PhotonScaleAssociates`, `PhotonScaleDistributes` and `PhotonLaws` state its properties |
| Physics.PhotonAddZero | src/physics.h:12-14 | the zero state is a right identity of the state addition |
| Physics.PhotonScaleAssociates | src/physics.h:15-17 | scaling a state twice is scaling by the product |
| Physics.PhotonScaleDistributes | src/physics.h:12-17 | p * a + p * b equals p * (a + b) for states |
| Physics.PhotonLaws | src/physics.h:8-18 | the photon state with + and * is a real vector space, so the Runge-Kutta lemmas apply to it |
| Physics.SchwarzschildEquations | src/physics.h:26-52 | the position derivative is zero or the momentum, and the momentum derivative is parallel to the position: the force is central |
| Physics.GuardRadius | src/physics.h:32 | the guard radius 0.1 rs; no contract of its own: `GuardFreezes`, `OutsideGuard` and `RayMarch.GuardInsideCapture` state what happens on either side of it |
| Physics.GuardFreezes | src/physics.h:32-34 | inside the guard radius 0.1 rs both derivatives are exactly zero |
| Physics.OutsideGuard | src/physics.h:36-49 | outside the guard the position moves with the momentum and the momentum changes by the factor times the position |
| Physics.LambdaIndependent | src/physics.h:26 | the derivatives do not depend on the affine parameter |
| Physics.TorqueFree | src/physics.h:37-49 | the instantaneous rate of change of the angular momentum pos x mom is zero |
| Physics.CentralRate | src/physics.h:44-49 | for any motion along the momentum and any force parallel to the position, pos x mom does not change instantaneously |
| Physics.Factor | src/physics.h:44-47 | the force factor -1.5 rs h^2 / r^5; no contract of its own: `FactorNonPositive` and `DivisorPositive` state its properties |
| Physics.FactorNonPositive | src/physics.h:44-47 | for rs >= 0 the force factor is never positive: the attraction points inward |
| Physics.DivisorPositive | src/physics.h:32-47 | for rs > 0, outside the guard r^2 r^2 r is positive, so the division is defined |
| Physics.NoMassNoForce | src/physics.h:26-52 | with rs = 0 and the photon off the origin, the momentum derivative is zero: light travels in straight lines |
| RayMarch.StepSize | src/main.cpp:251-254 | the step is 0.02 exactly inside 3 rs, 0.1 exactly between 3 rs and 10 rs, and 0.5 exactly from 10 rs outward |
| RayMarch.Captured | src/main.cpp:262 | the capture test as written, r^2 < rs * rs * 1.1; no contract of its own |
| RayMarch.Escaped | src/main.cpp:263 | the escape test, r^2 > 1000^2; no contract of its own |
| RayMarch.Equations | src/main.cpp:256-258 | the rate function handed to the Runge-Kutta step: the Schwarzschild equations for the current rs; no contract of its own: `FrozenInsideGuard` uses `Physics.GuardFreezes` through it |
| RayMarch.Advance | src/main.cpp:251-259 | one march step: the step size from the current radius, then one Runge-Kutta step of the equations at time 0; no contract of its own: `FrozenInsideGuard` states its property |
| RayMarch.Trace | src/main.cpp:250-264 | a march takes at most its budget of steps, at least one if the budget is positive; with a positive budget it reports a hit exactly when its final state passes the capture test; it stops early only on capture or escape |
| RayMarch.TraceStep | src/main.cpp:251-264 | one step of the march: at least one step, a hit exactly when the final state passes the capture test, early stop only on capture or escape |
| RayMarch.TraceFirstExit | src/main.cpp:250-264 | the final state of a march is the state after its number of steps, and no earlier state passed the capture or the escape test: the march stops at the first exit |
| RayMarch.StoppedEarly | src/main.cpp:250-264 | a march that ends neither captured nor escaped used its whole budget |
| RayMarch.MarchRay | src/main.cpp:245-264 | the loop of at most 2000 steps returns the hit flag and the final state of the march |
| RayMarch.FrozenInsideGuard | src/main.cpp:256-259 | a Runge-Kutta step from inside the guard radius leaves the photon where it is |
| RayMarch.GuardInsideCapture | src/main.cpp:262 | with exact sqrt, a radius inside the guard passes the capture test as written and also r^2 < (1.1 rs)^2 |
| RayMarch.TraceAtRest | src/main.cpp:250-264 | a march from a captured state that the step leaves in place is a hit after one step |
| RayMarch.GuardIsCaptured | src/main.cpp:250-264 | a photon inside the guard radius is reported as a hit after one step |
| RayMarch.ScreenOffset | src/main.cpp:220-241 | the offset from the camera of pixel (i, j) of the virtual screen; no contract of its own: `ScreenOffsetDepth` and `ScreenRayForward` state its properties |
| RayMarch.PixelStart | src/main.cpp:240-243 | the photon leaving the camera through pixel (i, j); no contract of its own: `ScreenRayForward` states that its direction is a forward unit vector |
| RayMarch.ScreenOffsetDepth | src/main.cpp:220-241 | every pixel of the virtual screen lies 10 ahead of the camera, whatever the grid and the camera distance |
| RayMarch.ScreenRayForward | src/main.cpp:240-243 | the start direction of every ray is a unit vector pointing forward |
| RayMarch.Record | src/main.cpp:266-270 | the hit flag is always written, and the escape direction only for an escaped ray: a captured ray keeps the old direction |
| RayMarch.Recorded | src/main.cpp:238-270 | the entry written for a pixel agrees with the march of that pixel |
| Scheduler.EndRow | src/main.cpp:217-218 | the cursor moves five rows, or stops at the bottom row |
| Scheduler.Advanced | src/main.cpp:213-285 | an idle state is left alone; a running pass moves the cursor forward by 1 to 5 rows; consistency is kept; the map becomes ready only with the cursor at the bottom and the pass stopped |
| Scheduler.Progress | src/main.cpp:277 | the progress value calc_row / 300 * 100; no contract of its own: `ProgressBounds` states its range |
| Scheduler.ProgressBounds | src/main.cpp:277 | the progress shown is between 0 and 100, and it is 100 exactly when the cursor is at the bottom |
| Scheduler.FinishesAfter | src/main.cpp:213-292 | after k calls a pass is 5 k rows further while rows remain, and finished with the map ready once 5 k covers them |
| Scheduler.IdleStays | src/main.cpp:214 | calls made while no pass is running change nothing |
| Scheduler.SixtyCallsAfterReset | src/main.cpp:201-292 | after a reset the first 59 calls leave the pass running, and the 60th completes the map |
| Camera.PlaneRotation | src/main.cpp:184-187 | the pitch rotation in the y-z plane keeps the squared length, given sin^2 + cos^2 = 1 |
| Camera.PlaneRotationYaw | src/main.cpp:191-194 | the yaw rotation in the x-z plane keeps the squared length, given sin^2 + cos^2 = 1 |
| Camera.RotateVector | src/main.cpp:182-198 | the pitch rotation about x followed by the yaw rotation about y; no contract of its own: `RotationKeepsLength` and `RotateByZero` state its properties |
| Camera.RotationKeepsLength | src/main.cpp:182-198 | rotate_vector keeps lengths when sin and cos lie on the unit circle |
| Camera.RotateByZero | src/main.cpp:182-198 | with cos 0 = 1 and sin 0 = 0 the zero rotation is the identity |
| Camera.ClampPitch | src/main.cpp:323 | the result lies in [-1.5, 1.5]; a pitch inside it is unchanged, and one outside it goes to the nearer limit |
| Camera.ApplyMotion | src/main.cpp:319-324 | motion without the left button changes nothing; with it the yaw decreases by 0.005 xrel, the new pitch lies within the limits, and a pitch that stays within them moves by exactly 0.005 yrel |
| Camera.Drag | src/main.cpp:317-326 | the polling loop: each pointer-motion event of the frame applied in order; no contract of its own: `DragKeepsPitch` and `DragYaw` state its properties |
| Camera.DragKeepsPitch | src/main.cpp:318-326 | a pitch within the limits stays within them for any sequence of events |
| Camera.DragYaw | src/main.cpp:318-326 | after any events the yaw is the start yaw minus 0.005 times the total horizontal motion made with the button held |
| Background.NoImage | src/main.cpp:48-50 | the program starts with a well-formed image that is not loaded, so the starfield is shown |
| Background.ReceivedImage | src/main.cpp:76-82 | the uploaded image has the given size and holds the first width * height * 4 bytes of the source |
| Background.TexU | src/main.cpp:109-115 | the horizontal planar projection 0.5 + x / z * 0.15 * height / width; no contract of its own: `Texel` states when it lands in the image |
| Background.TexV | src/main.cpp:109-114 | the vertical planar projection 0.5 - y / z * 0.15; no contract of its own: `Texel` states when it lands in the image |
| Background.ClampedCoord | src/main.cpp:118-122 | the texel coordinate always lies in [0, n - 1] |
| Background.ClampNeverBinds | src/main.cpp:117-122 | for a coordinate in [0, 1] the clamp changes nothing |
| Background.Texel | src/main.cpp:107-122 | no texel exactly when the direction points backward or falls outside the image; otherwise the texel lies inside the image |
| Background.TexelIndex | src/main.cpp:123 | the byte offset (ty * width + tx) * 4 of a texel; no contract of its own: `TexelIndexInRange` states that its three bytes lie inside the image |
| Background.TexelIndexInRange | src/main.cpp:123-124 | the three bytes read for a texel lie inside the image data |
| Background.Channel | src/main.cpp:124 | a byte read as a channel lies in [0, 1] |
| Background.ImageColor | src/main.cpp:102-127 | every channel of the image colour lies in [0, 1]; black when no texel is hit |
| Background.BackgroundColor | src/main.cpp:99-179 | a loaded image gives channels in [0, 1] and black behind the camera; without an image the starfield is shown |
| Compositor.ChannelByte | src/main.cpp:351-353 | static_cast<int>(255.99 * min(c, 1)) stored in a byte; no contract of its own: `ChannelNoWrap` and `ChannelRoundTrip` state its properties |
| Compositor.ChannelNoWrap | src/main.cpp:351-353 | a non-negative channel never wraps modulo 256, and a channel of 1 or more saturates at 255 |
| Compositor.ChannelRoundTrip | src/main.cpp:351-353 | a byte b read as b / 255 is written back as b |
| Compositor.ColorByte | src/main.cpp:350-354 | the alpha byte of a pixel is 255 |
| Compositor.ByteIndex | src/main.cpp:350 | the offset (row * 500 + col) * 4 + c of a channel of a pixel, used by the main loop and by the inset loop (line 399); no contract of its own: `ByteIndexDecodes`, `ByteIndexCovers` and `InsetInsidePicture` state its properties |
| Compositor.ByteIndexDecodes | src/main.cpp:338-350 | each channel of each pixel has an offset inside the buffer that decodes back to its column, row and channel |
| Compositor.ByteIndexCovers | src/main.cpp:336-354 | every offset of the buffer is the offset of exactly one column, row and channel |
| Compositor.MainColor | src/main.cpp:341-348 | black for a captured pixel, otherwise the background in the rotated escape direction; no contract of its own: `CapturedIsBlack` states its property |
| Compositor.InsetColor | src/main.cpp:383-394 | the background, without the hole, in the rotated direction of an inset cell; no contract of its own: `InsetByte` states the bytes drawn from it |
| Compositor.FrameByte | src/main.cpp:336-409 | the byte of a finished frame at an offset: the inset's where the inset covers it, the main view's elsewhere; no contract of its own: `FrameOpaque` and `CapturedIsBlack` state its properties |
| Compositor.InsetInsidePicture | src/main.cpp:360-399 | every cell of the inset lies inside the picture and inside the buffer |
| Compositor.CellBytes | src/main.cpp:397-409 | the bytes of the picture that decode to an inset cell are exactly the four at that cell's offset |
| Compositor.OnBorder | src/main.cpp:402 | the border test of an inset cell: first or last column or row; no contract of its own: `InsetByte` states that border cells are white |
| Compositor.InsetByte | src/main.cpp:401-409 | the inset border is white and every inset pixel is opaque |
| Compositor.FrameOpaque | src/main.cpp:336-411 | every pixel of a finished frame is opaque |
| Compositor.CapturedIsBlack | src/main.cpp:341-354 | a captured pixel outside the inset is drawn black |
| App.MarchEntry | src/main.cpp:240-270 | marching one pixel's ray and writing its entry gives the entry that agrees with that pixel's march |
| App.Lensing.constructor | src/main.cpp:35-50 | the start state: rs 4, distance 150, yaw and pitch 0, no image, nothing computed, first frame pending |
| App.Lensing.ResetCalculation | src/main.cpp:201-211 | a new pass starts at the top row with the map not ready |
| App.Lensing.SetMass | src/main.cpp:58-64 | a new hole size is stored and restarts the pass; the same size changes nothing |
| App.Lensing.SetDist | src/main.cpp:68-74 | a new camera distance is stored and restarts the pass; the same distance changes nothing |
| App.Lensing.SetBackgroundImage | src/main.cpp:76-82 | the image becomes the first width * height * 4 bytes of the source, and the map stays valid |
| App.Lensing.StepCalculation | src/main.cpp:213-292 | the scheduler state moves as Advanced says; exactly the newly done rows get their pixels' march; every row above the cursor agrees with its march |
| App.Lensing.MarchRow | src/main.cpp:238-271 | the entries of row j become their pixels' march, and no other entry changes |
| App.Lensing.MainLoop | src/main.cpp:298-418 | the first frame starts a pass; a frame during a pass only advances it; otherwise the events turn the camera as Drag says; a ready map makes every byte of the picture the byte of the finished frame |
| App.Lensing.RenderMain | src/main.cpp:336-356 | every byte of the picture becomes the main view's byte for its pixel |
| App.Lensing.WriteMainPixel | src/main.cpp:338-354 | the four bytes of one pixel get its colour and alpha 255, and no other byte changes |
| App.Lensing.RenderInset | src/main.cpp:383-411 | the bytes covered by the inset get the view without the hole, and every other byte is unchanged |
| App.Lensing.WriteInsetCell | src/main.cpp:385-409 | the four bytes of one inset cell get its colour, or white on the border, with alpha 255, and no other byte changes |

## Left out

- Rendering through SDL is not modelled: creating the window and texture, clearing, uploading the buffer and presenting it. The picture is the `pixels` array.
- `main`, `emscripten_set_main_loop` and the bindings to the page are not modelled. `MainLoop` is one frame, and the setters are methods called directly.
- The page updates through `EM_ASM` and the console message are not modelled: the loading screen, the progress bar and the status text. The progress value itself is `Scheduler.Progress`.
- The SDL event queue becomes the sequence of pointer-motion events of one frame. Other event kinds are ignored by the source and are not represented. Events that arrive while a pass runs stay queued in SDL until a later frame; the model does not carry them over.
- `hash13` and the procedural starfield of `get_background_color` (main.cpp lines 130-178) are not modelled. They are a function parameter `starfield`, because they rest on sin, exp, floor and fmod of doubles with nothing to prove about them.
- Floating-point rounding, NaN and infinity are not modelled: doubles are reals. `sqrt`, `sin` and `cos` are parameters, constrained only by `SqrtExact` and `SinCosUnit` where a proof needs them, and in `Camera.RotateByZero` by cos 0 = 1 and sin 0 = 0.
- Physics.Factor: the source divides by r^2 r^2 r with no guard. That divisor is zero only when rs <= 0 and the photon is at the origin, which gives NaN in the source. The model returns 0 there, and `Physics.DivisorPositive` shows this case never arises for rs > 0.
- `Vec3::operator+=` and the stream output `operator<<` are not modelled; the core never calls them. The default constructor of `Vec3` is called by `distortion_map(image_width * image_height)` (main.cpp line 35). The model gives every entry of the map `PrecomputedPixel(false, Zero())` in `App.Lensing.constructor`.
- The unused `cam_fwd` of `main_loop`, and the unused spherical `theta`, `phi`, `u` and `v` of the starfield, are not modelled.
- The march's time `t` is never advanced in the source: it stays 0 and the equations ignore it. `Advance` passes 0 for it.
- `set_background_image` copies from a raw pointer. The model takes the source bytes as a sequence. Its precondition asks only that width * height * 4 lie between 0 and the number of bytes. A short buffer, which is undefined behaviour in the source, is not modelled. A pair of negative sizes such as (-1, -1) is admitted. It gives an image with a negative size that holds the first 4 bytes. That image is never read, because `Loaded` needs both sizes positive.
- App.Lensing.MarchRow: the source writes the hit flag and the escape direction of an entry in two separate stores. The model writes the whole entry at once, and nothing reads the entry in between.
- Conservation of |pos x mom|^2 across a whole Runge-Kutta step holds in the source only up to a numerical tolerance. The model proves the exact instantaneous form (`Physics.TorqueFree`) and does not bound the error of a step.
- RayMarch.Captured: the test is modelled as written, r^2 < 1.1 rs^2. The intended margin of 1.1 rs, r^2 < (1.1 rs)^2, is not modelled.
