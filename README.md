# Spring-driven Bézier curve: a Dafny model

The sketch draws a cubic Bézier curve between a fixed start point P0 and a
fixed end point P3. Its two interior control points are spring-driven. P1
chases a target that the mouse sets while it drags. P2 chases P1 displaced by
(120, 0), with 0.6 of P1's stiffness. Every animation frame clamps the elapsed
time to 0.033 s and advances both springs by one semi-implicit Euler step (the
velocity first, then the position with the new velocity).

This project models that core in Dafny, with coordinates as `real`:

- `vectors.dfy`, module `Vectors`: the vector helpers `vec`, `add`, `sub`, `mul`, `len` and `normalize`.
- `curve.dfy`, module `Curve`: `bezier` and `bezierTangent`, one coordinate at a time (`Cubic`, `CubicSlope`).
- `spring.dfy`, module `Spring`: the step of `update` as pure functions. `SpringStep` is one body; `Step` is the lead then the trailing body.
- `input.dfy`, module `Input`: the mouse listeners as a transition function `Handle` on `(dragging, target)`, and `Replay` for a sequence of events.
- `frame.dfy`, module `FrameLoop`: the time-step clamp of `loop`.
- `scene.dfy`, module `Sketch`: class `Scene` holds the script's global state (P0, P1, V1, P2, V2, `target`, `dragging`, `last`). Its methods are the listeners, `update(dt)` and the simulation part of `loop(now)`. Each method is proved against the pure functions above.

The physics constants are the ones in the code: k = 18, damping = 6, trailing
ratio 0.6, offset (120, 0), and a 0.033 s cap. The code does not make them
configurable. With k = 18 and damping 6 the springs are under-damped, not
critically damped. The code has four listeners: `mouseleave` ends a drag
exactly like `mouseup`. The model follows the code on all of these points.

## Model

| member | source | states |
|---|---|---|
| Vectors.Add | script.js:18 | subtracting the second operand from the sum gives the first back |
| Vectors.Sub | script.js:19 | adding the second operand back gives the first; the difference is zero exactly when the operands are equal |
| Vectors.Mul | script.js:20 | scaling by 0 gives the zero vector; scaling by any other `s` is undone by dividing by `s` |
| Vectors.Len | script.js:21 | `Math.hypot` at v, under the stated assumption on it: non-negative, zero exactly at the origin, and its square is x² + y² |
| Vectors.Normalize | script.js:21-25 | the zero vector maps to itself with no division by zero (the length falls back to 1); any other vector maps to a direction that, scaled by the length, gives the vector back |
| Vectors.NormalizeIsUnit | script.js:21-25 | normalizing a non-zero vector gives a vector of squared length 1 |
| Curve.Bezier | script.js:61-67 | the curve is at P0 for t = 0 and at P3 for t = 1, and is the single point when all four control points coincide |
| Curve.BezierTangent | script.js:69-75 | the tangent is 3(P1 - P0) at t = 0 and 3(P3 - P2) at t = 1, and zero when all control points coincide |
| Curve.BernsteinPartitionOfUnity | script.js:61-67 | the weights u³, 3u²t, 3ut², t³ (u = 1 - t) sum to 1 for every t: a coordinate whose four control values are 1 is 1 (used by CubicTranslates) |
| Curve.CubicExpansion | script.js:61-75 | exact Taylor expansion of a coordinate: moving t by h changes it by h times the tangent's coordinate plus h² and h³ terms, so the tangent is the derivative of the curve |
| Curve.BezierTranslates | script.js:61-67 | translating all control points by d translates every point of the curve by d |
| Curve.BezierTangentTranslates | script.js:69-75 | translating all control points leaves the tangent unchanged |
| Curve.BezierReverses | script.js:61-67 | the curve with reversed control points, at 1 - t, is the same point as the original at t |
| Spring.SpringStep | script.js:82-85 | a body at rest on its goal stays put, and a step with dt = 0 changes nothing |
| Spring.Step | script.js:81-92 | one frame of `update`: the lead body steps toward `target` with k; then the trailing body steps with 0.6k toward the NEW lead position + (120, 0); a frame with dt = 0 changes nothing |
| Spring.PositionUsesNewVelocity | script.js:84-85 | the new position is the plain-Euler position (old position + old velocity · dt) plus acceleration · dt², so the position uses the new velocity |
| Spring.StepAtRest | script.js:81-92 | if P1 = target and V1 = 0, P1 and V1 are unchanged by a step of any length; if in addition P2 = P1 + (120, 0) and V2 = 0, the whole state is unchanged |
| Spring.SpringStepTranslates | script.js:82-85 | shifting a body and its goal by d shifts the new position by d and keeps the new velocity |
| Spring.StepTranslates | script.js:81-92 | shifting the target and both control points by d shifts both new positions by d and keeps both new velocities |
| Spring.TrailChasesUpdatedLead | script.js:87-91 | when P1 moves in a step with dt ≠ 0, the new V2 differs from the velocity that chasing the old P1 + (120, 0) would give |
| Input.Handle | script.js:47-56 | after an event, `dragging` holds exactly when the event is a press, or a move during a drag; exactly those events set the target to the event position, and all others keep it |
| Input.ReplayAppend | script.js:47-56 | dispatching two runs of events one after the other is the same as dispatching them joined |
| Input.IdlePointerStaysPut | script.js:52-56 | with no drag in progress and no press, any moves, releases and leaves change nothing |
| Input.DragFollowsLastMove | script.js:52-54 | during a drag, a run of moves keeps the drag and leaves the target at the last move's position |
| Input.ReleaseEndsDrag | script.js:55-56 | after any history, a final mouseup or mouseleave clears `dragging` and keeps the target |
| FrameLoop.ClampDt | script.js:138 | dt is at most 0.033 and at most the elapsed seconds, and equals one of the two, so it equals the elapsed time whenever that is at most 0.033 |
| FrameLoop.LongGapIsCapped | script.js:138 | a 5000 ms gap between frames gives a step of exactly 0.033 s |
| Sketch.Scene.constructor | script.js:30-38 | P0 = (100, h/2), P1 = (0.35w, 0.4h), P2 = (0.65w, 0.6h), both velocities zero, target on P1, no drag, `last` = start-up clock |
| Sketch.Scene.Update | script.js:81-92 | V1' = V1 + (k(target - P1) - damping·V1)·dt and P1' = P1 + V1'·dt; then V2' = V2 + (0.6k(P1' + (120,0) - P2) - damping·V2)·dt and P2' = P2 + V2'·dt, using the NEW P1; the new state is `Step` of the old one; target and drag flag unchanged |
| Sketch.Scene.MouseDown | script.js:48-51 | sets `dragging` and moves the target to the event position |
| Sketch.Scene.MouseMove | script.js:52-54 | moves the target to the event position only while dragging, otherwise changes nothing |
| Sketch.Scene.MouseUp | script.js:55 | clears `dragging`, target unchanged |
| Sketch.Scene.MouseLeave | script.js:56 | clears `dragging`, target unchanged |
| Sketch.Scene.Tick | script.js:137-140 | `last` becomes `now`, and the control points advance by one `Step` with dt = ClampDt(now, old `last`); target and drag flag unchanged |

## Left out

- Canvas creation, the `resize` handler and window sizes (script.js:4-12) are browser I/O. The canvas size is a constructor argument of `Scene`.
- `draw` and `drawPoint` (script.js:97-132) only issue drawing calls, so they are left out. That includes the end point P3, which `draw` computes from the canvas width each frame. Also left out are the sampling loops `t += 0.01` and `t += 0.1` up to 1.001, whose sample count depends on floating-point accumulation.
- `requestAnimationFrame` scheduling and `performance.now()` (script.js:80, 142-144) are the platform's clock and frame driver. `Tick` takes the clock reading as a parameter; the start-up reading is a constructor parameter.
- Vectors.Len: Dafny has no square root, so `Math.hypot` is a function argument `hypot`. Len and Normalize require that its value at the vector is non-negative, is zero exactly at the origin, and squares to x² + y². These facts are assumed of the platform function, not proved.
- Vectors.Normalize: `len(v) || 1` also replaces a NaN length by 1; with real coordinates there is no NaN, so only the zero case is modelled.
- IEEE-754 doubles are modelled as exact reals. Rounding, overflow, infinities and NaN are not modelled; for example, 18 · 0.6 is taken as exactly 10.8.
- Convergence or stability of the springs over many frames is not stated. The code does not promise it, and a proof would need real analysis.
