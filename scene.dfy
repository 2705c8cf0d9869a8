/**
 * The sketch's module-level state: the fixed start point, the two spring-driven
 * control points with their velocities, the pointer target and drag flag, and
 * the time stamp of the previous frame. Its methods are the mouse listeners,
 * `update(dt)` and the simulation part of `loop(now)`.
 */
module Sketch {
  import opened Vectors
  import opened Spring
  import opened Input
  import opened FrameLoop

  class Scene {
    /** P0, the fixed start point of the curve. */
    const p0: Vec
    /** P1 and V1: the lead control point and its velocity. */
    var p1: Vec
    var v1: Vec
    /** P2 and V2: the trailing control point and its velocity. */
    var p2: Vec
    var v2: Vec
    var target: Vec
    var dragging: bool
    /** Time stamp, in milliseconds, of the previous frame. */
    var last: real

    /** The spring state held in P1, V1, P2, V2. */
    function Bodies(): Rig
      reads this
    {
      Rig(Body(p1, v1), Body(p2, v2))
    }

    /** The pointer state held in `dragging` and `target`. */
    function Tracker(): Pointer
      reads this
    {
      Pointer(dragging, target)
    }

    /**
     * Start-up for a canvas of the given size at clock reading `now`: both
     * control points at rest at their initial spots, the target on P1, no drag.
     */
    constructor (width: real, height: real, now: real)
      ensures p0 == Vec(100.0, height / 2.0)
      ensures p1 == Vec(width * 0.35, height * 0.4) && v1 == Zero
      ensures p2 == Vec(width * 0.65, height * 0.6) && v2 == Zero
      ensures target == p1 && !dragging && last == now
    {
      p0 := Vec(100.0, height / 2.0);
      p1 := Vec(width * 0.35, height * 0.4);
      p2 := Vec(width * 0.65, height * 0.6);
      v1 := Vec(0.0, 0.0);
      v2 := Vec(0.0, 0.0);
      target := Vec(width * 0.35, height * 0.4);
      dragging := false;
      last := now;
    }

    /**
     * `update(dt)`: advances V1 then P1 towards the target, then V2 then P2
     * towards the NEW P1 plus (120, 0). Target and drag flag are untouched.
     */
    method Update(dt: real)
      modifies this`p1, this`v1, this`p2, this`v2
      ensures v1 == Add(old(v1), Mul(Sub(Mul(Sub(target, old(p1)), Stiffness), Mul(old(v1), Damping)), dt))
      ensures p1 == Add(old(p1), Mul(v1, dt))
      ensures v2 == Add(old(v2), Mul(Sub(Mul(Sub(Add(p1, TrailOffset), old(p2)), Stiffness * TrailRatio), Mul(old(v2), Damping)), dt))
      ensures p2 == Add(old(p2), Mul(v2, dt))
      ensures Bodies() == Step(old(Bodies()), target, dt)
      ensures target == old(target) && dragging == old(dragging)
    {
      var a1 := Sub(target, p1);
      a1 := Sub(Mul(a1, Stiffness), Mul(v1, Damping));
      v1 := Add(v1, Mul(a1, dt));
      p1 := Add(p1, Mul(v1, dt));

      var desiredP2 := Add(p1, TrailOffset);
      var a2 := Sub(desiredP2, p2);
      a2 := Sub(Mul(a2, Stiffness * TrailRatio), Mul(v2, Damping));
      v2 := Add(v2, Mul(a2, dt));
      p2 := Add(p2, Mul(v2, dt));
    }

    /** The `mousedown` listener: start a drag at the event position. */
    method MouseDown(at: Vec)
      modifies this`dragging, this`target
      ensures dragging && target == at
      ensures Tracker() == Handle(old(Tracker()), Down(at))
    {
      dragging := true;
      target := at;
    }

    /** The `mousemove` listener: follow the pointer only while dragging. */
    method MouseMove(at: Vec)
      modifies this`target
      ensures target == if dragging then at else old(target)
      ensures Tracker() == Handle(old(Tracker()), Move(at))
    {
      if dragging {
        target := at;
      }
    }

    /** The `mouseup` listener: end the drag, keep the target. */
    method MouseUp()
      modifies this`dragging
      ensures !dragging
      ensures Tracker() == Handle(old(Tracker()), Up)
    {
      dragging := false;
    }

    /** The `mouseleave` listener: end the drag, keep the target. */
    method MouseLeave()
      modifies this`dragging
      ensures !dragging
      ensures Tracker() == Handle(old(Tracker()), Leave)
    {
      dragging := false;
    }

    /**
     * The simulation part of `loop(now)`: clamp the elapsed time, remember
     * `now` as the previous frame, and run one `update` with the clamped step.
     */
    method Tick(now: real)
      modifies this`p1, this`v1, this`p2, this`v2, this`last
      ensures last == now
      ensures Bodies() == Step(old(Bodies()), target, ClampDt(now, old(last)))
      ensures target == old(target) && dragging == old(dragging)
    {
      var dt := ClampDt(now, last);
      last := now;
      Update(dt);
    }
  }
}
