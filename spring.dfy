/**
 * The two-body spring integrator of `update(dt)`: the lead control point chases
 * the pointer target, the trailing control point chases a fixed offset from the
 * lead's freshly updated position. Both use semi-implicit Euler steps.
 */
module Spring {
  import opened Vectors

  /** Stiffness `k` of the lead spring. */
  const Stiffness := 18.0
  /** Damping coefficient shared by both springs. */
  const Damping := 6.0
  /** The trailing spring's stiffness is this fraction of `k`. */
  const TrailRatio := 0.6
  /** The trailing point aims at the lead point displaced by this vector. */
  const TrailOffset := Vec(120.0, 0.0)

  /** A spring-driven control point: its position and velocity. */
  datatype Body = Body(pos: Vec, vel: Vec)

  /** The simulated state: the lead point (P1, V1) and the trailing point (P2, V2). */
  datatype Rig = Rig(lead: Body, trail: Body)

  /** Spring force towards `goal` minus damping: k (goal - pos) - damping vel. */
  function Acceleration(b: Body, goal: Vec, stiffness: real, damping: real): Vec
  {
    Sub(Mul(Sub(goal, b.pos), stiffness), Mul(b.vel, damping))
  }

  /**
   * One semi-implicit Euler step: the velocity is advanced by acceleration * dt
   * first, and the position then moves by the NEW velocity * dt (lemma
   * PositionUsesNewVelocity). A body resting at its goal, or a step of length
   * zero, changes nothing.
   */
  function SpringStep(b: Body, goal: Vec, stiffness: real, damping: real, dt: real): (r: Body)
    ensures b.pos == goal && b.vel == Zero ==> r == b
    ensures dt == 0.0 ==> r == b
  {
    var vel := Add(b.vel, Mul(Acceleration(b, goal, stiffness, damping), dt));
    Body(Add(b.pos, Mul(vel, dt)), vel)
  }

  /** The point the trailing body chases: the lead position plus the offset. */
  function TrailGoal(leadPos: Vec): Vec
  {
    Add(leadPos, TrailOffset)
  }

  /**
   * One frame of `update(dt)`: the lead body steps towards `target` with
   * stiffness k; then the trailing body steps, with stiffness 0.6 k, towards the
   * offset of the lead's position AFTER this step.
   */
  function Step(s: Rig, target: Vec, dt: real): (r: Rig)
    ensures dt == 0.0 ==> r == s
  {
    var lead := SpringStep(s.lead, target, Stiffness, Damping, dt);
    var trail := SpringStep(s.trail, TrailGoal(lead.pos), Stiffness * TrailRatio, Damping, dt);
    Rig(lead, trail)
  }

  /** One coordinate of a semi-implicit step, regrouped as a plain Euler step plus a * dt². */
  lemma SemiImplicitCoordinate(p: real, v: real, a: real, dt: real)
    ensures p + (v + a * dt) * dt == (p + v * dt) + a * (dt * dt)
  {
  }

  /**
   * The position update uses the velocity already advanced in the same step:
   * compared with a plain Euler step (position + old velocity * dt) the body
   * moves an extra acceleration * dt².
   */
  lemma {:induction false} PositionUsesNewVelocity(b: Body, goal: Vec, stiffness: real, damping: real, dt: real)
    ensures SpringStep(b, goal, stiffness, damping, dt).pos
         == Add(Add(b.pos, Mul(b.vel, dt)), Mul(Acceleration(b, goal, stiffness, damping), dt * dt))
  {
    var a := Acceleration(b, goal, stiffness, damping);
    SemiImplicitCoordinate(b.pos.x, b.vel.x, a.x, dt);
    SemiImplicitCoordinate(b.pos.y, b.vel.y, a.y, dt);
  }

  /**
   * A lead body resting on the target stays there, whatever the time step; and
   * when in addition the trailing body rests at its offset, the whole rig is
   * at equilibrium.
   */
  lemma StepAtRest(s: Rig, target: Vec, dt: real)
    requires s.lead == Body(target, Zero)
    ensures Step(s, target, dt).lead == s.lead
    ensures s.trail == Body(TrailGoal(target), Zero) ==> Step(s, target, dt) == s
  {
  }

  /** Shifting a body and its goal by `d` shifts the stepped position by `d` and keeps the velocity. */
  lemma SpringStepTranslates(b: Body, goal: Vec, stiffness: real, damping: real, dt: real, d: Vec)
    ensures SpringStep(Body(Add(b.pos, d), b.vel), Add(goal, d), stiffness, damping, dt)
         == Body(Add(SpringStep(b, goal, stiffness, damping, dt).pos, d), SpringStep(b, goal, stiffness, damping, dt).vel)
  {
    assert Sub(Add(goal, d), Add(b.pos, d)) == Sub(goal, b.pos);
  }

  /** Moving the target and both bodies by `d` moves both stepped bodies by `d`: the dynamics have no preferred origin. */
  lemma {:induction false} StepTranslates(s: Rig, target: Vec, dt: real, d: Vec)
    ensures Step(Rig(Body(Add(s.lead.pos, d), s.lead.vel), Body(Add(s.trail.pos, d), s.trail.vel)), Add(target, d), dt)
         == Rig(Body(Add(Step(s, target, dt).lead.pos, d), Step(s, target, dt).lead.vel),
                Body(Add(Step(s, target, dt).trail.pos, d), Step(s, target, dt).trail.vel))
  {
    var r := Step(s, target, dt);
    SpringStepTranslates(s.lead, target, Stiffness, Damping, dt, d);
    assert TrailGoal(Add(r.lead.pos, d)) == Add(TrailGoal(r.lead.pos), d);
    SpringStepTranslates(s.trail, TrailGoal(r.lead.pos), Stiffness * TrailRatio, Damping, dt, d);
  }

  /** One velocity coordinate after a step differs when the goal coordinate differs (for k != 0, dt != 0). */
  lemma VelocityCoordinateGap(v: real, p: real, g1: real, g2: real, k: real, damping: real, dt: real)
    requires g1 != g2 && k != 0.0 && dt != 0.0
    ensures v + ((g1 - p) * k - v * damping) * dt != v + ((g2 - p) * k - v * damping) * dt
  {
    NonZeroProduct(g1 - g2, k);
    NonZeroProduct((g1 - g2) * k, dt);
    assert (v + ((g1 - p) * k - v * damping) * dt) - (v + ((g2 - p) * k - v * damping) * dt) == ((g1 - g2) * k) * dt;
  }

  /**
   * The order of the two updates is observable: whenever the lead point moves
   * during a step of non-zero length, the trailing body's new velocity differs
   * from the one it would get by chasing the lead's OLD position.
   */
  lemma {:induction false} TrailChasesUpdatedLead(s: Rig, target: Vec, dt: real)
    requires dt != 0.0
    requires Step(s, target, dt).lead.pos != s.lead.pos
    ensures Step(s, target, dt).trail.vel
         != SpringStep(s.trail, TrailGoal(s.lead.pos), Stiffness * TrailRatio, Damping, dt).vel
  {
    var n, o := Step(s, target, dt).lead.pos, s.lead.pos;
    var b := s.trail;
    if n.x != o.x {
      VelocityCoordinateGap(b.vel.x, b.pos.x, n.x + 120.0, o.x + 120.0, Stiffness * TrailRatio, Damping, dt);
    } else {
      VelocityCoordinateGap(b.vel.y, b.pos.y, n.y + 0.0, o.y + 0.0, Stiffness * TrailRatio, Damping, dt);
    }
  }
}
