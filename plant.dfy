/**
 * The plant: a single rigid link driven by a torque, with unit inertia and
 * unit viscous damping, advanced by one semi-implicit Euler step per call
 * (the velocity is updated first and the angle then moves with the NEW
 * velocity). Python floats are modelled as exact reals.
 */
module Plant {

  /** Moment of inertia of the link; fixed at 1. */
  const Inertia: real := 1.0
  /** Viscous damping coefficient of the joint; fixed at 1. */
  const Damping: real := 1.0

  /** Angle (radians, never wrapped) and angular velocity of the link. */
  datatype ArmState = ArmState(angle: real, velocity: real)

  /** A freshly constructed arm: at angle 0, not moving. */
  const Rest: ArmState := ArmState(0.0, 0.0)

  /** Angular acceleration produced by `torque` against the damping at `velocity`. */
  function Acceleration(torque: real, velocity: real): (a: real)
    ensures a == 0.0 <==> torque == velocity
    ensures velocity == 0.0 ==> a == torque
  {
    (torque - Damping * velocity) / Inertia
  }

  /** The state after one update with `torque` over a step of length `dt`. */
  function Step(s: ArmState, torque: real, dt: real): (r: ArmState)
    ensures dt == 0.0 ==> r == s
    ensures torque == s.velocity ==> r == ArmState(s.angle + s.velocity * dt, s.velocity)
  {
    var velocity := s.velocity + Acceleration(torque, s.velocity) * dt;
    ArmState(s.angle + velocity * dt, velocity)
  }

  /**
   * Closed form of one step. The angle gains the explicit-Euler term
   * velocity*dt PLUS acceleration*dt*dt: that extra term is what the
   * velocity-first order of the update contributes.
   */
  lemma StepClosedForm(s: ArmState, torque: real, dt: real)
    ensures Step(s, torque, dt).velocity == s.velocity + (torque - s.velocity) * dt
    ensures Step(s, torque, dt).angle
         == s.angle + s.velocity * dt + (torque - s.velocity) * dt * dt
  {
  }

  /**
   * The step's increments, divided by dt, give back what drove them: the
   * velocity change is the acceleration, the angle change is the NEW velocity.
   */
  lemma StepDifferences(s: ArmState, torque: real, dt: real)
    requires dt != 0.0
    ensures (Step(s, torque, dt).velocity - s.velocity) / dt == torque - s.velocity
    ensures (Step(s, torque, dt).angle - s.angle) / dt == Step(s, torque, dt).velocity
  {
  }

  /** With no torque, a link at rest stays at rest. */
  lemma RestIsEquilibrium(dt: real)
    ensures Step(Rest, 0.0, dt) == Rest
  {
  }

  /** The single-link arm object; `update` changes its angle and velocity in place. */
  class SingleLinkArm {
    var length: real
    var angle: real
    var angularVelocity: real
    var dt: real

    /** The current angle and velocity as a value. */
    function State(): ArmState
      reads this
    {
      ArmState(angle, angularVelocity)
    }

    constructor (length: real, dt: real)
      ensures this.length == length && this.dt == dt
      ensures angle == 0.0 && angularVelocity == 0.0
      ensures State() == Rest
    {
      this.length := length;
      this.angle := 0.0;
      this.angularVelocity := 0.0;
      this.dt := dt;
    }

    /** Applies `torque` for one step and returns the angular acceleration it produced. */
    method Update(torque: real) returns (acceleration: real)
      modifies this
      ensures acceleration == torque - old(angularVelocity)
      ensures angularVelocity == old(angularVelocity) + acceleration * dt
      ensures angle == old(angle) + angularVelocity * dt
      ensures State() == Step(old(State()), torque, dt)
      ensures length == old(length) && dt == old(dt)
    {
      var inertia := Inertia;
      var damping := Damping;
      acceleration := (torque - damping * angularVelocity) / inertia;
      angularVelocity := angularVelocity + acceleration * dt;
      angle := angle + angularVelocity * dt;
    }
  }
}
