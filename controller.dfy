/**
 * The sliding-mode controller: backward finite-difference velocity
 * estimates against the previous call's inputs, the sliding surface
 * s = e_dot + lambda*e, and the bang-bang torque -k*sign(s) with sign(0) = 0.
 * The pure functions thread the controller's memory explicitly; the class
 * holds it in fields, as the source does.
 */
module Controller {

  /** What the controller remembers from its previous call. */
  datatype Memory = Memory(lastAngle: real, lastDesired: real)

  /** The memory of a freshly constructed controller. */
  const Initial: Memory := Memory(0.0, 0.0)

  /** Surface slope lambda, switching gain k and time step dt. */
  datatype Gains = Gains(lambda: real, k: real, dt: real)

  /** The three-valued sign of x; zero has sign 0. */
  function Sign(x: real): (r: int)
    ensures -1 <= r <= 1
    ensures r == 1 <==> x > 0.0
    ensures r == -1 <==> x < 0.0
    ensures r == 0 <==> x == 0.0
  {
    if x > 0.0 then 1 else if x < 0.0 then -1 else 0
  }

  /** The sliding surface for the current inputs, estimated against memory `m`. */
  function Surface(m: Memory, g: Gains, angle: real, desired: real): (s: real)
    requires g.dt != 0.0
    ensures angle == m.lastAngle && desired == m.lastDesired ==> s == g.lambda * (angle - desired)
  {
    var angularVelocity := (angle - m.lastAngle) / g.dt;
    var desiredVelocity := (desired - m.lastDesired) / g.dt;
    var e := angle - desired;
    var eDot := angularVelocity - desiredVelocity;
    eDot + g.lambda * e
  }

  /** The switching law: the torque -k*sign(s). */
  function Torque(k: real, s: real): (u: real)
    ensures u == -k || u == 0.0 || u == k
    ensures s > 0.0 ==> u == -k
    ensures s < 0.0 ==> u == k
    ensures s == 0.0 ==> u == 0.0
    ensures k >= 0.0 ==> -k <= u <= k && u * s <= 0.0
  {
    -k * (Sign(s) as real)
  }

  /** One call of the controller: the committed memory and the torque. */
  function ControlStep(m: Memory, g: Gains, angle: real, desired: real): (r: (Memory, real))
    requires g.dt != 0.0
    ensures r.0 == Memory(angle, desired)
    ensures r.1 == -g.k || r.1 == 0.0 || r.1 == g.k
    ensures g.k >= 0.0 ==> -g.k <= r.1 <= g.k && r.1 * Surface(m, g, angle, desired) <= 0.0
  {
    var u := Torque(g.k, Surface(m, g, angle, desired));
    (Memory(angle, desired), u)
  }

  /**
   * The surface is the finite-difference rate of the tracking error plus
   * lambda times the error, where the previous error is the one the memory
   * describes.
   */
  lemma SurfaceIsErrorRate(m: Memory, g: Gains, angle: real, desired: real)
    requires g.dt != 0.0
    ensures Surface(m, g, angle, desired)
         == ((angle - desired) - (m.lastAngle - m.lastDesired)) / g.dt
            + g.lambda * (angle - desired)
  {
  }

  /**
   * On the first call the memory is zero, so the velocity estimates are
   * angle/dt and desired/dt; with both inputs zero the torque is zero.
   */
  lemma FirstCall(g: Gains, angle: real, desired: real)
    requires g.dt != 0.0
    ensures Surface(Initial, g, angle, desired)
         == (angle / g.dt - desired / g.dt) + g.lambda * (angle - desired)
    ensures ControlStep(Initial, g, 0.0, 0.0) == (Initial, 0.0)
  {
  }

  /**
   * Two calls in a row: the second call's torque is decided by the first
   * call's inputs, whatever the memory held before the first call.
   */
  lemma ConsecutiveCalls(m: Memory, g: Gains, a1: real, d1: real, a2: real, d2: real)
    requires g.dt != 0.0
    ensures ControlStep(ControlStep(m, g, a1, d1).0, g, a2, d2).1
         == Torque(g.k, ((a2 - d2) - (a1 - d1)) / g.dt + g.lambda * (a2 - d2))
  {
    SurfaceIsErrorRate(Memory(a1, d1), g, a2, d2);
  }

  /** The controller object; `control` reads and then overwrites its memory. */
  class SlidingModeController {
    var lambda: real
    var k: real
    var lastAngle: real
    var lastDesired: real
    var dt: real

    /** The controller's memory as a value. */
    function Memo(): Memory
      reads this
    {
      Memory(lastAngle, lastDesired)
    }

    /** The controller's parameters as a value. */
    function Params(): Gains
      reads this
    {
      Gains(lambda, k, dt)
    }

    constructor (lambda: real, k: real, dt: real)
      ensures this.lambda == lambda && this.k == k && this.dt == dt
      ensures lastAngle == 0.0 && lastDesired == 0.0
      ensures Memo() == Initial
    {
      this.lambda := lambda;
      this.k := k;
      this.lastAngle := 0.0;
      this.lastDesired := 0.0;
      this.dt := dt;
    }

    /** Returns the torque for the current angle and desired angle, then remembers both. */
    method Control(angle: real, desired: real) returns (u: real)
      requires dt != 0.0
      modifies this
      ensures lambda == old(lambda) && k == old(k) && dt == old(dt)
      ensures u == Torque(k, Surface(old(Memo()), Params(), angle, desired))
      ensures lastAngle == angle && lastDesired == desired
      ensures (Memo(), u) == ControlStep(old(Memo()), Params(), angle, desired)
    {
      var angularVelocity := (angle - lastAngle) / dt;
      var desiredVelocity := (desired - lastDesired) / dt;

      var e := angle - desired;
      var eDot := angularVelocity - desiredVelocity;
      var s := eDot + lambda * e;
      u := -k * (Sign(s) as real);

      lastAngle := angle;
      lastDesired := desired;
    }
  }
}
