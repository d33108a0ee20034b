/**
 * The closed tracking loop: per desired angle, ask the controller for a
 * torque at the arm's current angle, apply it to the arm, and record the new
 * angle and the tracking error. The desired-angle trajectory is an input
 * sequence; the functions below give the loop's meaning on values, and
 * RunSimulation runs it on a fresh arm and a fresh controller.
 */
module Simulation {
  import opened Plant
  import opened Controller

  /** Gains of the source's run: lambda = 10, k = 5, dt = 0.01. */
  const SourceGains: Gains := Gains(10.0, 5.0, 0.01)

  /** What a run carries from one step to the next: the arm and the controller memory. */
  datatype LoopState = LoopState(arm: ArmState, mem: Memory)

  /** A fresh arm and a fresh controller. */
  const Start: LoopState := LoopState(Rest, Initial)

  /** The torque the controller outputs in state `st` for the desired angle `desired`. */
  function TorqueAt(g: Gains, st: LoopState, desired: real): (u: real)
    requires g.dt != 0.0
    ensures u == -g.k || u == 0.0 || u == g.k
    ensures g.k >= 0.0 ==> -g.k <= u <= g.k
  {
    ControlStep(st.mem, g, st.arm.angle, desired).1
  }

  /**
   * One step of the loop: control, then update. The controller remembers
   * the pre-update angle and the desired angle, and because the arm moves
   * its angle with the NEW velocity, the remembered angle ends exactly one
   * velocity step behind the arm.
   */
  function Tick(g: Gains, st: LoopState, desired: real): (r: LoopState)
    requires g.dt != 0.0
    ensures r.mem == Memory(st.arm.angle, desired)
    ensures EstimateExact(g, r)
  {
    var (mem, u) := ControlStep(st.mem, g, st.arm.angle, desired);
    LoopState(Step(st.arm, u, g.dt), mem)
  }

  /** The state after running the loop over the desired angles `ds`. */
  function After(g: Gains, st: LoopState, ds: seq<real>): (r: LoopState)
    requires g.dt != 0.0
    ensures |ds| > 0 ==> r.mem.lastDesired == ds[|ds| - 1]
    decreases |ds|
  {
    if ds == [] then st else After(g, Tick(g, st, ds[0]), ds[1..])
  }

  /** The recorded angles: one post-update angle per desired angle. */
  function Angles(g: Gains, st: LoopState, ds: seq<real>): (r: seq<real>)
    requires g.dt != 0.0
    ensures |r| == |ds|
    decreases |ds|
  {
    if ds == [] then []
    else
      var next := Tick(g, st, ds[0]);
      [next.arm.angle] + Angles(g, next, ds[1..])
  }

  /** Running one more step appends one tick to the final state. */
  lemma {:induction false} AfterSnoc(g: Gains, st: LoopState, ds: seq<real>, d: real)
    requires g.dt != 0.0
    ensures After(g, st, ds + [d]) == Tick(g, After(g, st, ds), d)
    decreases |ds|
  {
    if ds == [] {
      assert ds + [d] == [d];
      assert [d][1..] == [];
    } else {
      assert (ds + [d])[0] == ds[0];
      assert (ds + [d])[1..] == ds[1..] + [d];
      AfterSnoc(g, Tick(g, st, ds[0]), ds[1..], d);
    }
  }

  /** Running one more step appends exactly the new post-update angle to the record. */
  lemma {:induction false} AnglesSnoc(g: Gains, st: LoopState, ds: seq<real>, d: real)
    requires g.dt != 0.0
    ensures Angles(g, st, ds + [d]) == Angles(g, st, ds) + [Tick(g, After(g, st, ds), d).arm.angle]
    decreases |ds|
  {
    if ds == [] {
      assert ds + [d] == [d];
      assert [d][1..] == [];
    } else {
      var next := Tick(g, st, ds[0]);
      assert (ds + [d])[0] == ds[0];
      assert (ds + [d])[1..] == ds[1..] + [d];
      AnglesSnoc(g, next, ds[1..], d);
    }
  }

  /** The i-th recorded angle is the arm's angle after the first i + 1 steps. */
  lemma {:induction false} AnglesAt(g: Gains, st: LoopState, ds: seq<real>, i: nat)
    requires g.dt != 0.0
    requires i < |ds|
    ensures Angles(g, st, ds)[i] == After(g, st, ds[..i + 1]).arm.angle
    decreases |ds|
  {
    var next := Tick(g, st, ds[0]);
    assert ds[..i + 1][0] == ds[0];
    if i == 0 {
      assert ds[..1][1..] == [];
    } else {
      assert ds[..i + 1][1..] == ds[1..][..i];
      AnglesAt(g, next, ds[1..], i - 1);
    }
  }

  /**
   * After at least one step the controller remembers the last desired angle
   * and the arm's angle from before that step.
   */
  lemma MemoryAfterRun(g: Gains, st: LoopState, ds: seq<real>)
    requires g.dt != 0.0
    requires |ds| > 0
    ensures After(g, st, ds).mem
         == Memory(After(g, st, ds[..|ds| - 1]).arm.angle, ds[|ds| - 1])
  {
    var n := |ds| - 1;
    assert ds == ds[..n] + [ds[n]];
    AfterSnoc(g, st, ds[..n], ds[n]);
  }

  /** A fresh arm and controller with desired angle 0 output no torque and stay put. */
  lemma RestTick(g: Gains)
    requires g.dt != 0.0
    ensures TorqueAt(g, Start, 0.0) == 0.0
    ensures Tick(g, Start, 0.0) == Start
  {
  }

  /**
   * A run whose first desired angle is 0 applies no torque at its first
   * step, and its first recorded angle and error are 0.
   */
  lemma FirstStepAtRest(g: Gains, ds: seq<real>)
    requires g.dt != 0.0
    requires |ds| > 0 && ds[0] == 0.0
    ensures TorqueAt(g, Start, ds[0]) == 0.0
    ensures Angles(g, Start, ds)[0] == 0.0 && Angles(g, Start, ds)[0] - ds[0] == 0.0
  {
    RestTick(g);
  }

  /**
   * The source's run (lambda = 10, k = 5, dt = 0.01) starts on a desired
   * angle of 0, the sine at time 0: its first torque is 0.
   */
  lemma SourceFirstStep(ds: seq<real>)
    requires |ds| > 0 && ds[0] == 0.0
    ensures TorqueAt(SourceGains, Start, ds[0]) == 0.0
    ensures Angles(SourceGains, Start, ds)[0] == 0.0
  {
    FirstStepAtRest(SourceGains, ds);
  }

  /**
   * Zero fixed point: when every desired angle is 0, a fresh arm and
   * controller never leave the start state, and every recorded angle is 0.
   */
  lemma {:induction false} ZeroTrajectory(g: Gains, ds: seq<real>)
    requires g.dt != 0.0
    requires forall i :: 0 <= i < |ds| ==> ds[i] == 0.0
    ensures After(g, Start, ds) == Start
    ensures forall i :: 0 <= i < |ds| ==> Angles(g, Start, ds)[i] == 0.0
    decreases |ds|
  {
    if ds != [] {
      RestTick(g);
      ZeroTrajectory(g, ds[1..]);
    }
  }

  /** ... and every torque applied along such a run is 0. */
  lemma ZeroTorques(g: Gains, ds: seq<real>)
    requires g.dt != 0.0
    requires forall i :: 0 <= i < |ds| ==> ds[i] == 0.0
    ensures forall i :: 0 <= i < |ds| ==> TorqueAt(g, After(g, Start, ds[..i]), ds[i]) == 0.0
  {
    forall i | 0 <= i < |ds|
      ensures TorqueAt(g, After(g, Start, ds[..i]), ds[i]) == 0.0
    {
      ZeroTrajectory(g, ds[..i]);
      RestTick(g);
    }
  }

  /**
   * The controller's remembered angle is exactly one step of the arm's
   * current velocity behind the arm's angle.
   */
  ghost predicate EstimateExact(g: Gains, st: LoopState)
  {
    st.mem.lastAngle + st.arm.velocity * g.dt == st.arm.angle
  }

  /** A run from a state where the estimate is exact keeps it exact. */
  lemma {:induction false} EstimateExactAlongRun(g: Gains, st: LoopState, ds: seq<real>)
    requires g.dt != 0.0
    requires EstimateExact(g, st)
    ensures EstimateExact(g, After(g, st, ds))
    decreases |ds|
  {
    if ds != [] {
      EstimateExactAlongRun(g, Tick(g, st, ds[0]), ds[1..]);
    }
  }

  /**
   * In the closed loop from a fresh start, the controller's backward
   * finite-difference estimate of the arm's velocity is the arm's true
   * velocity, at every step.
   */
  lemma MeasuredVelocityIsExact(g: Gains, ds: seq<real>)
    requires g.dt != 0.0
    ensures (After(g, Start, ds).arm.angle - After(g, Start, ds).mem.lastAngle) / g.dt
         == After(g, Start, ds).arm.velocity
  {
    EstimateExactAlongRun(g, Start, ds);
    var st := After(g, Start, ds);
    DivideProduct(st.arm.angle - st.mem.lastAngle, st.arm.velocity, g.dt);
  }

  /** Dividing v * dt by dt gives back v. */
  lemma DivideProduct(x: real, v: real, dt: real)
    requires dt != 0.0
    requires x == v * dt
    ensures x / dt == v
  {
  }

  /**
   * In a state where the remembered angle is one velocity step behind the
   * arm, the surface uses the arm's true velocity in place of the estimate;
   * the desired velocity is still the difference against the remembered
   * desired angle `previous`.
   */
  lemma SurfaceAtExactState(g: Gains, st: LoopState, desired: real, previous: real)
    requires g.dt != 0.0
    requires EstimateExact(g, st) && st.mem.lastDesired == previous
    ensures Surface(st.mem, g, st.arm.angle, desired)
         == (st.arm.velocity - (desired - previous) / g.dt)
            + g.lambda * (st.arm.angle - desired)
  {
    DivideProduct(st.arm.angle - st.mem.lastAngle, st.arm.velocity, g.dt);
  }

  /** The desired angle before step i: desired angle i - 1, or 0 before the first step. */
  function PreviousDesired(ds: seq<real>, i: nat): real
    requires i <= |ds|
  {
    if i == 0 then 0.0 else ds[i - 1]
  }

  /** Before step i the controller remembers the previous desired angle. */
  lemma LastDesiredAlongRun(g: Gains, ds: seq<real>, i: nat)
    requires g.dt != 0.0
    requires i <= |ds|
    ensures After(g, Start, ds[..i]).mem.lastDesired == PreviousDesired(ds, i)
  {
    if i > 0 {
      MemoryAfterRun(g, Start, ds[..i]);
    }
  }

  /**
   * The surface at step i of a run from a fresh start: the arm's true
   * velocity, minus the finite difference of the desired angles (against 0
   * at the first step), plus lambda times the tracking error.
   */
  lemma SurfaceAlongRun(g: Gains, ds: seq<real>, i: nat)
    requires g.dt != 0.0
    requires i < |ds|
    ensures Surface(After(g, Start, ds[..i]).mem, g, After(g, Start, ds[..i]).arm.angle, ds[i])
         == (After(g, Start, ds[..i]).arm.velocity - (ds[i] - PreviousDesired(ds, i)) / g.dt)
            + g.lambda * (After(g, Start, ds[..i]).arm.angle - ds[i])
  {
    var st := After(g, Start, ds[..i]);
    EstimateExactAlongRun(g, Start, ds[..i]);
    LastDesiredAlongRun(g, ds, i);
    SurfaceAtExactState(g, st, ds[i], PreviousDesired(ds, i));
  }

  /**
   * The driver: builds a fresh arm and a fresh controller sharing `g.dt`,
   * then per desired angle calls control, then update, and records the
   * post-update angle and its tracking error.
   */
  method RunSimulation(length: real, g: Gains, desired: seq<real>)
    returns (angles: seq<real>, errors: seq<real>)
    requires g.dt != 0.0
    ensures |angles| == |desired| && |errors| == |desired|
    ensures angles == Angles(g, Start, desired)
    ensures forall i :: 0 <= i < |desired| ==> errors[i] == angles[i] - desired[i]
  {
    var arm := new SingleLinkArm(length, g.dt);
    var controller := new SlidingModeController(g.lambda, g.k, g.dt);

    angles := [];
    errors := [];

    for i := 0 to |desired|
      invariant arm.dt == g.dt && controller.Params() == g
      invariant LoopState(arm.State(), controller.Memo()) == After(g, Start, desired[..i])
      invariant angles == Angles(g, Start, desired[..i])
      invariant |errors| == i
      invariant forall j :: 0 <= j < i ==> errors[j] == angles[j] - desired[j]
    {
      ghost var before := LoopState(arm.State(), controller.Memo());
      var torque := controller.Control(arm.angle, desired[i]);
      var _ := arm.Update(torque);

      angles := angles + [arm.angle];
      errors := errors + [arm.angle - desired[i]];

      assert LoopState(arm.State(), controller.Memo()) == Tick(g, before, desired[i]);
      assert desired[..i + 1] == desired[..i] + [desired[i]];
      AfterSnoc(g, Start, desired[..i], desired[i]);
      AnglesSnoc(g, Start, desired[..i], desired[i]);
    }
    assert desired[..|desired|] == desired;
  }
}
