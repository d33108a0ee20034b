# Sliding-mode tracking of a single-link arm

A Dafny model of the tracking loop in `main.py`. It has three parts:

- **Plant** (`plant.dfy`). `SingleLinkArm` is a link with unit inertia and unit viscous damping. Each `update(torque)` computes the angular acceleration `torque - velocity`. It then updates the velocity, and only after that moves the angle using the NEW velocity. This is one semi-implicit Euler step. The pure function `Step` gives the meaning of one update on an `ArmState` value.
- **Controller** (`controller.dfy`). `SlidingModeController` remembers the angle and the desired angle from its previous call. A fresh controller remembers 0 for both. `control(angle, desired)` does three things:
  - it estimates both velocities by backward finite difference over `dt`;
  - it forms the sliding surface `s = e_dot + lambda*e` and returns the torque `-k*sign(s)`, where `sign(0) = 0`;
  - only then does it overwrite its memory with the current inputs.

  The pure function `ControlStep` threads the memory explicitly.
- **Driver** (`simulation.dfy`). `RunSimulation` builds a fresh arm and a fresh controller. For each desired angle it calls `control` and then `update`. It records the post-update angle and the tracking error. `Tick`, `After` and `Angles` give the meaning of the loop on values.

The desired-angle trajectory is an input sequence. The source's own run uses lambda = 10, k = 5 and dt = 0.01 (`SourceGains`).

The model also proves a fact about the closed loop as a whole. The update moves the angle with the new velocity, and the controller remembers the pre-update angle. Together, these make the controller's finite-difference velocity estimate equal to the arm's true velocity at every step (`MeasuredVelocityIsExact`). The desired velocity is also a finite difference, of the desired angles, against 0 at the first step (`SurfaceAlongRun`). The analytic desired velocity computed in the source is not used.

Two facts about the code shape the model:
- `main.py:43` has only the sign law; there is no saturation (boundary-layer) variant, so none is modelled.
- The update moves the velocity first and then the angle with the new velocity (`main.py:16-17`). That is semi-implicit Euler, not explicit Euler. `Plant.StepClosedForm` states the extra `(torque - velocity)*dt*dt` term.

## Model

| member | source | states |
|---|---|---|
| `Plant.SingleLinkArm.constructor` | main.py:6-10 | a new arm keeps its length and dt and starts at angle 0 with velocity 0 |
| `Plant.SingleLinkArm.Update` | main.py:12-18 | returns `torque - old velocity`; the new velocity is `old velocity + acceleration*dt`; the new angle is `old angle + NEW velocity*dt`; length and dt are unchanged |
| `Plant.Acceleration` | main.py:13-15 | the acceleration is 0 exactly when the torque balances the damping (torque = velocity); at zero velocity it is the torque itself |
| `Plant.Step` | main.py:15-17 | a step of length 0 changes nothing; when the torque balances the damping, the velocity is kept and the angle advances by velocity*dt |
| `Plant.StepClosedForm` | main.py:15-17 | one step adds `velocity*dt + (torque - velocity)*dt*dt` to the angle: explicit Euler's term plus the term that the velocity-first order adds |
| `Plant.StepDifferences` | main.py:15-18 | when dt is not 0, the velocity change over dt is the returned acceleration, and the angle change over dt is the updated velocity |
| `Plant.RestIsEquilibrium` | main.py:8-17 | with zero torque, an arm at rest stays at rest |
| `Controller.Sign` | main.py:43 | the sign is -1, 0 or 1, and it is 1, -1 or 0 exactly when its argument is positive, negative or zero |
| `Controller.Torque` | main.py:43 | the torque is one of -k, 0 and k; it is -k when s > 0, k when s < 0 and 0 when s = 0; when k >= 0, it lies in [-k, k] and never has the same sign as s |
| `Controller.Surface` | main.py:36-42 | when the angle and the desired angle equal the remembered ones, both velocity estimates vanish and s = lambda*e |
| `Controller.SurfaceIsErrorRate` | main.py:36-42 | s is the finite-difference rate of the tracking error against the remembered error, plus lambda times the error |
| `Controller.FirstCall` | main.py:31-42 | on the first call the velocity estimates are angle/dt and desired/dt; with both inputs 0 the torque is 0 and the memory stays 0 |
| `Controller.ConsecutiveCalls` | main.py:36-46 | for two calls in a row, the second call's torque is `-k*sign(s)` for the error rate against the FIRST call's inputs plus lambda*e, whatever the memory held before the first call |
| `Controller.ControlStep` | main.py:35-46 | one call commits its own inputs as the new memory; the torque is one of -k, 0 and k, and when k >= 0 it lies in [-k, k] and never has the sign of the surface computed from the previous memory |
| `Controller.SlidingModeController.constructor` | main.py:28-33 | a new controller keeps lambda, k and dt, and both memory fields are 0 |
| `Controller.SlidingModeController.Control` | main.py:35-49 | requires dt != 0; returns `-k*sign(s)` for the surface computed from the pre-call memory; then remembers the current angle and desired angle; lambda, k and dt are unchanged |
| `Simulation.TorqueAt` | main.py:74 | the torque a loop step applies is one of -k, 0 and k, and lies in [-k, k] when k >= 0 |
| `Simulation.Tick` | main.py:74-77 | after control then update, the controller remembers the pre-update angle and the desired angle, and that remembered angle plus the new velocity*dt is the arm's new angle |
| `Simulation.After` | main.py:72-77 | after a non-empty run, the controller remembers the last desired angle |
| `Simulation.Angles` | main.py:72-80 | the loop records exactly one angle per desired angle |
| `Simulation.AfterSnoc` | main.py:72-77 | one more desired angle means exactly one more control-then-update tick on the final state |
| `Simulation.AnglesSnoc` | main.py:72-80 | one more desired angle appends exactly the post-update angle of that tick to the record |
| `Simulation.AnglesAt` | main.py:74-80 | the i-th recorded angle is the arm's angle after steps 0..i |
| `Simulation.MemoryAfterRun` | main.py:45-46 | after a non-empty run, the controller remembers the angle from before the last step and the last desired angle |
| `Simulation.LastDesiredAlongRun` | main.py:37 | before step i, the remembered desired angle is desired angle i-1, or 0 before the first step |
| `Simulation.RestTick` | main.py:40-43 | a fresh arm and controller with desired angle 0 give torque 0 and do not leave the start state |
| `Simulation.FirstStepAtRest` | main.py:74-81 | when the first desired angle is 0, the first torque, recorded angle and error are 0 |
| `Simulation.SourceFirstStep` | main.py:64-65 | the same holds for the source's gains (lambda 10, k 5, dt 0.01) |
| `Simulation.ZeroTrajectory` | main.py:72-81 | if every desired angle is 0, a fresh arm and controller stay at the start state and every recorded angle is 0 |
| `Simulation.ZeroTorques` | main.py:40-43 | if every desired angle is 0, every torque applied along the run is 0 |
| `Simulation.EstimateExactAlongRun` | main.py:72-77 | once the remembered angle plus velocity*dt equals the arm's angle, that relation holds after any run |
| `Simulation.MeasuredVelocityIsExact` | main.py:36 | in the closed loop from a fresh start, the finite-difference velocity estimate equals the arm's true velocity at every step |
| `Simulation.SurfaceAtExactState` | main.py:36-42 | in a state where the remembered angle plus velocity*dt is the arm's angle, s uses the arm's true velocity in place of the estimate, minus the desired angles' difference over dt, plus lambda*e |
| `Simulation.SurfaceAlongRun` | main.py:36-42 | at step i, s is the arm's true velocity, minus the finite difference of desired angles i and i-1 (0 at step 0) over dt, plus lambda times the error |
| `Simulation.RunSimulation` | main.py:64-81 | from a fresh arm and controller, returns one angle and one error per desired angle; the angles are those of the closed-loop model; `errors[i] = angles[i] - desired[i]` |

## Left out

- Floating point. Python floats are modelled as exact reals, so IEEE-754 rounding, infinities and NaN are not modelled. This includes `np.sign` of NaN.
- Division by a zero `dt`. The controller and the driver require `dt != 0`. In Python such a call raises an error or yields infinities, and the model does not cover that path.
- The time grid and the sinusoidal reference (`main.py:55-61`). They use `np.arange`, `sin` and `cos`. The desired angles are an input sequence instead.
- `desired_angular_velocity` (`main.py:61`, `72`). It is zipped into the loop but never used, so the driver leaves it out.
- `SingleLinkArm.get_position` (`main.py:20-23`). It uses `cos` and `sin` and is only read by the plots.
- The plotting at `main.py:84-100`. It is output only.
- `main2.py`, the RBF interpolation demo. It relies on randomness, foreign numeric routines and plotting, and is not part of the tracking loop.
