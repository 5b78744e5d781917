# Zero-gravity character movement: the fixed-step controller

This project models the `CharacterMovement` component of a six-axis, spacecraft-style
movement controller. Each fixed physics step does two things. First it advances the
boost fuel state machine. Then it turns the four latest input axes (thrust, up/down,
strafe, roll) into force and torque coefficients. It also updates three per-axis
"glide" values, which keep pushing the body for a while after an input is released.

The model has two modules.

- `Flight` (Flight.dfy) describes one step on values. `State` holds every field the
  component updates: fuel, the boosting flag, three glides and four axis inputs.
  `Config` holds the tuning constants, with `Defaults` giving the serialized defaults.
  - `BoostStep` is the boost state machine.
  - `ForwardGlide`, `VerticalGlide`, `StrafeGlide` and `GlideStep` are the glide updates.
  - `MoveForces` gives the emitted coefficients.
  - `TickState` and `TickForces` give one whole step, boost first.
  - `Apply` and `Run` replay any sequence of input callbacks and steps.
  - `Ticks` repeats steps with no input in between.
  - The lemmas state what the code promises, including its quirks.
- `Controller` (Controller.dfy) holds the class `CharacterMovement`. Its fields are the
  component's own, and its methods update them in place the way the source does. Every
  method's postcondition ties the new fields (`Snapshot()`) and the returned
  coefficients to the `Flight` functions of the old fields.

The output of a step is `Forces(forward, up, right, torque)`. These are scalar
coefficients along the camera's forward axis, the body's local up axis and the camera's
right axis. `torque` is the roll torque's coefficient along the camera's forward axis.
The engine multiplies each coefficient by its direction vector.

The model follows the code, including behaviour a reader might not expect:

- Fuel is never clamped. Boosting subtracts a whole drain rate and can leave the fuel
  negative (`NegativeFuelScenario`). Recharging adds a whole rate while the fuel is below
  the maximum, so it can pass the maximum. With the defaults, 1.75 becomes 2.25
  (`DefaultOvershootScenario`). Bounds that hold for every configuration with positive rates are
  -drain < fuel < max + recharge (`ReachableBounds`).
- A step never raises the boosting flag; only the boost callback does. A step clears the
  flag only on the draining branch. If the callback raises the flag when the fuel is
  already at or below zero, the step takes the recharge branch, keeps the flag, and
  applies boosted thrust (`EmptyTankStillBoosts`).
- Boosting runs before movement. The step that empties the tank therefore thrusts
  without the multiplier (`ExhaustingTickIsUnboosted`).
- A driven forward step sets the forward glide to the raw thrust gain. The input value
  and the boost state do not change it.
- A driven vertical step multiplies the vertical glide instead of setting it. The glide
  starts at zero, so it stays zero forever.
- A driven strafe step stores input × strafe gain as the strafe glide. Its force,
  however, uses the vertical gain (`StrafeGainScenario`).
- The deadzone test is strict: inputs of exactly 0.1 and -0.1 count as neutral. Roll has
  no deadzone and no state.

## Model

| member | source | states |
|---|---|---|
| `Flight.DrainTick` | CharacterMovement.cs:90-97 | boosting with fuel left: fuel falls by exactly the drain rate, and the flag clears iff the new fuel is ≤ 0 |
| `Flight.RechargeTick` | CharacterMovement.cs:98-104 | otherwise: fuel rises by exactly the recharge rate below the maximum and is unchanged at or above it; the flag is untouched; nothing clamps |
| `Flight.RechargeBelowMax` | CharacterMovement.cs:100-103 | not boosting and below the maximum: the step adds exactly one recharge rate and leaves the flag down |
| `Flight.TickNeverSetsBoosting` | CharacterMovement.cs:88-105 | a step can only lower the boosting flag, never raise it |
| `Flight.OnlyBoostCallbackSetsBoosting` | CharacterMovement.cs:162-170 | of all callbacks and steps, only the boost callback with a performed context raises the flag |
| `Flight.DrainRun` | CharacterMovement.cs:90-97 | n boosting steps while fuel lasts lower fuel by exactly n drain rates; the flag is still up iff fuel is still positive |
| `Flight.RechargeRun` | CharacterMovement.cs:98-104 | n non-boosting steps below the maximum raise fuel by exactly n recharge rates |
| `Flight.FullFuelStays` | CharacterMovement.cs:100-104 | without boosting, fuel at or above the maximum never changes |
| `Flight.DefaultDrainScenario` | CharacterMovement.cs:27-30 | with the defaults, eight boosting steps from full end at exactly 0; the flag is up after seven steps and down after eight |
| `Flight.DefaultOvershootScenario` | CharacterMovement.cs:98-104 | with the defaults, boost then release takes fuel 2 → 1.75 → 2.25, above the maximum |
| `Flight.NegativeFuelScenario` | CharacterMovement.cs:90-97 | with a drain rate of 0.3, the seventh boosting step from full leaves fuel at -0.1 |
| `Flight.ExhaustingTickIsUnboosted` | CharacterMovement.cs:82-86 | boosting runs before movement: the step that empties the tank thrusts with the plain gain and leaves the flag down |
| `Flight.BoostedTickMultipliesThrust` | CharacterMovement.cs:117-126 | a boosting step that keeps fuel thrusts with gain × multiplier |
| `Flight.EmptyTankStillBoosts` | CharacterMovement.cs:90-124 | a flag raised at fuel ≤ 0 survives the step, which recharges and still thrusts with the multiplier |
| `Flight.DeadzoneIsStrict` | CharacterMovement.cs:113 | an axis is driven iff its magnitude exceeds 0.1; the test is symmetric and ±0.1 are neutral |
| `Flight.ForwardActiveResetsGlide` | CharacterMovement.cs:127 | after a driven forward step the glide equals the raw thrust gain, whatever the input and the boost |
| `Flight.ForwardNeutralTick` | CharacterMovement.cs:129-133 | a neutral forward step pushes with the old glide, then multiplies the glide by its decay factor |
| `Flight.NeutralTickShrinksGlide` | CharacterMovement.cs:132 | a neutral forward step never grows the glide's magnitude, strictly shrinks a nonzero glide, and never makes it zero |
| `Flight.NeutralGlideDecay` | CharacterMovement.cs:131-132 | after n neutral forward steps the glide is g0 · rⁿ |
| `Flight.NeutralGlideNeverVanishes` | CharacterMovement.cs:131-132 | under neutral forward input the glide's magnitude never grows from tick to tick, and a nonzero glide never becomes zero |
| `Flight.VerticalGlideStaysZero` | CharacterMovement.cs:136-145 | a zero vertical glide stays zero through any step, and a neutral vertical step then pushes nothing |
| `Flight.VerticalActiveTick` | CharacterMovement.cs:138 | a driven vertical step pushes input × vertical gain × fixed step |
| `Flight.StrafeActiveTick` | CharacterMovement.cs:150-151 | a driven strafe step stores input × strafe gain but pushes input × vertical gain × fixed step |
| `Flight.StrafeNeutralTick` | CharacterMovement.cs:155-156 | a neutral strafe step pushes with the stored glide, then multiplies it by its decay factor |
| `Flight.StrafeGainScenario` | CharacterMovement.cs:150-151 | with a strafe gain of 80, full strafe input pushes 50 per unit step and stores 80 |
| `Flight.StrafeGlideWithinGain` | CharacterMovement.cs:148-157 | for inputs in [-1, 1], the strafe glide stays within the strafe gain's magnitude |
| `Flight.RollTick` | CharacterMovement.cs:110 | the torque coefficient is -roll × roll gain × dt for every input (no deadzone); the roll input changes no other state or force |
| `Flight.InitialInvariant` | CharacterMovement.cs:62 | the starting state (full fuel, zero glides and inputs) meets the reachable-state invariant |
| `Flight.BoostStepKeepsFuelBounds` | CharacterMovement.cs:88-105 | with positive rates the boost step keeps -drain < fuel < max + recharge and changes only fuel and flag |
| `Flight.GlideStepKeepsBounds` | CharacterMovement.cs:107-158 | the glide step keeps the vertical glide at 0, the forward glide between 0 and the thrust gain, and the strafe glide within the strafe gain |
| `Flight.TickKeepsInvariant` | CharacterMovement.cs:82-86 | a whole step preserves the reachable-state invariant |
| `Flight.RunKeepsInvariant` | CharacterMovement.cs:82-170 | any sequence of in-range callbacks and steps preserves the invariant |
| `Flight.RunKeepsFuelBounds` | CharacterMovement.cs:82-170 | with positive rates, any sequence of callbacks and steps, with any decay factors and any input values, keeps -drain < fuel < max + recharge and a zero vertical glide |
| `Flight.ReachableBounds` | CharacterMovement.cs:88-105 | from the start, fuel stays strictly between -drain and max + recharge, and the vertical glide stays 0, under any sequence of callbacks and steps |
| `Controller.CharacterMovement.constructor` | CharacterMovement.cs:41-62 | a new component has zero glides and inputs, is not boosting, and has full fuel |
| `Controller.CharacterMovement.OnThrust` | CharacterMovement.cs:162 | overwrites the thrust input and nothing else |
| `Controller.CharacterMovement.OnStrafe` | CharacterMovement.cs:164 | overwrites the strafe input and nothing else |
| `Controller.CharacterMovement.OnUpDown` | CharacterMovement.cs:166 | overwrites the up/down input and nothing else |
| `Controller.CharacterMovement.OnRoll` | CharacterMovement.cs:168 | overwrites the roll input and nothing else |
| `Controller.CharacterMovement.OnBoost` | CharacterMovement.cs:170 | sets the boosting flag to the callback's performed status and changes nothing else |
| `Controller.CharacterMovement.FixedUpdate` | CharacterMovement.cs:82-86 | the fields become the boost step followed by the glide step of the old fields; the result is the coefficients movement applies after boosting |
| `Controller.CharacterMovement.HandleBoosting` | CharacterMovement.cs:88-105 | the fields become the boost step of the old fields |
| `Controller.CharacterMovement.HandleMovement` | CharacterMovement.cs:107-158 | the fields become the glide step of the old fields; the result is the forward, up, right and roll coefficients |

## Left out

- Engine calls are left out: rigid-body force and torque application, the camera, and
  direction vectors. Each step returns scalar coefficients, one per direction.
- The variable and fixed frame times are parameters of the step. They do not affect
  the state.
- Single-precision floating point is left out. Quantities are exact reals.
- Input wiring is left out: the start and destroy hooks, action lookup, enabling and
  subscribing. The start hook's only effect on the state, full fuel, is in the
  constructor. The destroy hook unsubscribes from a different event than the start
  hook subscribed to, and the model does not capture this.
- Input events are not modelled as asynchronous. An event is a call between two steps,
  and the last call before a step wins.
- The editor range 0.001..0.999 on the decay factors becomes the constructor's
  requirement 0 < r < 1. Other serialized settings are unconstrained.
- `Flight.RunKeepsInvariant`: the strafe-glide bound assumes every delivered axis
  value lies in [-1, 1]. The code itself does not check this.
- The boost callback is subscribed to the performed phase only, so in the wired program
  it always delivers `Boost(true)`, and releasing the key delivers nothing. The model
  lets the callback deliver `Boost(false)` as well. `DefaultOvershootScenario` uses it
  to stand for a release that the wired program never delivers.
