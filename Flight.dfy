/** The per-tick behaviour of the character movement controller, on values.
    A `State` holds every field the controller updates (boost fuel and flag,
    the three glides, the four latest axis inputs); `Config` holds the tuning
    constants. One fixed step is `BoostStep` followed by `GlideStep`, and the
    force and torque coefficients of that step are `TickForces`. Quantities are
    `real`: single-precision rounding is not modelled. */
module Flight {

  /** Inputs whose magnitude does not exceed this count as neutral. */
  const Deadzone: real := 0.1

  datatype Config = Config(
    rollTorque: real,
    thrust: real,
    upThrust: real,
    strafeThrust: real,
    maxBoostAmount: real,
    boostDeprecationRate: real,
    boostRechargeRate: real,
    boostMultiplier: real,
    thrustGlideReduction: real,
    upDownGlideReduction: real,
    leftRightGlideReduction: real)

  /** The serialized defaults of the controller. */
  const Defaults: Config := Config(1000.0, 100.0, 50.0, 50.0, 2.0, 0.25, 0.5, 5.0, 0.999, 0.111, 0.111)

  predicate IsDecayFactor(r: real) {
    0.0 < r < 1.0
  }

  /** The decay factors are restricted to the open unit interval. */
  predicate ValidConfig(c: Config) {
    IsDecayFactor(c.thrustGlideReduction) &&
    IsDecayFactor(c.upDownGlideReduction) &&
    IsDecayFactor(c.leftRightGlideReduction)
  }

  /** Fuel moves in positive steps and starts at a non-negative maximum. */
  predicate PositiveRates(c: Config) {
    0.0 < c.boostDeprecationRate && 0.0 < c.boostRechargeRate && 0.0 <= c.maxBoostAmount
  }

  datatype State = State(
    currentBoostAmount: real,
    boosting: bool,
    glide: real,
    verticalGlide: real,
    horisontalGlide: real,
    thrust1D: real,
    upDown1D: real,
    strafe1D: real,
    roll1D: real)

  /** Scalar coefficients of one tick: along the camera's forward axis, the
      body's local up axis and the camera's right axis, and the roll torque
      along the camera's forward axis. */
  datatype Forces = Forces(forward: real, up: real, right: real, torque: real)

  /** What the controller can be told between two ticks. */
  datatype Event =
    | Thrust(value: real)
    | Strafe(value: real)
    | UpDown(value: real)
    | Roll(value: real)
    | Boost(performed: bool)
    | FixedUpdate

  /** State after the start hook: fuel full, everything else zero or false. */
  function Initial(c: Config): State {
    State(c.maxBoostAmount, false, 0.0, 0.0, 0.0, 0.0, 0.0, 0.0, 0.0)
  }

  function Abs(x: real): real {
    if x < 0.0 then -x else x
  }

  /** An axis is driven when it lies strictly outside the deadzone. */
  predicate Active(axis: real) {
    axis > Deadzone || axis < -Deadzone
  }

  /** The boost state machine: drain while boosting with fuel left, else recharge below the maximum. */
  function BoostStep(c: Config, s: State): State {
    if s.boosting && s.currentBoostAmount > 0.0 then
      var fuel := s.currentBoostAmount - c.boostDeprecationRate;
      s.(currentBoostAmount := fuel, boosting := if fuel <= 0.0 then false else s.boosting)
    else if s.currentBoostAmount < c.maxBoostAmount then
      s.(currentBoostAmount := s.currentBoostAmount + c.boostRechargeRate)
    else
      s
  }

  /** Forward glide: reset to the raw thrust gain when driven, else decayed. */
  function ForwardGlide(c: Config, input: real, g: real): real {
    if Active(input) then c.thrust else g * c.thrustGlideReduction
  }

  /** Vertical glide: multiplied by input times gain when driven, else decayed. */
  function VerticalGlide(c: Config, input: real, g: real): real {
    if Active(input) then g * (input * c.upThrust) else g * c.upDownGlideReduction
  }

  /** Strafe glide: reset to input times the strafe gain when driven, else decayed. */
  function StrafeGlide(c: Config, input: real, g: real): real {
    if Active(input) then input * c.strafeThrust else g * c.leftRightGlideReduction
  }

  /** The glide updates of the movement step. */
  function GlideStep(c: Config, s: State): State {
    s.(glide := ForwardGlide(c, s.thrust1D, s.glide),
       verticalGlide := VerticalGlide(c, s.upDown1D, s.verticalGlide),
       horisontalGlide := StrafeGlide(c, s.strafe1D, s.horisontalGlide))
  }

  /** Forward coefficient: input × gain (× multiplier while boosting) when driven, else the glide. */
  function ForwardForce(c: Config, input: real, boosting: bool, g: real, dt: real): real {
    if Active(input) then input * (if boosting then c.thrust * c.boostMultiplier else c.thrust) * dt
    else g * dt
  }

  /** Local-up coefficient: input × vertical gain when driven, else the vertical glide. */
  function UpForce(c: Config, input: real, g: real, fixedDt: real): real {
    if Active(input) then input * c.upThrust * fixedDt else g * fixedDt
  }

  /** Right coefficient: input × vertical gain when driven, else the strafe glide. */
  function RightForce(c: Config, input: real, g: real, fixedDt: real): real {
    if Active(input) then input * c.upThrust * fixedDt else g * fixedDt
  }

  /** The coefficients the movement step applies, read from the state before its glide updates. */
  function MoveForces(c: Config, s: State, dt: real, fixedDt: real): Forces {
    Forces(
      ForwardForce(c, s.thrust1D, s.boosting, s.glide, dt),
      UpForce(c, s.upDown1D, s.verticalGlide, fixedDt),
      RightForce(c, s.strafe1D, s.horisontalGlide, fixedDt),
      -(s.roll1D * c.rollTorque * dt))
  }

  /** The state after one fixed step: boosting first, then movement. */
  function TickState(c: Config, s: State): State {
    GlideStep(c, BoostStep(c, s))
  }

  /** The coefficients one fixed step emits; movement sees the boost flag the boost step left. */
  function TickForces(c: Config, s: State, dt: real, fixedDt: real): Forces {
    MoveForces(c, BoostStep(c, s), dt, fixedDt)
  }

  /** One input callback or one fixed step. */
  function Apply(c: Config, s: State, e: Event): State {
    match e
    case Thrust(v) => s.(thrust1D := v)
    case Strafe(v) => s.(strafe1D := v)
    case UpDown(v) => s.(upDown1D := v)
    case Roll(v) => s.(roll1D := v)
    case Boost(p) => s.(boosting := p)
    case FixedUpdate => TickState(c, s)
  }

  /** A sequence of callbacks and steps, in delivery order. */
  function Run(c: Config, s: State, es: seq<Event>): State
    decreases |es|
  {
    if es == [] then s else Run(c, Apply(c, s, es[0]), es[1..])
  }

  /** `n` fixed steps with no input in between. */
  function Ticks(c: Config, s: State, n: nat): State {
    if n == 0 then s else TickState(c, Ticks(c, s, n - 1))
  }

  function Pow(r: real, n: nat): (p: real)
    ensures 0.0 < r ==> 0.0 < p
  {
    if n == 0 then 1.0 else r * Pow(r, n - 1)
  }

  // ---------------------------------------------------------------- boost

  /** A tick that boosts with fuel left drains exactly one rate and clears the flag iff the fuel is gone. */
  lemma DrainTick(c: Config, s: State)
    requires s.boosting && s.currentBoostAmount > 0.0
    ensures TickState(c, s).currentBoostAmount == s.currentBoostAmount - c.boostDeprecationRate
    ensures !TickState(c, s).boosting <==> TickState(c, s).currentBoostAmount <= 0.0
  {
  }

  /** Otherwise a tick recharges by exactly one rate below the maximum, leaves the fuel at or above
      it, and does not touch the flag; nothing clamps the result. */
  lemma RechargeTick(c: Config, s: State)
    requires !(s.boosting && s.currentBoostAmount > 0.0)
    ensures TickState(c, s).boosting == s.boosting
    ensures s.currentBoostAmount < c.maxBoostAmount ==>
      TickState(c, s).currentBoostAmount == s.currentBoostAmount + c.boostRechargeRate
    ensures s.currentBoostAmount >= c.maxBoostAmount ==>
      TickState(c, s).currentBoostAmount == s.currentBoostAmount
  {
  }

  /** Below the maximum and not boosting, a tick adds exactly one recharge rate. */
  lemma RechargeBelowMax(c: Config, s: State)
    requires !s.boosting && s.currentBoostAmount < c.maxBoostAmount
    ensures TickState(c, s).currentBoostAmount == s.currentBoostAmount + c.boostRechargeRate
    ensures !TickState(c, s).boosting
  {
  }

  /** A tick never raises the boost flag. */
  lemma TickNeverSetsBoosting(c: Config, s: State)
    ensures TickState(c, s).boosting ==> s.boosting
  {
  }

  /** Only the boost callback raises the flag, and only with a performed context. */
  lemma OnlyBoostCallbackSetsBoosting(c: Config, s: State, e: Event)
    requires !s.boosting && Apply(c, s, e).boosting
    ensures e == Boost(true)
  {
  }

  /** Boosting holds `n` ticks in a row while fuel is left: fuel falls by `n` rates and the flag
      is still up exactly when fuel is still positive. */
  lemma {:induction false} DrainRun(c: Config, s: State, n: nat)
    requires 0.0 < c.boostDeprecationRate
    requires s.boosting && 1 <= n
    requires s.currentBoostAmount - (n - 1) as real * c.boostDeprecationRate > 0.0
    ensures Ticks(c, s, n).currentBoostAmount == s.currentBoostAmount - n as real * c.boostDeprecationRate
    ensures Ticks(c, s, n).boosting <==> Ticks(c, s, n).currentBoostAmount > 0.0
  {
    var d := c.boostDeprecationRate;
    var t := if n == 1 then s else Ticks(c, s, n - 1);
    if n > 1 {
      RateMultiple(n - 2, d);
      DrainRun(c, s, n - 1);
    }
    DrainTick(c, t);
    RateMultiple(n - 1, d);
  }

  /** Without boosting, fuel rises by `n` rates while it stays below the maximum. */
  lemma {:induction false} RechargeRun(c: Config, s: State, n: nat)
    requires 0.0 < c.boostRechargeRate
    requires !s.boosting && 1 <= n
    requires s.currentBoostAmount + (n - 1) as real * c.boostRechargeRate < c.maxBoostAmount
    ensures Ticks(c, s, n).currentBoostAmount == s.currentBoostAmount + n as real * c.boostRechargeRate
    ensures !Ticks(c, s, n).boosting
  {
    var r := c.boostRechargeRate;
    var t := if n == 1 then s else Ticks(c, s, n - 1);
    if n > 1 {
      RateMultiple(n - 2, r);
      RechargeRun(c, s, n - 1);
    }
    RechargeBelowMax(c, t);
    RateMultiple(n - 1, r);
  }

  lemma RateMultiple(k: nat, r: real)
    ensures (k + 1) as real * r == k as real * r + r
  {
  }

  /** Without boosting, fuel at or above the maximum stays where it is. */
  lemma {:induction false} FullFuelStays(c: Config, s: State, n: nat)
    requires !s.boosting && s.currentBoostAmount >= c.maxBoostAmount
    ensures Ticks(c, s, n).currentBoostAmount == s.currentBoostAmount
    ensures !Ticks(c, s, n).boosting
  {
    if n > 0 {
      FullFuelStays(c, s, n - 1);
    }
  }

  /** With the defaults, eight boosting ticks from a full tank end at exactly zero; the flag is
      still up after seven and down after eight. */
  lemma DefaultDrainScenario()
    ensures Ticks(Defaults, Initial(Defaults).(boosting := true), 7).currentBoostAmount == 0.25
    ensures Ticks(Defaults, Initial(Defaults).(boosting := true), 7).boosting
    ensures Ticks(Defaults, Initial(Defaults).(boosting := true), 8).currentBoostAmount == 0.0
    ensures !Ticks(Defaults, Initial(Defaults).(boosting := true), 8).boosting
  {
    DrainRun(Defaults, Initial(Defaults).(boosting := true), 7);
    DrainRun(Defaults, Initial(Defaults).(boosting := true), 8);
  }

  /** With the defaults, one boosting tick then a released boost recharges 1.75 to 2.25, above the maximum. */
  lemma DefaultOvershootScenario()
    ensures Run(Defaults, Initial(Defaults), [Boost(true), FixedUpdate]).currentBoostAmount == 1.75
    ensures Run(Defaults, Initial(Defaults), [Boost(true), FixedUpdate, Boost(false), FixedUpdate])
              .currentBoostAmount == 2.25
  {
  }

  /** With a drain rate of 0.3, the seventh boosting tick from a full tank leaves -0.1 fuel. */
  lemma NegativeFuelScenario()
    ensures Ticks(Defaults.(boostDeprecationRate := 0.3), Initial(Defaults).(boosting := true), 7)
              .currentBoostAmount == -0.1
  {
    DrainRun(Defaults.(boostDeprecationRate := 0.3), Initial(Defaults).(boosting := true), 7);
  }

  /** Boosting runs before movement: the tick that empties the tank thrusts un-boosted. */
  lemma ExhaustingTickIsUnboosted(c: Config, s: State, dt: real, fixedDt: real)
    requires s.boosting && s.currentBoostAmount > 0.0
    requires s.currentBoostAmount - c.boostDeprecationRate <= 0.0
    requires Active(s.thrust1D)
    ensures TickForces(c, s, dt, fixedDt).forward == s.thrust1D * c.thrust * dt
    ensures !TickState(c, s).boosting
  {
  }

  /** A boosting tick that keeps fuel thrusts with the multiplier. */
  lemma BoostedTickMultipliesThrust(c: Config, s: State, dt: real, fixedDt: real)
    requires s.boosting && s.currentBoostAmount - c.boostDeprecationRate > 0.0
    requires c.boostDeprecationRate >= 0.0
    requires Active(s.thrust1D)
    ensures TickForces(c, s, dt, fixedDt).forward == s.thrust1D * (c.thrust * c.boostMultiplier) * dt
    ensures TickState(c, s).boosting
  {
  }

  /** A flag raised by the callback when the tank is already empty is not cleared: the tick
      recharges, keeps the flag, and thrusts with the multiplier. */
  lemma EmptyTankStillBoosts(c: Config, s: State, dt: real, fixedDt: real)
    requires s.boosting && s.currentBoostAmount <= 0.0
    requires Active(s.thrust1D)
    ensures TickState(c, s).boosting
    ensures TickForces(c, s, dt, fixedDt).forward == s.thrust1D * (c.thrust * c.boostMultiplier) * dt
    ensures s.currentBoostAmount < c.maxBoostAmount ==>
      TickState(c, s).currentBoostAmount == s.currentBoostAmount + c.boostRechargeRate
  {
  }

  // ---------------------------------------------------------------- deadzone

  /** The deadzone is symmetric and strict: exactly 0.1 and -0.1 are neutral. */
  lemma DeadzoneIsStrict(a: real)
    ensures Active(a) <==> Abs(a) > 0.1
    ensures Active(a) <==> Active(-a)
    ensures !Active(0.1) && !Active(-0.1)
  {
  }

  // ---------------------------------------------------------------- forward axis

  /** After a driven forward tick the glide is the raw thrust gain, whatever the input and the boost. */
  lemma ForwardActiveResetsGlide(c: Config, s: State)
    requires Active(s.thrust1D)
    ensures TickState(c, s).glide == c.thrust
  {
  }

  /** A neutral forward tick pushes with the current glide, then scales it by the decay factor. */
  lemma ForwardNeutralTick(c: Config, s: State, dt: real, fixedDt: real)
    requires !Active(s.thrust1D)
    ensures TickForces(c, s, dt, fixedDt).forward == s.glide * dt
    ensures TickState(c, s).glide == s.glide * c.thrustGlideReduction
  {
  }

  /** A neutral forward tick never grows the glide's magnitude and shrinks any nonzero glide. */
  lemma NeutralTickShrinksGlide(c: Config, s: State)
    requires ValidConfig(c) && !Active(s.thrust1D)
    ensures Abs(TickState(c, s).glide) <= Abs(s.glide)
    ensures s.glide != 0.0 ==> Abs(TickState(c, s).glide) < Abs(s.glide)
    ensures s.glide != 0.0 ==> TickState(c, s).glide != 0.0
  {
    ShrinkByFactor(s.glide, c.thrustGlideReduction);
  }

  /** After `n` neutral forward ticks the glide is the starting glide times the factor to the `n`. */
  lemma {:induction false} NeutralGlideDecay(c: Config, s: State, n: nat)
    requires !Active(s.thrust1D)
    ensures Ticks(c, s, n).thrust1D == s.thrust1D
    ensures Ticks(c, s, n).glide == s.glide * Pow(c.thrustGlideReduction, n)
  {
    if n > 0 {
      var r := c.thrustGlideReduction;
      var t := Ticks(c, s, n - 1);
      NeutralGlideDecay(c, s, n - 1);
      ForwardNeutralTick(c, t, 0.0, 0.0);
      MulAssoc(s.glide, Pow(r, n - 1), r);
    }
  }

  /** Under neutral forward input the glide's magnitude never grows from one tick to the next,
      and a nonzero glide never reaches zero however many ticks pass. */
  lemma NeutralGlideNeverVanishes(c: Config, s: State, n: nat)
    requires ValidConfig(c) && !Active(s.thrust1D)
    ensures Abs(Ticks(c, s, n + 1).glide) <= Abs(Ticks(c, s, n).glide)
    ensures s.glide != 0.0 ==> Ticks(c, s, n).glide != 0.0
  {
    var r := c.thrustGlideReduction;
    NeutralGlideDecay(c, s, n);
    ForwardNeutralTick(c, Ticks(c, s, n), 0.0, 0.0);
    ShrinkByFactor(Ticks(c, s, n).glide, r);
    if s.glide != 0.0 {
      assert 0.0 < Pow(r, n);
      assert s.glide * Pow(r, n) != 0.0;
    }
  }

  lemma MulAssoc(a: real, b: real, r: real)
    ensures (a * b) * r == a * (r * b)
  {
  }

  lemma ShrinkByFactor(g: real, r: real)
    requires IsDecayFactor(r)
    ensures Abs(g * r) <= Abs(g)
    ensures g != 0.0 ==> Abs(g * r) < Abs(g) && g * r != 0.0
    ensures 0.0 <= g ==> 0.0 <= g * r <= g
    ensures g <= 0.0 ==> g <= g * r <= 0.0
  {
    if g < 0.0 {
      assert -(g * r) == (-g) * r;
      MulNonNegative(-g, 1.0 - r);
      assert (-g) - (-g) * r == (-g) * (1.0 - r);
    } else if g > 0.0 {
      MulNonNegative(g, 1.0 - r);
    }
  }

  // ---------------------------------------------------------------- vertical axis

  /** A zero vertical glide stays zero through any tick, and a neutral vertical tick then pushes nothing. */
  lemma VerticalGlideStaysZero(c: Config, s: State, dt: real, fixedDt: real)
    requires s.verticalGlide == 0.0
    ensures TickState(c, s).verticalGlide == 0.0
    ensures !Active(s.upDown1D) ==> TickForces(c, s, dt, fixedDt).up == 0.0
  {
  }

  /** A driven vertical tick pushes by input, vertical gain and fixed step. */
  lemma VerticalActiveTick(c: Config, s: State, dt: real, fixedDt: real)
    requires Active(s.upDown1D)
    ensures TickForces(c, s, dt, fixedDt).up == s.upDown1D * c.upThrust * fixedDt
  {
  }

  // ---------------------------------------------------------------- strafe and roll

  /** A driven strafe tick stores input times the strafe gain but pushes with the vertical gain. */
  lemma StrafeActiveTick(c: Config, s: State, dt: real, fixedDt: real)
    requires Active(s.strafe1D)
    ensures TickState(c, s).horisontalGlide == s.strafe1D * c.strafeThrust
    ensures TickForces(c, s, dt, fixedDt).right == s.strafe1D * c.upThrust * fixedDt
  {
  }

  /** A neutral strafe tick pushes with the stored glide, then scales it by its decay factor. */
  lemma StrafeNeutralTick(c: Config, s: State, dt: real, fixedDt: real)
    requires !Active(s.strafe1D)
    ensures TickForces(c, s, dt, fixedDt).right == s.horisontalGlide * fixedDt
    ensures TickState(c, s).horisontalGlide == s.horisontalGlide * c.leftRightGlideReduction
  {
  }

  /** With a strafe gain of 80, full right input pushes 50 per unit step, not 80. */
  lemma StrafeGainScenario()
    ensures TickForces(Defaults.(strafeThrust := 80.0), Initial(Defaults).(strafe1D := 1.0), 0.02, 1.0).right == 50.0
    ensures TickState(Defaults.(strafeThrust := 80.0), Initial(Defaults).(strafe1D := 1.0)).horisontalGlide == 80.0
  {
  }

  /** The roll torque follows the input with no deadzone, and the roll input changes no state. */
  lemma RollTick(c: Config, s: State, a: real, dt: real, fixedDt: real)
    ensures TickForces(c, s.(roll1D := a), dt, fixedDt).torque == -(a * c.rollTorque * dt)
    ensures TickState(c, s.(roll1D := a)) == TickState(c, s).(roll1D := a)
    ensures TickForces(c, s.(roll1D := a), dt, fixedDt).(torque := 0.0) ==
            TickForces(c, s, dt, fixedDt).(torque := 0.0)
  {
  }

  // ---------------------------------------------------------------- reachable states

  predicate InRange(v: real) {
    -1.0 <= v <= 1.0
  }

  /** Every axis value the callbacks deliver lies in [-1, 1]. */
  predicate EventInRange(e: Event) {
    match e
    case Thrust(v) => InRange(v)
    case Strafe(v) => InRange(v)
    case UpDown(v) => InRange(v)
    case Roll(v) => InRange(v)
    case _ => true
  }

  predicate Between(x: real, a: real, b: real) {
    (a <= x <= b) || (b <= x <= a)
  }

  /** What holds of every state reachable from the initial one. */
  predicate Invariant(c: Config, s: State) {
    -c.boostDeprecationRate < s.currentBoostAmount < c.maxBoostAmount + c.boostRechargeRate &&
    s.verticalGlide == 0.0 &&
    Between(s.glide, 0.0, c.thrust) &&
    InRange(s.strafe1D) &&
    Abs(s.horisontalGlide) <= Abs(c.strafeThrust)
  }

  lemma InitialInvariant(c: Config)
    requires PositiveRates(c)
    ensures Invariant(c, Initial(c))
  {
  }

  lemma TickKeepsInvariant(c: Config, s: State)
    requires ValidConfig(c) && PositiveRates(c) && Invariant(c, s)
    ensures Invariant(c, TickState(c, s))
  {
    BoostStepKeepsFuelBounds(c, s);
    GlideStepKeepsBounds(c, BoostStep(c, s));
  }

  lemma BoostStepKeepsFuelBounds(c: Config, s: State)
    requires PositiveRates(c)
    requires -c.boostDeprecationRate < s.currentBoostAmount < c.maxBoostAmount + c.boostRechargeRate
    ensures -c.boostDeprecationRate < BoostStep(c, s).currentBoostAmount < c.maxBoostAmount + c.boostRechargeRate
    ensures BoostStep(c, s).(currentBoostAmount := s.currentBoostAmount, boosting := s.boosting) == s
  {
  }

  lemma GlideStepKeepsBounds(c: Config, s: State)
    requires ValidConfig(c) && Invariant(c, s)
    ensures Invariant(c, GlideStep(c, s))
  {
    var t := GlideStep(c, s);
    if !Active(s.thrust1D) {
      ShrinkByFactor(s.glide, c.thrustGlideReduction);
    }
    StrafeGlideBound(c, s);
    assert t.verticalGlide == 0.0;
  }

  lemma StrafeGlideBound(c: Config, s: State)
    requires ValidConfig(c) && InRange(s.strafe1D) && Abs(s.horisontalGlide) <= Abs(c.strafeThrust)
    ensures Abs(GlideStep(c, s).horisontalGlide) <= Abs(c.strafeThrust)
  {
    StrafeGlideWithinGain(c, s.strafe1D, s.horisontalGlide);
  }

  /** A refreshed strafe glide of an in-range input, or a decayed one, stays within the strafe gain. */
  lemma StrafeGlideWithinGain(c: Config, v: real, h: real)
    requires IsDecayFactor(c.leftRightGlideReduction) && InRange(v) && Abs(h) <= Abs(c.strafeThrust)
    ensures Abs(StrafeGlide(c, v, h)) <= Abs(c.strafeThrust)
  {
    var k, r := c.strafeThrust, c.leftRightGlideReduction;
    var g := StrafeGlide(c, v, h);
    if Active(v) {
      assert g == v * k;
      ScaledInputBound(v, k);
    } else {
      assert g == h * r;
      ShrinkByFactor(h, r);
    }
  }

  lemma ScaledInputBound(v: real, k: real)
    requires InRange(v)
    ensures Abs(v * k) <= Abs(k)
  {
    var a, b := Abs(v), Abs(k);
    assert Abs(v * k) == a * b by {
      if v < 0.0 && k < 0.0 { assert v * k == (-v) * (-k); }
      else if v < 0.0 { assert -(v * k) == (-v) * k; }
      else if k < 0.0 { assert -(v * k) == v * (-k); }
    }
    MulNonNegative(1.0 - a, b);
    assert a * b == b - (1.0 - a) * b;
  }

  lemma MulNonNegative(x: real, y: real)
    requires 0.0 <= x && 0.0 <= y
    ensures 0.0 <= x * y
  {
  }

  /** From the initial state, under any in-range callbacks and steps, fuel stays strictly between
      minus one drain rate and the maximum plus one recharge rate, the vertical glide stays zero,
      the forward glide stays between zero and the thrust gain, and the strafe glide within the
      strafe gain. */
  lemma {:induction false} RunKeepsInvariant(c: Config, s: State, es: seq<Event>)
    requires ValidConfig(c) && PositiveRates(c) && Invariant(c, s)
    requires forall i :: 0 <= i < |es| ==> EventInRange(es[i])
    ensures Invariant(c, Run(c, s, es))
    decreases |es|
  {
    if es != [] {
      if es[0] == FixedUpdate {
        TickKeepsInvariant(c, s);
      }
      RunKeepsInvariant(c, Apply(c, s, es[0]), es[1..]);
    }
  }

  /** Fuel strictly between minus one drain rate and the maximum plus one recharge rate. */
  predicate FuelBounds(c: Config, s: State) {
    -c.boostDeprecationRate < s.currentBoostAmount < c.maxBoostAmount + c.boostRechargeRate
  }

  /** Any callbacks and steps keep the fuel bounds and a zero vertical glide, whatever the
      decay factors and the input values. */
  lemma {:induction false} RunKeepsFuelBounds(c: Config, s: State, es: seq<Event>)
    requires PositiveRates(c) && FuelBounds(c, s) && s.verticalGlide == 0.0
    ensures FuelBounds(c, Run(c, s, es)) && Run(c, s, es).verticalGlide == 0.0
    decreases |es|
  {
    if es != [] {
      if es[0] == FixedUpdate {
        BoostStepKeepsFuelBounds(c, s);
        VerticalGlideStaysZero(c, s, 0.0, 0.0);
      }
      RunKeepsFuelBounds(c, Apply(c, s, es[0]), es[1..]);
    }
  }

  /** The fuel bounds and the zero vertical glide, for every run from the start. */
  lemma ReachableBounds(c: Config, es: seq<Event>)
    requires PositiveRates(c)
    ensures -c.boostDeprecationRate < Run(c, Initial(c), es).currentBoostAmount
    ensures Run(c, Initial(c), es).currentBoostAmount < c.maxBoostAmount + c.boostRechargeRate
    ensures Run(c, Initial(c), es).verticalGlide == 0.0
  {
    RunKeepsFuelBounds(c, Initial(c), es);
  }
}
