/** The movement component as an object: the fields the fixed step and the
    input callbacks overwrite, with each method tied to the value-level step
    in module Flight. */
module Controller {
  import opened Flight

  class CharacterMovement {
    const config: Config

    var currentBoostAmount: real
    var boosting: bool
    var glide: real
    var verticalGlide: real
    var horisontalGlide: real

    var thrust1D: real
    var upDown1D: real
    var strafe1D: real
    var roll1D: real

    /** The fields as one value. */
    ghost function Snapshot(): State
      reads this
    {
      State(currentBoostAmount, boosting, glide, verticalGlide, horisontalGlide,
            thrust1D, upDown1D, strafe1D, roll1D)
    }

    /** Field initialisers and the start hook: glides and inputs zero, not boosting, fuel full. */
    constructor (config: Config)
      requires ValidConfig(config)
      ensures this.config == config
      ensures Snapshot() == Initial(config)
    {
      this.config := config;
      boosting := false;
      glide, verticalGlide, horisontalGlide := 0.0, 0.0, 0.0;
      thrust1D, upDown1D, strafe1D, roll1D := 0.0, 0.0, 0.0, 0.0;
      currentBoostAmount := config.maxBoostAmount;
    }

    method OnThrust(value: real)
      modifies this
      ensures Snapshot() == Apply(config, old(Snapshot()), Thrust(value))
    {
      thrust1D := value;
    }

    method OnStrafe(value: real)
      modifies this
      ensures Snapshot() == Apply(config, old(Snapshot()), Strafe(value))
    {
      strafe1D := value;
    }

    method OnUpDown(value: real)
      modifies this
      ensures Snapshot() == Apply(config, old(Snapshot()), UpDown(value))
    {
      upDown1D := value;
    }

    method OnRoll(value: real)
      modifies this
      ensures Snapshot() == Apply(config, old(Snapshot()), Roll(value))
    {
      roll1D := value;
    }

    /** The flag takes the callback's performed status. */
    method OnBoost(performed: bool)
      modifies this
      ensures Snapshot() == Apply(config, old(Snapshot()), Boost(performed))
    {
      boosting := performed;
    }

    /** One fixed step: boosting, then movement; returns the applied coefficients. */
    method FixedUpdate(dt: real, fixedDt: real) returns (f: Forces)
      modifies this
      ensures Snapshot() == TickState(config, old(Snapshot()))
      ensures f == TickForces(config, old(Snapshot()), dt, fixedDt)
    {
      HandleBoosting();
      f := HandleMovement(dt, fixedDt);
    }

    method HandleBoosting()
      modifies this
      ensures Snapshot() == BoostStep(config, old(Snapshot()))
    {
      if boosting && currentBoostAmount > 0.0 {
        currentBoostAmount := currentBoostAmount - config.boostDeprecationRate;
        if currentBoostAmount <= 0.0 {
          boosting := false;
        }
      } else {
        if currentBoostAmount < config.maxBoostAmount {
          currentBoostAmount := currentBoostAmount + config.boostRechargeRate;
        }
      }
    }

    method HandleMovement(dt: real, fixedDt: real) returns (f: Forces)
      modifies this
      ensures Snapshot() == GlideStep(config, old(Snapshot()))
      ensures f == MoveForces(config, old(Snapshot()), dt, fixedDt)
    {
      var torque := -(roll1D * config.rollTorque * dt);

      var forward;
      if thrust1D > Deadzone || thrust1D < -Deadzone {
        var currentThrust;
        if boosting {
          currentThrust := config.thrust * config.boostMultiplier;
        } else {
          currentThrust := config.thrust;
        }
        forward := thrust1D * currentThrust * dt;
        glide := config.thrust;
      } else {
        forward := glide * dt;
        glide := glide * config.thrustGlideReduction;
      }

      var up;
      if upDown1D > Deadzone || upDown1D < -Deadzone {
        up := upDown1D * config.upThrust * fixedDt;
        verticalGlide := verticalGlide * (upDown1D * config.upThrust);
      } else {
        up := verticalGlide * fixedDt;
        verticalGlide := verticalGlide * config.upDownGlideReduction;
      }

      var right;
      if strafe1D > Deadzone || strafe1D < -Deadzone {
        right := strafe1D * config.upThrust * fixedDt;
        horisontalGlide := strafe1D * config.strafeThrust;
      } else {
        right := horisontalGlide * fixedDt;
        horisontalGlide := horisontalGlide * config.leftRightGlideReduction;
      }

      f := Forces(forward, up, right, torque);
    }
  }
}
