/** Movement constants of a player, derived from three tunable dials.
    Each dial is meant to lie in [0, 100] and maps linearly to one physical
    constant. Dials are JavaScript numbers; they are modelled as `real`. */
module Attributes {

  /** The three dials; the defaults are those of the constructor. */
  datatype PlayerAttributes = PlayerAttributes(jump: real := 50.0, speed: real := 50.0, accel: real := 50.0)
  {
    /** Horizontal target speed. */
    function VelX(): real {
      (speed * 5.0) + 100.0
    }

    /** Jump velocity constant. */
    function JumpVel(): real {
      (jump * 2.0) + 200.0
    }

    /** Fraction of the velocity gap closed per tick. */
    function Ease(): real {
      (accel / 500.0) + 0.1
    }
  }

  /** A dial on its intended 0..100 scale. */
  predicate OnScale(dial: real) {
    0.0 <= dial <= 100.0
  }

  lemma DefaultConstants(a: PlayerAttributes)
    requires a == PlayerAttributes()
    ensures a.jump == 50.0 && a.speed == 50.0 && a.accel == 50.0
    ensures a.VelX() == 350.0 && a.JumpVel() == 300.0 && a.Ease() == 0.2
  {
  }

  lemma ZeroDialConstants(a: PlayerAttributes)
    requires a == PlayerAttributes(0.0, 0.0, 0.0)
    ensures a.VelX() == 100.0 && a.JumpVel() == 200.0 && a.Ease() == 0.1
  {
  }

  /** On the intended scale every constant stays within its physical range. */
  lemma ConstantRanges(a: PlayerAttributes)
    requires OnScale(a.jump) && OnScale(a.speed) && OnScale(a.accel)
    ensures 100.0 <= a.VelX() <= 600.0
    ensures 200.0 <= a.JumpVel() <= 400.0
    ensures 0.1 <= a.Ease() <= 0.3
  {
  }

  /** Each constant is strictly increasing in its own dial. */
  lemma StrictlyIncreasing(a: PlayerAttributes, b: PlayerAttributes)
    ensures a.speed < b.speed ==> a.VelX() < b.VelX()
    ensures a.jump < b.jump ==> a.JumpVel() < b.JumpVel()
    ensures a.accel < b.accel ==> a.Ease() < b.Ease()
  {
  }

  /** Each constant depends on its own dial only. */
  lemma OwnDialOnly(a: PlayerAttributes, b: PlayerAttributes)
    ensures a.speed == b.speed ==> a.VelX() == b.VelX()
    ensures a.jump == b.jump ==> a.JumpVel() == b.JumpVel()
    ensures a.accel == b.accel ==> a.Ease() == b.Ease()
  {
  }
}
