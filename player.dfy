/** The controlled player: each tick the engine calls `Update`, which probes
    for a tile above the head and then runs the movement controller, writing
    the body's velocity, the sprite's facing, opacity and angle, and the
    animation requests.

    Engine queries are readings of the tick (`Frame`): the down-side block
    query, whether the head probe overlaps a tile, the hurt timer's two
    predicates, the flicker parity of the wall clock, the body-local velocity
    that `rotateVector(body.velocity, -angle)` produces, the cosine and sine of
    the sprite angle used to rotate the acceleration into the world frame, the
    jump decay fraction `1 - (1 - 10/27)^(27 dt / 1000)`, the frame time `dt`
    and the "vertical velocity > 0" test (falling, as the y axis points down). */
module PlayerModel {
  import opened Attributes
  import opened Spine
  import opened Movement

  /** The module-level `blockAbove` flag, shared by every player. */
  class BlockAboveFlag {
    var blockAbove: bool

    constructor ()
      ensures !blockAbove
    {
      blockAbove := false;
    }
  }

  /** Collision callback the engine runs when the head probe overlaps a solid
      tile; it is the only writer of `true` to the flag. */
  method SetBlockAbove(flag: BlockAboveFlag)
    modifies flag
    ensures flag.blockAbove
  {
    flag.blockAbove := true;
  }

  /** Engine readings for one tick. */
  datatype Frame = Frame(
    headOverlaps: bool,     // TileOverlapping(headChecker) fires SetBlockAbove
    blockedDown: bool,      // BlockedSide('down')
    isInvincible: bool,     // hurtTimer.isInvincible()
    isHurt: bool,           // hurtTimer.isHurt()
    flickerEven: bool,      // Math.round(now / 150) % 2 === 0
    localVelocity: Vec,     // body velocity in the body's own frame
    cosA: real,             // cosine and sine of the sprite angle at integration
    sinA: real,
    decay: real,            // jump decay fraction
    dt: real,               // frame time in milliseconds
    velYPositive: bool)     // the jump's "vertical velocity > 0" test: falling, as y points down

  class Player {
    const attributes: PlayerAttributes
    const playerSpine: PlayerSpine
    const flag: BlockAboveFlag
    /** Accumulator other systems add forces to; consumed every tick. */
    var externalAcceleration: Vec
    /** `body.velocity`, in the world frame. */
    var velocity: Vec
    var grounded: bool
    var crouching: bool
    var stillHoldingUp: bool
    var remainingJumpVel: real
    /** `sprite.flipX`, `sprite.alpha` and `sprite.angle` (degrees). */
    var flipX: bool
    var alpha: real
    var angle: real

    /** The jump budget is never negative. */
    ghost predicate Valid()
      reads this
    {
      remainingJumpVel >= 0.0 && Seed(attributes.JumpVel()) >= 0.0
    }

    constructor (flag: BlockAboveFlag)
      ensures Valid()
      ensures this.flag == flag && attributes == PlayerAttributes()
      ensures fresh(playerSpine) && playerSpine.animation == "idle" && playerSpine.plays == []
      ensures externalAcceleration == Vec(0.0, 0.0) && velocity == Vec(0.0, 0.0)
      ensures !grounded && !crouching && !stillHoldingUp && remainingJumpVel == 0.0
      ensures !flipX && alpha == 1.0 && angle == 0.0
    {
      attributes := PlayerAttributes();
      externalAcceleration := Vec(0.0, 0.0);
      playerSpine := new PlayerSpine();
      this.flag := flag;
      velocity := Vec(0.0, 0.0);
      grounded, crouching, stillHoldingUp, remainingJumpVel := false, false, false, 0.0;
      flipX, alpha, angle := false, 1.0, 0.0;
      new;
      RotateBy(0.0);
    }

    /** Probes for a solid tile above the head: the flag is reset first and
        set again only by the collision callback. */
    method CrouchCheck(headOverlaps: bool)
      modifies flag
      ensures flag.blockAbove == headOverlaps
    {
      flag.blockAbove := false;
      // the engine places the probe above the rotated body and runs the
      // overlap test; when it overlaps a tile it calls SetBlockAbove
      if headOverlaps {
        SetBlockAbove(flag);
      }
    }

    /** Turns the sprite by `degrees` (gravity and body offset follow in the
        engine). */
    method RotateBy(degrees: real)
      modifies this`angle
      ensures angle == old(angle) + degrees
    {
      angle := angle + degrees;
    }

    /** The variable-height jump for a tick with up held; returns `accel.y`.
        The source scales by `this.attributes.velY` and tests `this.velY > 0`,
        neither of which is ever defined (both read as `undefined`); the model
        scales by `JumpVel()` and takes the test as a reading of the frame. */
    method Jump(accelY: real, frame: Frame) returns (newAccelY: real)
      requires frame.dt > 0.0
      modifies this`stillHoldingUp, this`remainingJumpVel
      ensures var r := JumpTick(JumpState(old(stillHoldingUp), old(remainingJumpVel)), true, grounded, crouching,
                                frame.velYPositive, attributes.JumpVel(), frame.decay);
              && stillHoldingUp == r.next.stillHoldingUp
              && remainingJumpVel == r.next.remainingJumpVel
              && newAccelY == accelY - (r.consumed / frame.dt) * attributes.JumpVel()
    {
      ghost var r := JumpTick(JumpState(stillHoldingUp, remainingJumpVel), true, grounded, crouching,
                              frame.velYPositive, attributes.JumpVel(), frame.decay);
      var scale := attributes.JumpVel();
      var jumpVal := 0.0;
      var velY := 0.0;
      if grounded || frame.velYPositive {
        stillHoldingUp := false;
      }
      if (grounded && !crouching) || stillHoldingUp {
        if !stillHoldingUp {
          stillHoldingUp := true;
          remainingJumpVel := Seed(scale);
        }
        if stillHoldingUp {
          jumpVal := Consume(remainingJumpVel, frame.decay);
          remainingJumpVel := remainingJumpVel - jumpVal;
          velY := velY + jumpVal / frame.dt;
        }
        assert r.consumed == jumpVal;
      } else {
        assert r.consumed == 0.0 == velY;
      }
      newAccelY := accelY - velY * scale;
    }

    /** The movement controller for one tick. */
    method HandleMovement(cursors: Buttons, frame: Frame) returns (ghost jump: JumpResult, ghost accel: Vec)
      requires Valid() && frame.dt > 0.0
      modifies this, playerSpine`animation, playerSpine`plays
      ensures Valid()
      ensures alpha == Alpha(frame.isInvincible, frame.flickerEven)
      ensures grounded == frame.blockedDown
      ensures crouching == Crouching(grounded, flag.blockAbove)
      ensures var b := Lockout(cursors, frame.isHurt);
              flipX == FlipXAfter(b.left, b.right, old(flipX))
      ensures jump == JumpTick(JumpState(old(stillHoldingUp), old(remainingJumpVel)), Lockout(cursors, frame.isHurt).up,
                               grounded, crouching, frame.velYPositive, attributes.JumpVel(), frame.decay)
      ensures stillHoldingUp == jump.next.stillHoldingUp && remainingJumpVel == jump.next.remainingJumpVel
      ensures var b := Lockout(cursors, frame.isHurt);
              angle == old(angle) + (if b.rKey then 1.0 else 0.0)
      ensures var b := Lockout(cursors, frame.isHurt);
              accel.x == AccelX(b.left, b.right, crouching, frame.localVelocity.x, attributes.VelX(), attributes.Ease())
      ensures accel.y == 0.0 - (jump.consumed / frame.dt) * attributes.JumpVel()
      ensures velocity == Integrate(old(velocity), old(externalAcceleration), RotateVector(accel, frame.cosA, frame.sinA))
      ensures var b := Lockout(cursors, frame.isHurt);
              playerSpine.plays == old(playerSpine.plays) + Played(old(playerSpine.animation), TickRequests(b, grounded, crouching))
      ensures var b := Lockout(cursors, frame.isHurt);
              playerSpine.animation == Current(old(playerSpine.animation), TickRequests(b, grounded, crouching))
      ensures externalAcceleration == Vec(0.0, 0.0)
      ensures playerSpine.scaleX == old(playerSpine.scaleX) && playerSpine.scaleY == old(playerSpine.scaleY)
      ensures playerSpine.attachments == old(playerSpine.attachments)
    {
      Classify(frame);

      var b := cursors;
      if frame.isHurt {
        b := b.(up := false, down := false, left := false, right := false, rKey := false);
      }
      assert b == Lockout(cursors, frame.isHurt);

      var accelX, accelY;
      accelX, accelY, jump := Steer(b, frame);

      if b.rKey {
        RotateBy(1.0);
      }

      accel := Vec(accelX, accelY);
      Accelerate(Vec(accelX, accelY), frame);
    }

    /** The keys' part of the controller: horizontal response, jump and the
        animation requests. Returns the body-local acceleration. */
    method Steer(b: Buttons, frame: Frame) returns (accelX: real, accelY: real, ghost jump: JumpResult)
      requires frame.dt > 0.0
      modifies this`flipX, this`stillHoldingUp, this`remainingJumpVel, playerSpine`animation, playerSpine`plays
      ensures accelX == AccelX(b.left, b.right, crouching, frame.localVelocity.x, attributes.VelX(), attributes.Ease())
      ensures flipX == FlipXAfter(b.left, b.right, old(flipX))
      ensures jump == JumpTick(JumpState(old(stillHoldingUp), old(remainingJumpVel)), b.up,
                               grounded, crouching, frame.velYPositive, attributes.JumpVel(), frame.decay)
      ensures stillHoldingUp == jump.next.stillHoldingUp && remainingJumpVel == jump.next.remainingJumpVel
      ensures accelY == 0.0 - (jump.consumed / frame.dt) * attributes.JumpVel()
      ensures playerSpine.plays == old(playerSpine.plays) + Played(old(playerSpine.animation), TickRequests(b, grounded, crouching))
      ensures playerSpine.animation == Current(old(playerSpine.animation), TickRequests(b, grounded, crouching))
    {
      ghost var plays0, start := playerSpine.plays, playerSpine.animation;
      ghost var requests: seq<PlayCall>;
      accelX, requests := MoveHorizontally(b, frame.localVelocity.x, plays0, start);

      accelY, jump := HoldUp(b.up, 0.0, frame);

      if !grounded {
        PlayTracked("jump", false, plays0, start, requests);
        requests := requests + [PlayCall("jump", false)];
      }
      assert requests == TickRequests(b, grounded, crouching);
    }

    /** Opacity, grounded and crouching for the tick. */
    method Classify(frame: Frame)
      modifies this`alpha, this`grounded, this`crouching
      ensures alpha == Alpha(frame.isInvincible, frame.flickerEven)
      ensures grounded == frame.blockedDown
      ensures crouching == Crouching(grounded, flag.blockAbove)
    {
      if frame.isInvincible && frame.flickerEven {
        alpha := 0.25;
      } else {
        alpha := 1.0;
      }

      if frame.blockedDown {
        grounded := true;
      } else {
        grounded := false;
      }

      if grounded && flag.blockAbove {
        crouching := true;
      } else {
        crouching := false;
      }
    }

    /** Rotates the body-local acceleration into the world frame, adds it and
        the external acceleration to the velocity, clamps, and clears the
        external acceleration. */
    method Accelerate(accel: Vec, frame: Frame)
      modifies this`velocity, this`externalAcceleration
      ensures velocity == Integrate(old(velocity), old(externalAcceleration), RotateVector(accel, frame.cosA, frame.sinA))
      ensures externalAcceleration == Vec(0.0, 0.0)
    {
      var rotatedAccel := RotateVector(accel, frame.cosA, frame.sinA);
      var vx := velocity.x + (externalAcceleration.x + rotatedAccel.x);
      var vy := velocity.y + (externalAcceleration.y + rotatedAccel.y);
      velocity := Vec(Clamp(vx, -MaxSpeed, MaxSpeed), Clamp(vy, -MaxSpeed, MaxSpeed));
      externalAcceleration := Vec(0.0, 0.0);
    }

    /** The up key: holding it runs the jump, releasing it ends the hold. */
    method HoldUp(up: bool, accelY: real, frame: Frame) returns (newAccelY: real, ghost r: JumpResult)
      requires frame.dt > 0.0
      modifies this`stillHoldingUp, this`remainingJumpVel
      ensures r == JumpTick(JumpState(old(stillHoldingUp), old(remainingJumpVel)), up, grounded, crouching,
                            frame.velYPositive, attributes.JumpVel(), frame.decay)
      ensures stillHoldingUp == r.next.stillHoldingUp && remainingJumpVel == r.next.remainingJumpVel
      ensures newAccelY == accelY - (r.consumed / frame.dt) * attributes.JumpVel()
    {
      r := JumpTick(JumpState(stillHoldingUp, remainingJumpVel), up, grounded, crouching,
                    frame.velYPositive, attributes.JumpVel(), frame.decay);
      if up {
        newAccelY := Jump(accelY, frame);
      } else {
        stillHoldingUp := false;
        newAccelY := accelY;
      }
    }

    /** The horizontal branch of the controller: left, else right, else
        neither. Returns `accel.x` and the animation requested. */
    method MoveHorizontally(b: Buttons, vx: real, ghost plays0: seq<PlayCall>, ghost start: string)
      returns (accelX: real, ghost requests: seq<PlayCall>)
      requires playerSpine.plays == plays0 + Played(start, [])
      requires playerSpine.animation == Current(start, [])
      modifies this`flipX, playerSpine`animation, playerSpine`plays
      ensures accelX == AccelX(b.left, b.right, crouching, vx, attributes.VelX(), attributes.Ease())
      ensures flipX == FlipXAfter(b.left, b.right, old(flipX))
      ensures requests == MoveRequests(b.left, b.right, grounded, crouching)
      ensures playerSpine.plays == plays0 + Played(start, requests)
      ensures playerSpine.animation == Current(start, requests)
    {
      accelX := 0.0;
      requests := [];
      var velX, ease := attributes.VelX(), attributes.Ease();
      if b.left {
        flipX := true;
        if !crouching {
          accelX := (-velX - vx) * ease;
          if grounded {
            PlayTracked("run", true, plays0, start, requests);
            requests := requests + [PlayCall("run", true)];
          }
        } else {
          PlayTracked("crouchWalk", true, plays0, start, requests);
          requests := requests + [PlayCall("crouchWalk", true)];
          accelX := (-velX * 0.2 - vx) * ease;
        }
      } else if b.right {
        flipX := false;
        if !crouching {
          accelX := (velX - vx) * ease;
          if grounded {
            PlayTracked("run", true, plays0, start, requests);
            requests := requests + [PlayCall("run", true)];
          }
        } else {
          PlayTracked("crouchWalk", true, plays0, start, requests);
          requests := requests + [PlayCall("crouchWalk", true)];
          accelX := (velX * 0.2 - vx) * ease;
        }
      } else {
        accelX := (0.0 - vx) * ease;
        if grounded && !crouching {
          PlayTracked("idle", true, plays0, start, requests);
          requests := requests + [PlayCall("idle", true)];
        } else if crouching {
          PlayTracked("crouch", true, plays0, start, requests);
          requests := requests + [PlayCall("crouch", true)];
        }
      }
    }

    /** `playerSpine.playAnimation`, keeping track of the requests made so far
        in the tick. */
    method PlayTracked(animation: string, repeat: bool, ghost plays0: seq<PlayCall>, ghost start: string,
                       ghost requests: seq<PlayCall>)
      requires playerSpine.plays == plays0 + Played(start, requests)
      requires playerSpine.animation == Current(start, requests)
      modifies playerSpine`animation, playerSpine`plays
      ensures playerSpine.plays == plays0 + Played(start, requests + [PlayCall(animation, repeat)])
      ensures playerSpine.animation == Current(start, requests + [PlayCall(animation, repeat)])
    {
      PlayedStep(start, requests, PlayCall(animation, repeat));
      playerSpine.PlayAnimation(animation, repeat);
    }

    /** One tick: the crouch probe, then the movement controller. After it
        the flag holds the probe's result, the player is crouching exactly when
        grounded under a tile, and both velocity components are within
        [-800, 800]. */
    method Update(cursors: Buttons, frame: Frame) returns (ghost jump: JumpResult, ghost accel: Vec)
      requires Valid() && frame.dt > 0.0
      modifies this, playerSpine`animation, playerSpine`plays, flag
      ensures Valid()
      ensures flag.blockAbove == frame.headOverlaps
      ensures grounded == frame.blockedDown
      ensures crouching == (frame.blockedDown && frame.headOverlaps)
      ensures !grounded ==> !crouching
      ensures alpha == Alpha(frame.isInvincible, frame.flickerEven)
      ensures var b := Lockout(cursors, frame.isHurt);
              flipX == FlipXAfter(b.left, b.right, old(flipX))
      ensures jump == JumpTick(JumpState(old(stillHoldingUp), old(remainingJumpVel)), Lockout(cursors, frame.isHurt).up,
                               grounded, crouching, frame.velYPositive, attributes.JumpVel(), frame.decay)
      ensures stillHoldingUp == jump.next.stillHoldingUp && remainingJumpVel == jump.next.remainingJumpVel
      ensures var b := Lockout(cursors, frame.isHurt);
              angle == old(angle) + (if b.rKey then 1.0 else 0.0)
      ensures var b := Lockout(cursors, frame.isHurt);
              accel.x == AccelX(b.left, b.right, crouching, frame.localVelocity.x, attributes.VelX(), attributes.Ease())
      ensures accel.y == 0.0 - (jump.consumed / frame.dt) * attributes.JumpVel()
      ensures velocity == Integrate(old(velocity), old(externalAcceleration), RotateVector(accel, frame.cosA, frame.sinA))
      ensures -MaxSpeed <= velocity.x <= MaxSpeed && -MaxSpeed <= velocity.y <= MaxSpeed
      ensures var b := Lockout(cursors, frame.isHurt);
              playerSpine.plays == old(playerSpine.plays) + Played(old(playerSpine.animation), TickRequests(b, grounded, crouching))
      ensures var b := Lockout(cursors, frame.isHurt);
              playerSpine.animation == Current(old(playerSpine.animation), TickRequests(b, grounded, crouching))
      ensures externalAcceleration == Vec(0.0, 0.0)
      ensures playerSpine.scaleX == old(playerSpine.scaleX) && playerSpine.scaleY == old(playerSpine.scaleY)
      ensures playerSpine.attachments == old(playerSpine.attachments)
    {
      CrouchCheck(frame.headOverlaps);
      jump, accel := HandleMovement(cursors, frame);
    }
  }
}
