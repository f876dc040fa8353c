/** The pure rules of the per-tick movement controller: the hurt lockout, the
    ground/crouch classification, the velocity-seeking horizontal response,
    the animation requests, the variable-height jump budget and the velocity
    integration with its speed limit.

    Velocities are `real`: an idealisation of JavaScript's doubles (no
    rounding, no overflow, no NaN, except where the jump's reads of undefined
    properties are modelled explicitly at the end of this module). */
module Movement {
  import opened Spine
  import opened Attributes

  datatype Vec = Vec(x: real, y: real)

  /** The cursor keys and the R key (a development key that rotates the player). */
  datatype Buttons = Buttons(up: bool, down: bool, left: bool, right: bool, rKey: bool)

  const Released := Buttons(false, false, false, false, false)

  /** Bound on each world-frame velocity component, so the player cannot tunnel through tiles. */
  const MaxSpeed: real := 800.0

  /** Crouch-walking moves at this fraction of the running speed. */
  const CrouchFactor: real := 0.2

  // ---------------------------------------------------------------------------
  // Classification and lockout

  /** While hurt, every key is treated as released for the tick. */
  function Lockout(cursors: Buttons, hurt: bool): (b: Buttons)
    ensures hurt ==> !b.up && !b.down && !b.left && !b.right && !b.rKey
    ensures !hurt ==> b == cursors
  {
    if hurt then Released else cursors
  }

  /** Crouching means standing on the ground with a solid tile directly above. */
  function Crouching(grounded: bool, blockAbove: bool): (c: bool)
    ensures c ==> grounded
    ensures grounded ==> (c <==> blockAbove)
  {
    grounded && blockAbove
  }

  /** Sprite opacity: flickers between 1 and 0.25 while invincible; `flickerEven`
      is whether `Math.round(now / 150)` is even. */
  function Alpha(invincible: bool, flickerEven: bool): (a: real)
    ensures !invincible ==> a == 1.0
    ensures a == 1.0 || a == 0.25
    ensures a == 0.25 <==> invincible && flickerEven
  {
    if invincible && flickerEven then 0.25 else 1.0
  }

  // ---------------------------------------------------------------------------
  // Horizontal response

  /** The body-local horizontal velocity the controller steers towards. */
  function TargetVelocity(left: bool, right: bool, crouching: bool, velX: real): real {
    var speed := if crouching then CrouchFactor * velX else velX;
    if left then -speed else if right then speed else 0.0
  }

  /** Horizontal acceleration, branch by branch as the controller computes it;
      left takes precedence over right. */
  function AccelX(left: bool, right: bool, crouching: bool, vx: real, velX: real, ease: real): (a: real)
    ensures a == (TargetVelocity(left, right, crouching, velX) - vx) * ease
  {
    if left then
      (if !crouching then (-velX - vx) * ease else (-velX * 0.2 - vx) * ease)
    else if right then
      (if !crouching then (velX - vx) * ease else (velX * 0.2 - vx) * ease)
    else
      (0.0 - vx) * ease
  }

  /** Every branch seeks its target: the acceleration is the gap to the target
      scaled by `ease`, so one tick leaves a gap `1 - ease` times the old one,
      and with `ease` in (0, 1] the gap never grows. */
  lemma AccelSeeksTarget(left: bool, right: bool, crouching: bool, vx: real, velX: real, ease: real)
    ensures AccelX(left, right, crouching, vx, velX, ease) == (TargetVelocity(left, right, crouching, velX) - vx) * ease
    ensures var target := TargetVelocity(left, right, crouching, velX);
            (vx + AccelX(left, right, crouching, vx, velX, ease)) - target == (1.0 - ease) * (vx - target)
    ensures var target := TargetVelocity(left, right, crouching, velX);
            var gap := vx - target;
            var gap' := (vx + AccelX(left, right, crouching, vx, velX, ease)) - target;
            0.0 < ease <= 1.0 ==> (gap' == 0.0 || (gap' < 0.0 <==> gap < 0.0)) && gap' * gap' <= gap * gap
  {
    var target := TargetVelocity(left, right, crouching, velX);
    var gap := vx - target;
    var gap' := (vx + AccelX(left, right, crouching, vx, velX, ease)) - target;
    assert gap' == (1.0 - ease) * gap;
    if 0.0 < ease <= 1.0 {
      ShrinkSquare(1.0 - ease, gap);
    }
  }

  lemma ShrinkSquare(k: real, g: real)
    requires 0.0 <= k < 1.0
    ensures (k * g) * (k * g) <= g * g
    ensures k * g == 0.0 || (k * g < 0.0 <==> g < 0.0)
  {
    var g2 := g * g;
    assert g2 >= 0.0;
    assert k * k <= 1.0 by {
      assert k * k <= k * 1.0;
    }
    assert (k * g) * (k * g) == (k * k) * g2;
    assert (k * k) * g2 <= 1.0 * g2;
  }

  /** `flipX` after the horizontal response: set on left, cleared on right,
      kept otherwise. */
  function FlipXAfter(left: bool, right: bool, flipX: bool): (f: bool)
    ensures left || right ==> (f <==> TargetVelocity(left, right, false, 1.0) < 0.0)
    ensures !left && !right ==> f == flipX
  {
    if left then true else if right then false else flipX
  }

  /** Animation requested by the horizontal response (at most one). */
  function MoveRequests(left: bool, right: bool, grounded: bool, crouching: bool): (rs: seq<PlayCall>)
    ensures |rs| <= 1
  {
    if left || right then
      (if !crouching then (if grounded then [PlayCall("run", true)] else [])
       else [PlayCall("crouchWalk", true)])
    else if grounded && !crouching then [PlayCall("idle", true)]
    else if crouching then [PlayCall("crouch", true)]
    else []
  }

  /** All animation requests of a tick, in order: the horizontal one, then the
      airborne override. */
  function TickRequests(b: Buttons, grounded: bool, crouching: bool): (rs: seq<PlayCall>)
  {
    MoveRequests(b.left, b.right, grounded, crouching) + (if !grounded then [PlayCall("jump", false)] else [])
  }

  /** A grounded tick asks for exactly one animation; an airborne tick for at
      most two, the last being the non-repeating "jump". */
  lemma TickRequestsShape(b: Buttons, grounded: bool, crouching: bool)
    ensures grounded ==> |TickRequests(b, grounded, crouching)| == 1
    ensures var rs := TickRequests(b, grounded, crouching);
            !grounded ==> 1 <= |rs| <= 2 && rs[|rs| - 1] == PlayCall("jump", false)
  {
  }

  /** Which animation a tick asks for, by state. */
  lemma AnimationForState(b: Buttons, grounded: bool, blockAbove: bool)
    ensures var crouching := Crouching(grounded, blockAbove);
            var moving := b.left || b.right;
            && (grounded && !crouching && moving ==> TickRequests(b, grounded, crouching) == [PlayCall("run", true)])
            && (crouching && moving ==> TickRequests(b, grounded, crouching) == [PlayCall("crouchWalk", true)])
            && (grounded && !crouching && !moving ==> TickRequests(b, grounded, crouching) == [PlayCall("idle", true)])
            && (crouching && !moving ==> TickRequests(b, grounded, crouching) == [PlayCall("crouch", true)])
            && (!grounded ==> TickRequests(b, grounded, crouching) == [PlayCall("jump", false)])
  {
  }

  /** Holding both left and right behaves exactly as holding left. */
  lemma LeftWins(crouching: bool, grounded: bool, vx: real, velX: real, ease: real, flipX: bool)
    ensures AccelX(true, true, crouching, vx, velX, ease) == AccelX(true, false, crouching, vx, velX, ease)
    ensures AccelX(true, true, crouching, vx, velX, ease) == (-TargetVelocity(false, true, crouching, velX) - vx) * ease
    ensures FlipXAfter(true, true, flipX) && !FlipXAfter(false, true, flipX)
    ensures MoveRequests(true, true, grounded, crouching) == MoveRequests(true, false, grounded, crouching)
  {
  }

  // ---------------------------------------------------------------------------
  // Jump budget

  /** What the jump remembers between ticks. */
  datatype JumpState = JumpState(stillHoldingUp: bool, remainingJumpVel: real)

  /** One tick of the jump: the new state and the part of the budget consumed
      (the tick's vertical velocity contribution is `consumed / dt`). */
  datatype JumpResult = JumpResult(next: JumpState, consumed: real)

  /** The budget a fresh jump starts with, for the jump scale constant `scale`. */
  function Seed(scale: real): (s: real)
  {
    0.25 + scale * 0.02
  }

  /** A jump dial on its scale seeds a budget between 4.25 and 8.25 that
      grows with the dial, so the budget starts non-negative. */
  lemma SeedRange(a: PlayerAttributes, b: PlayerAttributes)
    requires OnScale(a.jump) && OnScale(b.jump)
    ensures 4.25 <= Seed(a.JumpVel()) <= 8.25
    ensures a.jump < b.jump ==> Seed(a.JumpVel()) < Seed(b.JumpVel())
  {
  }

  /** Phaser.Math.Clamp: `Math.max(lo, Math.min(hi, v))`. */
  function Clamp(v: real, lo: real, hi: real): (r: real)
    ensures lo <= hi ==> lo <= r <= hi
    ensures lo <= v <= hi ==> r == v
    ensures v > hi ==> r == (if hi < lo then lo else hi)
    ensures v < lo ==> r == lo
  {
    var m := if hi < v then hi else v;
    if m < lo then lo else m
  }

  /** The part of the budget one held tick consumes: a fraction `decay` of it,
      clamped to [0, budget]. */
  function Consume(budget: real, decay: real): (c: real)
    ensures budget >= 0.0 ==> 0.0 <= c <= budget
  {
    Clamp(budget * decay, 0.0, budget)
  }

  /** With a genuine fraction the clamp does not bite: a held tick consumes
      exactly the fraction `decay` of the budget. */
  lemma ConsumeFraction(budget: real, decay: real)
    requires budget >= 0.0 && 0.0 <= decay <= 1.0
    ensures Consume(budget, decay) == budget * decay
  {
    assert budget * decay <= budget * 1.0;
  }

  /** The up key's effect for one tick. `up` released: holding ends. `up` held:
      landing or falling (`velYPositive`: the vertical velocity is positive,
      and the y axis points down) ends a hold; a jump starts on the
      ground when not crouching, seeding the budget; while holding, a fraction
      `decay` of the budget, clamped to [0, budget], is consumed. `scale` is
      the jump scale constant. */
  function JumpTick(s: JumpState, up: bool, grounded: bool, crouching: bool, velYPositive: bool,
                    scale: real, decay: real): (r: JumpResult)
    ensures r.next.stillHoldingUp <==> up && (if grounded then !crouching else s.stillHoldingUp && !velYPositive)
    // the budget is reseeded exactly on an up-press on the ground while not crouching;
    // otherwise what is consumed comes out of the budget carried over
    ensures var budget := if up && grounded && !crouching then Seed(scale) else s.remainingJumpVel;
            && r.next.remainingJumpVel == budget - r.consumed
            // consumption lies in [0, budget]: a non-negative budget stays non-negative
            && (budget >= 0.0 ==> 0.0 <= r.consumed <= budget)
            // a held tick consumes what Consume takes from the budget
            && (r.next.stillHoldingUp ==> r.consumed == Consume(budget, decay))
    ensures !r.next.stillHoldingUp ==> r.consumed == 0.0
  {
    if !up then
      JumpResult(JumpState(false, s.remainingJumpVel), 0.0)
    else
      var holding := if grounded || velYPositive then false else s.stillHoldingUp;
      if (grounded && !crouching) || holding then
        var budget := if holding then s.remainingJumpVel else Seed(scale);
        var jumpVal := Consume(budget, decay);
        JumpResult(JumpState(true, budget - jumpVal), jumpVal)
      else
        JumpResult(JumpState(holding, s.remainingJumpVel), 0.0)
  }

  /** Inputs of one tick as far as the jump sees them. */
  datatype JumpFrame = JumpFrame(up: bool, grounded: bool, crouching: bool, velYPositive: bool, decay: real)

  datatype RunResult = RunResult(final: JumpState, consumed: real)

  /** The jump state after a series of ticks, and the total budget consumed. */
  function Run(s: JumpState, frames: seq<JumpFrame>, scale: real): RunResult
    decreases |frames|
  {
    if frames == [] then RunResult(s, 0.0)
    else
      var f := frames[0];
      var r := JumpTick(s, f.up, f.grounded, f.crouching, f.velYPositive, scale, f.decay);
      var rest := Run(r.next, frames[1..], scale);
      RunResult(rest.final, r.consumed + rest.consumed)
  }

  /** With a non-negative seed the budget never goes negative, whatever the
      inputs, and nothing consumed is negative. */
  lemma {:induction false} BudgetNeverNegative(s: JumpState, frames: seq<JumpFrame>, scale: real)
    requires s.remainingJumpVel >= 0.0 && Seed(scale) >= 0.0
    ensures Run(s, frames, scale).final.remainingJumpVel >= 0.0
    ensures Run(s, frames, scale).consumed >= 0.0
    decreases |frames|
  {
    if frames != [] {
      var f := frames[0];
      var r := JumpTick(s, f.up, f.grounded, f.crouching, f.velYPositive, scale, f.decay);
      BudgetNeverNegative(r.next, frames[1..], scale);
    }
  }

  /** In the air nothing reseeds the budget: what is consumed plus what remains
      is exactly the budget at take-off, so the budget never increases. */
  lemma {:induction false} AirborneBudgetConserved(s: JumpState, frames: seq<JumpFrame>, scale: real)
    requires forall i :: 0 <= i < |frames| ==> !frames[i].grounded
    requires s.remainingJumpVel >= 0.0
    ensures Run(s, frames, scale).final.remainingJumpVel + Run(s, frames, scale).consumed == s.remainingJumpVel
    ensures 0.0 <= Run(s, frames, scale).final.remainingJumpVel <= s.remainingJumpVel
    decreases |frames|
  {
    if frames != [] {
      var f := frames[0];
      var r := JumpTick(s, f.up, f.grounded, f.crouching, f.velYPositive, scale, f.decay);
      AirborneBudgetConserved(r.next, frames[1..], scale);
    }
  }

  /** With the default dials a jump pressed on the ground has a budget of 6.25,
      and however long the player stays in the air afterwards, the total
      consumed never exceeds it. */
  lemma DefaultJumpBudget(s: JumpState, frames: seq<JumpFrame>)
    requires |frames| >= 1
    requires frames[0].up && frames[0].grounded && !frames[0].crouching
    requires forall i :: 1 <= i < |frames| ==> !frames[i].grounded
    ensures Seed(PlayerAttributes().JumpVel()) == 6.25
    ensures Run(s, frames, PlayerAttributes().JumpVel()).consumed <= 6.25
    ensures Run(s, frames, PlayerAttributes().JumpVel()).final.remainingJumpVel >= 0.0
  {
    var scale := PlayerAttributes().JumpVel();
    var f := frames[0];
    var r := JumpTick(s, f.up, f.grounded, f.crouching, f.velYPositive, scale, f.decay);
    assert forall i :: 0 <= i < |frames[1..]| ==> !frames[1..][i].grounded by {
      forall i | 0 <= i < |frames[1..]| ensures !frames[1..][i].grounded {
        assert frames[1..][i] == frames[i + 1];
      }
    }
    AirborneBudgetConserved(r.next, frames[1..], scale);
  }

  // ---------------------------------------------------------------------------
  // Integration

  /** `rotateVector` with the cosine and sine of the angle given: the standard
      rotation matrix. An angle of 0 leaves the vector as it is. */
  function RotateVector(v: Vec, cosA: real, sinA: real): (r: Vec)
    ensures cosA == 1.0 && sinA == 0.0 ==> r == v
  {
    Vec(cosA * v.x - sinA * v.y, sinA * v.x + cosA * v.y)
  }

  /** Rotating by an angle and then by its opposite (same cosine, negated
      sine) gives the vector back: the body-frame reading
      `rotateVector(v, -angle)` is undone by `rotateVector(_, angle)`. */
  lemma RotateInverse(v: Vec, cosA: real, sinA: real)
    requires cosA * cosA + sinA * sinA == 1.0
    ensures RotateVector(RotateVector(v, cosA, sinA), cosA, -sinA) == v
  {
    var w := RotateVector(v, cosA, sinA);
    calc {
      cosA * w.x + sinA * w.y;
      cosA * (cosA * v.x - sinA * v.y) + sinA * (sinA * v.x + cosA * v.y);
      (cosA * cosA + sinA * sinA) * v.x;
    }
    calc {
      -sinA * w.x + cosA * w.y;
      -sinA * (cosA * v.x - sinA * v.y) + cosA * (sinA * v.x + cosA * v.y);
      (cosA * cosA + sinA * sinA) * v.y;
    }
  }

  /** A rotation keeps the length of the vector. */
  lemma RotatePreservesLength(v: Vec, cosA: real, sinA: real)
    requires cosA * cosA + sinA * sinA == 1.0
    ensures var r := RotateVector(v, cosA, sinA);
            r.x * r.x + r.y * r.y == v.x * v.x + v.y * v.y
  {
    var r := RotateVector(v, cosA, sinA);
    calc {
      r.x * r.x + r.y * r.y;
      (cosA * v.x - sinA * v.y) * (cosA * v.x - sinA * v.y) + (sinA * v.x + cosA * v.y) * (sinA * v.x + cosA * v.y);
      (cosA * cosA + sinA * sinA) * (v.x * v.x) + (cosA * cosA + sinA * sinA) * (v.y * v.y);
    }
  }

  /** Velocity after a tick: old velocity plus external acceleration plus the
      world-frame acceleration, each component clamped to [-800, 800]. */
  function Integrate(velocity: Vec, external: Vec, rotatedAccel: Vec): (v: Vec)
    ensures -MaxSpeed <= v.x <= MaxSpeed && -MaxSpeed <= v.y <= MaxSpeed
    ensures var raw := velocity.x + (external.x + rotatedAccel.x);
            (-MaxSpeed <= raw <= MaxSpeed ==> v.x == raw) && (raw > MaxSpeed ==> v.x == MaxSpeed) && (raw < -MaxSpeed ==> v.x == -MaxSpeed)
    ensures var raw := velocity.y + (external.y + rotatedAccel.y);
            (-MaxSpeed <= raw <= MaxSpeed ==> v.y == raw) && (raw > MaxSpeed ==> v.y == MaxSpeed) && (raw < -MaxSpeed ==> v.y == -MaxSpeed)
  {
    Vec(Clamp(velocity.x + (external.x + rotatedAccel.x), -MaxSpeed, MaxSpeed),
        Clamp(velocity.y + (external.y + rotatedAccel.y), -MaxSpeed, MaxSpeed))
  }

  /** While hurt the tick behaves as if nothing were pressed: the horizontal
      acceleration only damps, holding up ends, facing is kept and the only
      possible animation requests are those of standing still. */
  lemma HurtLockout(cursors: Buttons, s: JumpState, grounded: bool, crouching: bool, velYPositive: bool,
                    scale: real, decay: real, vx: real, velX: real, ease: real, flipX: bool)
    ensures var b := Lockout(cursors, true);
            && AccelX(b.left, b.right, crouching, vx, velX, ease) == -vx * ease
            && !JumpTick(s, b.up, grounded, crouching, velYPositive, scale, decay).next.stillHoldingUp
            && JumpTick(s, b.up, grounded, crouching, velYPositive, scale, decay).consumed == 0.0
            && FlipXAfter(b.left, b.right, flipX) == flipX
            && !b.rKey
            && TickRequests(b, grounded, crouching) == TickRequests(Released, grounded, crouching)
  {
  }

  // ---------------------------------------------------------------------------
  // The jump as written reads two properties that are never defined
  // (`this.velY` and `this.attributes.velY`). In JavaScript both reads give
  // `undefined`, which arithmetic turns into NaN. The rest of the model uses
  // the evidently intended values (`velYPositive` as an input and `JumpVel()`
  // as the scale); the functions below model what the code does instead.

  /** A JavaScript number as far as the jump touches it. */
  datatype JsNumber = Num(value: real) | NaN

  /** `undefined` once arithmetic has touched it. */
  const Undefined: JsNumber := NaN

  function JsAdd(a: JsNumber, b: JsNumber): JsNumber {
    if a.Num? && b.Num? then Num(a.value + b.value) else NaN
  }

  function JsSub(a: JsNumber, b: JsNumber): JsNumber {
    if a.Num? && b.Num? then Num(a.value - b.value) else NaN
  }

  function JsMul(a: JsNumber, b: JsNumber): JsNumber {
    if a.Num? && b.Num? then Num(a.value * b.value) else NaN
  }

  /** `a > b`: false whenever either side is NaN. */
  function JsGreater(a: JsNumber, b: JsNumber): bool {
    a.Num? && b.Num? && a.value > b.value
  }

  /** Phaser.Math.Clamp on a JavaScript number: `Math.min` and `Math.max` pass NaN through. */
  function JsClamp(v: JsNumber, lo: real, hi: real): JsNumber {
    if v.NaN? then NaN else Num(Clamp(v.value, lo, hi))
  }

  /** The budget a fresh jump starts with, as written: `0.25 + undefined * 0.02`. */
  function SeedAsWritten(): JsNumber {
    JsAdd(Num(0.25), JsMul(Undefined, Num(0.02)))
  }

  /** The "falling" test (vertical velocity > 0, y pointing down) as written:
      `undefined > 0`. */
  function FallingTestAsWritten(): bool {
    JsGreater(Undefined, Num(0.0))
  }

  /** `accel.y` after `jump`, as written: `accel.y - velY * undefined`. */
  function JumpAccelYAsWritten(accelY: real, velY: real): JsNumber {
    JsSub(Num(accelY), JsMul(Num(velY), Undefined))
  }

  /** The world-frame velocity after a tick in which `jump` ran, as written. */
  function VelocityAsWritten(velocity: Vec, external: Vec, accelX: real, accelY: JsNumber,
                             cosA: real, sinA: real): (JsNumber, JsNumber)
  {
    var rx := JsSub(JsMul(Num(cosA), Num(accelX)), JsMul(Num(sinA), accelY));
    var ry := JsAdd(JsMul(Num(sinA), Num(accelX)), JsMul(Num(cosA), accelY));
    (JsClamp(JsAdd(Num(velocity.x), JsAdd(Num(external.x), rx)), -MaxSpeed, MaxSpeed),
     JsClamp(JsAdd(Num(velocity.y), JsAdd(Num(external.y), ry)), -MaxSpeed, MaxSpeed))
  }

  /** As written, any tick with up held (and the player not hurt) makes both
      velocity components NaN, which escapes the [-800, 800] bound; the seeded
      budget is NaN too, and the falling test never fires. */
  lemma UpHeldAsWrittenGivesNaN(velocity: Vec, external: Vec, accelX: real, velY: real, cosA: real, sinA: real)
    ensures SeedAsWritten() == NaN
    ensures !FallingTestAsWritten()
    ensures JumpAccelYAsWritten(0.0, velY) == NaN
    ensures VelocityAsWritten(velocity, external, accelX, JumpAccelYAsWritten(0.0, velY), cosA, sinA) == (NaN, NaN)
  {
  }
}
