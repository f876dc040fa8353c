# Player movement core of plant-right-4, in Dafny

This project models the core of the player character in plant-right-4, a
browser platform racer built on Phaser. That core is:

- the per-tick movement controller (`Player.update`, `crouchCheck`,
  `handleMovement`, `jump`, the module flag `blockAbove` and its collision
  callback `SetBlockAbove`);
- the skeletal-animation wrapper `PlayerSpine`: the "play only on change"
  guard, the facing hack on the horizontal scale, and the attachment names of
  the body parts;
- the three tunable dials of `PlayerAttributes` and the constants derived
  from them;
- `loadBGImages`, which queues a race's background images with the asset
  loader.

There is one module per source file:

- `Attributes` (`attributes.dfy`) holds the dials.
- `Spine` (`spine.dfy`) holds the animation wrapper.
- `Movement` (`movement.dfy`) holds the pure rules of a tick: lockout,
  classification, horizontal response, animation requests, jump budget and
  integration.
- `PlayerModel` (`player.dfy`) holds the `Player` class. Its methods update its
  fields in place.
- `BackgroundImages` (`bg_images.dfy`) holds the loader queue.

Each stateful method is specified against the pure functions of `Movement` and
`Spine`, and the lemmas prove properties of those functions.

Engine queries become fields of a `Frame` value, one per tick:

- the down-side block test;
- whether the head probe overlaps a tile;
- the hurt timer's two predicates;
- the flicker parity of the wall clock;
- the body-local velocity;
- the cosine and sine of the sprite angle;
- the jump decay fraction `1 - (1 - 10/27)^(27 dt / 1000)`;
- the frame time `dt`;
- the "vertical velocity > 0" test, which means the player is falling (the y
  axis points down).

Velocities are `real`.

`handleMovement` is one function in the source. In the model it is split into
`Classify`, `Steer` (which uses `MoveHorizontally`, `HoldUp` and
`PlayTracked`), `RotateBy` and `Accelerate`, run in the source's order.
`HandleMovement` returns two ghost values: the tick's `JumpResult` and its
body-local acceleration. Both appear in its contract.

## Model

| member | source | states |
|---|---|---|
| `Attributes.DefaultConstants` | client/src/player/player-attributes.js:2-18 | default dials 50/50/50 give velX 350, jumpVel 300, ease 0.2 |
| `Attributes.ZeroDialConstants` | client/src/player/player-attributes.js:8-18 | dials at 0 give velX 100, jumpVel 200, ease 0.1 |
| `Attributes.ConstantRanges` | client/src/player/player-attributes.js:8-18 | dials in [0, 100] keep velX in [100, 600], jumpVel in [200, 400], ease in [0.1, 0.3] |
| `Attributes.StrictlyIncreasing` | client/src/player/player-attributes.js:8-18 | each constant strictly increases with its own dial |
| `Attributes.OwnDialOnly` | client/src/player/player-attributes.js:8-18 | each constant depends only on its own dial |
| `Spine.Played` | client/src/player/playerSpine.js:45-51 | the play commands a series of requests issues; its properties are stated by `PlayedFacts` and `PlayedStep` |
| `Spine.Current` | client/src/player/playerSpine.js:45-51 | the tracked animation after a series of requests; `PlayedFacts` states it is the last one requested |
| `Spine.PlayedFacts` | client/src/player/playerSpine.js:45-51 | over any series of requests the tracked animation is the last one requested, no more plays than requests, no play restarts the playing animation, the last play names the tracked animation |
| `Spine.SingleRequest` | client/src/player/playerSpine.js:45-51 | a request for the tracked animation plays nothing, any other plays exactly it |
| `Spine.PlayedStep` | client/src/player/playerSpine.js:45-51 | appending one request plays it exactly when it differs from the animation tracked so far |
| `Spine.RepeatedRequestPlaysOnce` | client/src/player/playerSpine.js:45-51 | two consecutive requests for one animation play it at most once |
| `Spine.FlipScale` | client/src/player/playerSpine.js:53-58 | new scale is negative iff flip; unchanged when the sign already agrees, otherwise ±0.2 |
| `Spine.FlipIdempotent` | client/src/player/playerSpine.js:53-58 | setting the same facing twice equals setting it once |
| `Spine.NatToString` | client/src/player/playerSpine.js:23-30 | the part number renders as at least one decimal digit, with no leading zero |
| `Spine.DecimalRoundTrip` | client/src/player/playerSpine.js:23-30 | reading the rendered digits back gives the part number |
| `Spine.PartsFor` | client/src/player/playerSpine.js:22-31 | exactly the eight slots get attachments `<Part><n><Outline/Color>`; both feet get the same names |
| `Spine.DefaultPartNames` | client/src/player/playerSpine.js:3-5 | with part numbers 1 the slots get "Head1Outline", "Body1Color", "Foot1Outline" |
| `Spine.PlayerSpine.constructor` | client/src/player/playerSpine.js:9-20 | tracked animation defaults to "idle", scale 0.2 on both axes, parts attached |
| `Spine.PlayerSpine.SetParts` | client/src/player/playerSpine.js:22-31 | attachment map gains the eight slot assignments |
| `Spine.PlayerSpine.PlayAnimation` | client/src/player/playerSpine.js:45-51 | tracked animation becomes the request; one play command is issued iff it differs from the old one |
| `Spine.PlayerSpine.SetFlipXHack` | client/src/player/playerSpine.js:53-58 | scale becomes `FlipScale` of the old scale, so it is negative iff flip |
| `Movement.Lockout` | client/src/player/player.js:66-72 | while hurt no key counts as pressed; otherwise the keys are as read |
| `Movement.Crouching` | client/src/player/player.js:80-84 | never crouching in the air; on the ground crouching exactly under a block |
| `Movement.Alpha` | client/src/player/player.js:60-64 | opacity is 1 when not invincible, 0.25 exactly when invincible on an even flicker step |
| `Movement.AccelX` | client/src/player/player.js:86-117 | each of the five branches equals `(TargetVelocity - vx) * ease`, with left before right and crouch-walking at 0.2 of the speed |
| `Movement.FlipXAfter` | client/src/player/player.js:86-99 | with a horizontal key held the sprite faces the direction of the target velocity; with none the facing is kept |
| `Movement.AccelSeeksTarget` | client/src/player/player.js:86-117 | every horizontal branch is `(target - vx) * ease`; the new gap is `(1 - ease)` times the old one, and for ease in (0, 1] it keeps its sign and does not grow |
| `Movement.MoveRequests` | client/src/player/player.js:86-117 | the horizontal response requests at most one animation |
| `Movement.TickRequests` | client/src/player/player.js:86-127 | the tick's requests in order, horizontal one first; its shape is stated by `TickRequestsShape` and its content by `AnimationForState` |
| `Movement.TickRequestsShape` | client/src/player/player.js:86-127 | a grounded tick requests exactly one animation; an airborne one at most two, the last the non-repeating "jump" |
| `Movement.AnimationForState` | client/src/player/player.js:86-127 | run/crouchWalk/idle/crouch on the ground by state, and "jump" alone while airborne |
| `Movement.LeftWins` | client/src/player/player.js:86-110 | left and right together act exactly as left |
| `Movement.Seed` | client/src/player/player.js:154 | the budget a ground press seeds from the jump constant; its range is stated by `SeedRange`, its default value by `DefaultJumpBudget` |
| `Movement.SeedRange` | client/src/player/player.js:154 | a jump dial in [0, 100] seeds a budget in [4.25, 8.25], strictly increasing with the dial |
| `Movement.Clamp` | client/src/player/player.js:138-139 | result lies in [lo, hi], equals v inside, the nearer bound outside |
| `Movement.Consume` | client/src/player/player.js:157-158 | a held tick consumes between 0 and the budget |
| `Movement.ConsumeFraction` | client/src/player/player.js:157-158 | with a decay fraction in [0, 1] the clamp does not bite: consumption is budget × decay |
| `Movement.JumpTick` | client/src/player/player.js:145-162 | holding continues iff up is held and (grounded and not crouching, or already holding and not falling, i.e. vertical velocity not > 0 with y pointing down); the budget reseeds only on a ground press; consumption lies in [0, budget] and comes out of the budget |
| `Movement.BudgetNeverNegative` | client/src/player/player.js:145-162 | over any series of ticks the budget stays non-negative and total consumption is non-negative |
| `Movement.AirborneBudgetConserved` | client/src/player/player.js:151-161 | in the air, consumed plus remaining equals the take-off budget, which never increases |
| `Movement.DefaultJumpBudget` | client/src/player/player.js:151-161 | with default dials a jump's budget is 6.25 and nothing after take-off consumes more |
| `Movement.RotateVector` | client/src/rotateVector.js:9-12 | the rotation matrix applied to the vector; angle 0 (cos 1, sin 0) leaves it unchanged |
| `Movement.RotateInverse` | client/src/rotateVector.js:9-12 | for a genuine angle (cos² + sin² = 1), rotating by the angle and then by its opposite gives the vector back |
| `Movement.RotatePreservesLength` | client/src/rotateVector.js:9-12 | for a genuine angle a rotation keeps the vector's length |
| `Movement.Integrate` | client/src/player/player.js:133-139 | each velocity component is the sum clamped to [-800, 800] |
| `Movement.HurtLockout` | client/src/player/player.js:66-72 | while hurt the horizontal response only damps, holding ends, nothing is consumed, facing is kept, no rotation, and the animation requests are those of a tick with no key pressed |
| `Movement.UpHeldAsWrittenGivesNaN` | client/src/player/player.js:145-164 | as written, the seed is NaN, the falling test (`velY > 0`) never fires, and with up held both velocity components become NaN |
| `PlayerModel.SetBlockAbove` | client/src/player/player.js:178-180 | the collision callback sets the flag |
| `PlayerModel.BlockAboveFlag.constructor` | client/src/player/player.js:9 | the flag starts false |
| `PlayerModel.Player.constructor` | client/src/player/player.js:14-29 | default attributes, zero external acceleration, a fresh skeleton tracking "idle", angle 0 |
| `PlayerModel.Player.CrouchCheck` | client/src/player/player.js:38-47 | the flag is reset and then holds exactly whether the head probe overlaps a tile |
| `PlayerModel.Player.RotateBy` | client/src/player/player.js:166-167 | the angle grows by the given degrees |
| `PlayerModel.Player.Jump` | client/src/player/player.js:145-164 | hold state and budget follow `JumpTick`; `accel.y` drops by (consumed / dt) × jumpVel |
| `PlayerModel.Player.HoldUp` | client/src/player/player.js:119-123 | up held runs the jump, released ends holding; both agree with `JumpTick` |
| `PlayerModel.Player.MoveHorizontally` | client/src/player/player.js:86-117 | `accel.x` is `AccelX`, facing is `FlipXAfter`, animation requests are `MoveRequests`, played through the guard |
| `PlayerModel.Player.PlayTracked` | client/src/player/player.js:92-126 | each request in the tick extends the guard's series by one |
| `PlayerModel.Player.Classify` | client/src/player/player.js:60-84 | opacity by `Alpha`, grounded from the down-side test, crouching iff grounded under a block |
| `PlayerModel.Player.Steer` | client/src/player/player.js:86-127 | horizontal response, jump and both animation requests, with plays equal to `Played` over `TickRequests` |
| `PlayerModel.Player.Accelerate` | client/src/player/player.js:133-142 | velocity is `Integrate` of the rotated acceleration; external acceleration is reset to zero |
| `PlayerModel.Player.HandleMovement` | client/src/player/player.js:54-143 | the whole tick: keeps the budget non-negative, opacity, classification, lockout, facing, jump state, rotation, velocity within [-800, 800], animation plays, external acceleration reset; the spine's scale on both axes and its parts untouched, and only its tracked animation and plays may change |
| `PlayerModel.Player.Update` | client/src/player/player.js:49-52 | after the probe and the controller the flag holds the probe result, crouching iff grounded with the head probe overlapping, never crouching in the air, both velocity components within [-800, 800], and the spine's scale on both axes and its parts untouched |
| `BackgroundImages.IndexFrom` | client/src/scenes/race/load-bg-images.js:6 | first occurrence at or after k, or -1 exactly when none |
| `BackgroundImages.IndexOf` | client/src/scenes/race/load-bg-images.js:6 | -1 iff the pattern occurs nowhere; otherwise the first occurrence |
| `BackgroundImages.ImageUrl` | client/src/scenes/race/load-bg-images.js:5-11 | the URL of one image; its directory is stated by `UrlDirectory`, its shape by `UrlEndsWithFile` |
| `BackgroundImages.UrlDirectory` | client/src/scenes/race/load-bg-images.js:2-11 | a name containing ".png" anywhere is fetched from the stamps directory, any other from `levels/6497061` |
| `BackgroundImages.UrlEndsWithFile` | client/src/scenes/race/load-bg-images.js:7-11 | every URL is on the level server and ends with "/" and the file name |
| `BackgroundImages.StampExample` | client/src/scenes/race/load-bg-images.js:6-7 | "tree.png.old" counts as a stamp |
| `BackgroundImages.QueuedImages` | client/src/scenes/race/load-bg-images.js:4-12 | one image call per entry; `QueuedImagesInOrder` states their order and content |
| `BackgroundImages.QueuedImagesInOrder` | client/src/scenes/race/load-bg-images.js:4-12 | one image call per entry, in list order, keyed by the file name |
| `BackgroundImages.QueuedStep` | client/src/scenes/race/load-bg-images.js:4-12 | queueing one more entry appends exactly its call |
| `BackgroundImages.LoadCalls` | client/src/scenes/race/load-bg-images.js:3-13 | two calls more than entries, the first clearing the path and the last starting the loader |
| `BackgroundImages.LoadCallsOrder` | client/src/scenes/race/load-bg-images.js:3-13 | path cleared first and only there, then each image once in order, then exactly one start at the end, even for an empty list |
| `BackgroundImages.Loader.constructor` | client/src/scenes/race/load-bg-images.js:3 | an empty loader with an empty base path |
| `BackgroundImages.Loader.SetPath` | client/src/scenes/race/load-bg-images.js:3 | sets the base path and records the call |
| `BackgroundImages.Loader.Image` | client/src/scenes/race/load-bg-images.js:11 | records one image call |
| `BackgroundImages.Loader.Start` | client/src/scenes/race/load-bg-images.js:13 | records the start call |
| `BackgroundImages.QueueImage` | client/src/scenes/race/load-bg-images.js:4-12 | the callback queues the entry under its file name with its `ImageUrl` |
| `BackgroundImages.LoadBGImages` | client/src/scenes/race/load-bg-images.js:1-14 | the loader's calls grow by exactly `LoadCalls(images)` and the base path ends empty |

## Left out

- The trigonometry of `rotateVector` and `rotate` (degrees to radians, `Math.sin`, `Math.cos`) is left out. `Movement.RotateVector` models the rotation matrix with the cosine and sine of the sprite angle as inputs of the tick, and the body-local velocity is an input of the tick.
- `rotate` also sets the body's gravity and offset. Only the angle change is modelled; gravity and offset belong to the engine.
- The jump decay `Math.pow(...)` is an input fraction `decay` in each tick. It is not computed.
- The physics engine is not modelled. That covers the down-side block test, the overlap test of the head probe, the probe's placement, the body size and `maxSpeed`.
- The hurt timer is not modelled. `isHurt` and `isInvincible` are inputs of the tick, and `getHurt` is left out.
- The wall clock is not modelled. The flicker parity `Math.round(now / 150) % 2 === 0` is an input.
- `setColors` is left out. It only sets colour values on attachments, and nothing in the core reads them.
- `server/pick-level.js` is not part of this model.
- `BackgroundImages.ImageDescriptor` gives every entry a string `image`. A malformed entry, on which `image.image.indexOf` throws a TypeError and stops the queueing, is not modelled.
- `PlayerModel.Player.HandleMovement`: on a hurt tick the source writes `isDown = false` back into the shared cursor object. The model only uses the released keys within the tick and does not model that write-back.
- `Spine.PlayerSpine.constructor`: the engine plays the initial animation at creation. That playback is not recorded in `plays`.
- `Spine.PlayerSpine.SetParts`: the eight `setAttachment` calls are modelled as a single update of the attachment map.
- `PlayerModel.Player.Jump` requires `dt > 0`. The frame time of a running game is positive, and a zero `dt` would divide by zero in the source.
- `PlayerModel.Player.constructor` starts `grounded`, `crouching`, `stillHoldingUp` and `flipX` as false and `remainingJumpVel` as 0. The source leaves them `undefined` until the first tick. They behave as false, and the budget is seeded before it is first read.
- Numbers are `real`. The model has no floating-point rounding and no overflow. NaN is modelled only for the finding below.

## Findings

| source | as written | input that shows it | evidently intended | confidence | as-written member | corrected member |
|---|---|---|---|---|---|---|
| client/src/player/player.js:148-163 | `jump` reads `this.velY` and `this.attributes.velY`. Neither property is ever defined, so the seed `0.25 + undefined * 0.02` is NaN, `undefined > 0` (the falling test) is always false, and `accel.y - velY * undefined` is NaN | any tick with the up key held and the player not hurt: both velocity components become NaN and escape the [-800, 800] clamp | scale by the jump constant `jumpVel` and test the body's vertical velocity | high (not executed) | `Movement.UpHeldAsWrittenGivesNaN` | `PlayerModel.Player.Update` |
