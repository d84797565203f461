# Neon Swing: a verified model of the game step, the music sequencer and the screen flow

Neon Swing is a browser platformer. A round player swings on a grappling rope, jumps and
fights turrets while it collects coins and heads for a level exit. This project models
three parts of it in Dafny:

- **The per-frame game step** (`update` in `components/GameEngine.tsx`). It is modelled
  as the class `Engine.Game`. Its fields are the ones the engine rewrites in place: the
  player and rope records, the two jump timers, the frame counter, the enemy list, the
  projectile list, the coin flags and the score. `Game.Step` runs the phases in the
  engine's order:
  1. the cooldowns and the melee attack;
  2. the jump timers, steering, the jump and gravity;
  3. the rope;
  4. friction, the speed limits and integration;
  5. the platform contacts;
  6. the enemies;
  7. the projectile pass, which walks the list backwards and removes spent entries in
     place;
  8. the coins;
  9. the exit and death reports.

  Each phase is a method proved against a pure function on the records, in the modules
  `Combat`, `Motion`, `Collision`, `Projectiles` and `Pickups`. The properties the game
  promises are lemmas about those functions. They cover damage and invulnerability, the
  six-step melee window, coyote time, the turret period, projectile accounting, coin
  counting and the ordering of the outcomes. The anchor search `findAnchor` is a loop
  method, `Anchor.FindAnchor`. Its result is characterised as the unique best anchor.
- **The background-music sequencer** (`utils/audio.ts`). `Audio.VoicesAt` is the pure
  step-to-voices table of `playSequenceStep`. `Audio.Sequencer` is a class with the
  playing flag, the loop position, the next note time and the pending timer. Its
  `ScheduleMusic` loop is proved to play exactly `Run(...)`, a closed-form run of steps.
- **The screen state machine** (`App.tsx`). `Shell.App` holds the screen, the level, the
  final score and the music it drives. Two scenario methods tie it to the engine's
  next-level rule: a full campaign, and an exit and a death in the same step.

Distances are compared without a square root. The engine's `getDistance(a, b) < d`
becomes `Within(a, b, d)`, which is `0 < d && DistSq(a, b) < d * d`. The two agree
whenever the square root is exact (`Geometry.WithinMatchesDistance`). The few updates
that need an actual square root get the host `Math.sqrt` as a parameter `sqrt`: the
rope length, the rope spring, the speed cap, the push-out and the turret aim. The model
assumes only that `sqrt` returns non-negative values. Lemmas that need exactness take
`IsRoot(sqrt(v), v)` as a hypothesis.

The model follows the code in these details:

- Grapple attach is level-triggered. While the button is held, an inactive rope searches
  for an anchor on every step, so a rope a jump has just released is re-attached in the
  same step.
- Swing input changes only the horizontal velocity.
- A turret's cooldown is frozen while the player is out of range.
- The hit test runs on six steps, not five: the trigger step and the next five.
- The rope can be shorter than 20, because attaching sets the length to the distance.
  Reeling in such a rope lengthens it to 20 (`Motion.ReelInShortRope`).
- The spring uses stiffness 0.05 and damping 0.99.
- hp is not clamped at 0.
- The exit is checked with the score as it stood before this step's coins, because the
  engine reads a captured React state value.
- Both reports can be made in one step, the level-complete report first. The shell then
  shows the game-over screen with the level already advanced
  (`Shell.ExitAndDeathTogether`).

## Model

| member | source | states |
|---|---|---|
| Geometry.DistSq | components/GameEngine.tsx:58-62 | the squared distance used for every distance test is never negative |
| Geometry.WithinMatchesDistance | components/GameEngine.tsx:58-67 | with an exact square root, the squared test `Within(a, b, d)` holds exactly when the distance is below `d` |
| Geometry.Clamp | components/GameEngine.tsx:76-77 | `max(lo, min(v, hi))` lies in `[lo, hi]` and leaves values already inside unchanged |
| Geometry.ClosestPoint | components/GameEngine.tsx:286-287 | the per-axis clamp lies in the rectangle and is the point itself when the point is inside |
| Geometry.ClosestPointIsNearest | components/GameEngine.tsx:286-291 | the clamped point is no farther than any other point of the rectangle |
| Geometry.NormalClassification | components/GameEngine.tsx:308-322 | for `dist > 0` the exact root of `distSq`, `ny < -0.5` iff `distY < 0 && 4*distY^2 > distSq`, and `ny > 0.5` iff `distY > 0 && 4*distY^2 > distSq` |
| Entities.NextLevel | components/GameEngine.tsx:428 | a next level exists iff the level index is below 3, and it is the index plus one |
| Anchor.FindAnchor | components/GameEngine.tsx:70-92 | the loop returns the best anchor: a clamped platform point within 60 of the cursor and 450 of the player, no farther from the player than any other such point, the earliest platform on a tie; it returns none exactly when no platform offers such a point |
| Anchor.BestAnchorUnique | components/GameEngine.tsx:70-92 | at most one result meets the best-anchor characterisation, so the search is fully determined |
| Combat.DamageStepCompose | components/GameEngine.tsx:297-305 | two damage phases in a row still cost at most one hp, because the first hit restarts the invulnerability timer |
| Combat.InvulnerabilityWindow | components/GameEngine.tsx:148 | after a step that costs one hp, the following 59 steps cost none, and the timer reads `61 - k` after `k` steps |
| Combat.AttackUpdate | components/GameEngine.tsx:147-185 | a click starts a swing iff the cooldown is 0 after its decrement; a swing sets cooldown 20, leaves 9 frames and tests the hitbox; without a swing the cooldown and the animation frames just count down, and the hitbox is tested iff the attack was live with frames left; on a hit-test step the hitbox stays live iff at least 5 frames remain; on other steps it keeps its state |
| Combat.TickAttack | components/GameEngine.tsx:147-183 | the imperative timer code on the player record follows `AttackUpdate`, counts the invulnerability timer down, and changes no other field |
| Combat.HitTests | components/GameEngine.tsx:159-185 | one hit-test flag per step of a click sequence |
| Combat.HitTestsAfterSwing | components/GameEngine.tsx:159-185 | `k` steps after a swing, and while the cooldown blocks a new one, the hitbox is tested exactly on the steps up to the fifth after the swing |
| Combat.SixHitSteps | components/GameEngine.tsx:151-185 | a swing tests the hitbox on its own step and the next five, and on none of the fourteen steps after those, whatever is clicked meanwhile |
| Combat.Strike | components/GameEngine.tsx:164-176 | an enemy is dead afterwards iff it was dead or lies within 40 plus its radius of the hitbox centre; nothing else about it changes |
| Combat.TurretTick | components/GameEngine.tsx:333-361 | a firing turret resets its cooldown to 180; a live turret in range with cooldown above 0 counts down by one; a dead turret, or one with the player out of range, is unchanged |
| Combat.CountdownFrom | components/GameEngine.tsx:339-341 | in range, a live turret's cooldown falls by one per step |
| Combat.FiringPeriod | components/GameEngine.tsx:339-358 | with the player staying in range, a turret that fires fires again exactly 181 steps later and not in between |
| Combat.FrozenOutOfRange | components/GameEngine.tsx:338-340 | with the player out of range, a turret does not change, however many steps pass |
| Combat.Shot | components/GameEngine.tsx:344-356 | a shot starts at the turret, is active and has the projectile radius |
| Combat.Shots | components/GameEngine.tsx:333-361 | the enemy pass appends one shot per firing turret, each from the position of a turret that fires |
| Combat.Contact | components/GameEngine.tsx:364-376 | touching a live enemy costs one hp iff the player is vulnerable; a hit sets the velocity to 5 away from the enemy horizontally (-5 when the player is not strictly right of it) and 5 upwards; only hp, the timer and the velocity change, and without a hit nothing does; the damage rule holds |
| Combat.TickAll | components/GameEngine.tsx:333-361 | the enemy pass applies the turret rule to each enemy |
| Combat.EnemyTurn | components/GameEngine.tsx:333-376 | one enemy's turret tick, its shot exactly when it fires, and its contact damage |
| Combat.EnemyPass | components/GameEngine.tsx:333-377 | the loop over the enemies ticks every turret, yields exactly the shots of the firing turrets in enemy order, and applies contact damage in order |
| Combat.ContactAllDamage | components/GameEngine.tsx:333-377 | the whole enemy pass costs at most one hp, only when a live enemy touches the still vulnerable player, and leaves position, grounding, size, facing and attack as they were |
| Collision.ResolveContact | components/GameEngine.tsx:285-327 | a platform the player does not overlap changes nothing; hp drops iff the platform overlapped is a hazard and the player is vulnerable; grounding is never lost within the pass; size, facing and attack are untouched |
| Collision.ContactVelocity | components/GameEngine.tsx:297-322 | with an exact root, an overlapping contact zeroes the horizontal velocity iff the centre lies more than 30 degrees off the vertical through the closest point (4dx² > dx² + dy²), zeroes a downward velocity when landing from above and an upward one when hitting from below, and starts from the knockback -10 when the player is hurt; so a hurt player not hitting from below moves up at 10 |
| Collision.NormalAxes | components/GameEngine.tsx:304-322 | the normal's three direction tests (up, down, mostly sideways) hold iff the corresponding squared inequality on the offset holds, the zero-distance normal counting as up |
| Collision.GroundingContact | components/GameEngine.tsx:308-322 | with an exact root, a contact grounds the player iff the player overlaps the platform and its centre is inside it or steeply above the closest point (the normal's vertical part below -0.5), and then it is no longer moving down |
| Collision.ResolveAllDamage | components/GameEngine.tsx:284-328 | the platform pass costs at most one hp, only through a hazard platform and only when the player was vulnerable |
| Collision.ResolveAllClear | components/GameEngine.tsx:284-328 | away from every platform, the pass leaves the player unchanged |
| Projectiles.Move | components/GameEngine.tsx:382-383 | a projectile moves by its velocity and nothing else changes |
| Projectiles.HitsWall | components/GameEngine.tsx:391-395 | the wall loop reports a hit iff the projectile lies strictly inside some platform |
| Projectiles.Visit | components/GameEngine.tsx:381-404 | after its move, a projectile stays active iff it is in bounds, in open air and does not hit the vulnerable player; a hit costs one hp |
| Projectiles.VisitProjectile | components/GameEngine.tsx:381-404 | the imperative visit of one projectile computes `Visit` |
| Projectiles.Sweep | components/GameEngine.tsx:380-409 | the backward pass keeps no more projectiles than it started with, every kept one is live, and only hp and the timer of the player change |
| Projectiles.SweepDamage | components/GameEngine.tsx:380-409 | the pass costs at most one hp, only when the player was vulnerable, and keeps as many projectiles as survive, less one on a hit |
| Projectiles.SweepHit | components/GameEngine.tsx:380-409 | when the pass costs hp, it keeps exactly the survivors, in order, less one: a survivor that reaches the vulnerable player, with no survivor after it reaching the player (the backward pass meets it first) |
| Projectiles.SweepNoHit | components/GameEngine.tsx:380-409 | a pass that costs no hp keeps exactly the survivors, in their original order |
| Projectiles.SweepInvulnerable | components/GameEngine.tsx:380-409 | while the player is invulnerable, the pass only moves projectiles and drops those out of bounds or inside platforms |
| Motion.Steer | components/GameEngine.tsx:199-206 | left and right keys add their push to the horizontal velocity; the facing follows the last key applied |
| Motion.TickJumpTimers | components/GameEngine.tsx:189-196 | the buffer counts down; the coyote timer refills to 10 on the ground and counts down in the air |
| Motion.AirborneCountdown | components/GameEngine.tsx:189-196 | `n` airborne steps take `n` off both timers while they last |
| Motion.CoyoteWindow | components/GameEngine.tsx:189-196 | after leaving the ground, coyote time lasts exactly nine airborne steps; a buffered jump press also lasts nine |
| Motion.Jump | components/GameEngine.tsx:209-219 | the jump sets the vertical velocity to -9.2 and clears grounding, nothing else |
| Motion.Gravity | components/GameEngine.tsx:222 | gravity only increases the vertical velocity |
| Motion.FreeFall | components/GameEngine.tsx:222 | `n` steps of gravity alone add exactly `n` times 0.12 to the vertical velocity and change nothing else |
| Motion.SteerJumpFall | components/GameEngine.tsx:199-222 | the imperative steering, jump and gravity code computes `Steer`, then `Jump` when a jump is taken, then `Gravity` |
| Motion.PullTowardAnchor | components/GameEngine.tsx:245-249 | the spring force of a taut rope never points away from the anchor |
| Motion.Spring | components/GameEngine.tsx:240-256 | the spring only changes the velocity, and a slack rope does nothing |
| Motion.Swing | components/GameEngine.tsx:258-259 | swinging changes only the horizontal velocity, by 0.4 per held direction |
| Motion.Reel | components/GameEngine.tsx:261-262 | reeling in gives `max(length - 3, 20)`; reeling out adds 3; with both keys the length is `max(length - 3, 20) + 3`; with neither key it stays |
| Motion.ReelInShortRope | components/GameEngine.tsx:261 | reeling in a rope shorter than 20 lengthens it to exactly 20 |
| Motion.Limits | components/GameEngine.tsx:265-278 | friction and the limits change only the velocity, and the vertical velocity is at most 8 afterwards |
| Motion.SpeedLimit | components/GameEngine.tsx:269-278 | with an exact root, the speed after the limits is at most 10 |
| Motion.CappedBound | components/GameEngine.tsx:269-274 | with an exact root, rescaling a velocity above 10 (and leaving one at most 10) gives a speed of at most 10 |
| Motion.Integrate | components/GameEngine.tsx:280-281 | the position advances by the velocity and nothing else changes |
| Pickups.Collect | components/GameEngine.tsx:412-421 | a coin is collected afterwards iff it already was or the player reaches it; nothing else about it changes |
| Pickups.CollectAll | components/GameEngine.tsx:412-421 | the pickup pass treats each coin on its own |
| Pickups.CountCollected | components/GameEngine.tsx:412-421 | the collected count never exceeds the number of coins |
| Pickups.CountUpdate | components/GameEngine.tsx:414-417 | replacing one coin changes the count by the difference of the two flags, so collecting a coin and adding one to the score keeps them in step |
| Pickups.CollectAllCount | components/GameEngine.tsx:412-421 | the pass raises the collected count by exactly the number of coins it newly collects |
| Pickups.Outcomes | components/GameEngine.tsx:423-436 | level complete is reported iff the pre-step score covers every coin and the player is within 30 of the exit; game over iff the player is 100 below the level or has no hp; both carry the pre-step score, and no other report is made; level complete comes first |
| Engine.Spawned | components/GameEngine.tsx:105-117 | a new player stands still at the spawn point, radius 10, facing right, with full hp (3), no timers, no attack and not grounded |
| Engine.StrikeAll | components/GameEngine.tsx:169-177 | the hit test kills exactly the live enemies within reach and changes nothing else |
| Engine.RopeMoved | components/GameEngine.tsx:225-263 | the rope rules change only the velocity and grounding; with no rope attached afterwards the player is unchanged; a rope attached during the step clears grounding |
| Engine.Moved | components/GameEngine.tsx:189-281 | the movement of one step (steering, jump, gravity, rope, friction and limits, integration) faces the last direction key applied, falls no faster than 8, and keeps hp, the timer, the size and the attack state |
| Engine.Armed | components/GameEngine.tsx:146-185 | the attack timers follow `AttackUpdate`, the invulnerability timer counts down once, and nothing else about the player changes |
| Engine.SwingOutcome | components/GameEngine.tsx:159-185 | the attack phase keeps the enemy list's length and its dead enemies, and leaves it unchanged on a step that does not test the hitbox |
| Engine.Game.constructor | components/GameEngine.tsx:97-128 | the level set-up: the player at the spawn point, the rope inactive, the level's enemies and coins, no projectiles, score 0, both jump timers 0 |
| Engine.Game.KeyDown | components/GameEngine.tsx:699-704 | the key is held afterwards, and Space, W or Up fills the jump buffer with 10 |
| Engine.Game.KeyUp | components/GameEngine.tsx:705 | the key is released |
| Engine.Game.MouseMove | components/GameEngine.tsx:708-715 | the cursor moves; the button flags stay |
| Engine.Game.MouseDown | components/GameEngine.tsx:716-719 | button 0 sets the grapple flag and button 2 the attack flag |
| Engine.Game.MouseUp | components/GameEngine.tsx:720-723 | button 0 clears the grapple flag and button 2 the attack flag |
| Engine.Game.StrikeEnemies | components/GameEngine.tsx:169-177 | the loop over enemies computes `StrikeAll` |
| Engine.Game.AttackPhase | components/GameEngine.tsx:146-185 | the attack timers follow `AttackUpdate`, the invulnerability timer counts down, the attack flag is cleared only when a swing consumes it, and enemies are struck only on a hit-test step; the player afterwards is `Armed` |
| Engine.Game.JumpPhase | components/GameEngine.tsx:189-222 | a jump happens iff the buffer is set and coyote time lasts or the rope is attached; it zeroes both timers and releases the rope; steering and gravity apply either way |
| Engine.Game.RopePhase | components/GameEngine.tsx:225-263 | with the button up the rope is released; with it down an inactive rope attaches to the best anchor, at the distance to it, and clears grounding; an attached rope springs, swings and reels; hp, the timer, the attack state and the facing are untouched; the length stays non-negative |
| Engine.Game.CollidePhase | components/GameEngine.tsx:284-328 | the platform loop clears grounding and then resolves each platform in order |
| Engine.Game.ControlPhase | components/GameEngine.tsx:146-281 | `ControlStep` holds from the start state: the player's own actions cost no hp and count the invulnerability timer down once; the attack timers and the attack flag follow `AttackUpdate`; the jump timers follow the jump rule; the rope is inactive with the button up, and with it held a rope that was or became inactive is the result of the anchor search from the start position, while a rope that stays attached keeps its anchor and is reeled; the player faces the last direction key applied and is exactly `Moved` from the `Armed` start player, with the jump decided by the timers and the rope the phase ends with; hp and its maximum are kept and the timer counts down once; the enemies are `SwingOutcome`, struck on a hit-test step |
| Engine.Game.WorldPhase | components/GameEngine.tsx:284-436 | `WorldStep` holds: the enemies are ticked against the post-contact position, the shots appended and the whole list swept once (`Hazards`); at most one hp is lost; only live projectiles remain; the damage rule holds for the phase; the coins in reach are collected and exactly the new ones added to the score, which stays equal to the coins collected; the reports are `Outcomes` of the score the phase started with |
| Engine.Game.Report | components/GameEngine.tsx:423-436 | the reports made are exactly `Outcomes` for the captured score and the final player |
| Engine.Game.EnemyPhase | components/GameEngine.tsx:333-377 | the enemy pass leaves every turret ticked, appends exactly the shots of the firing turrets in enemy order, and applies contact damage in order |
| Engine.Game.ProjectilePhase | components/GameEngine.tsx:380-409 | the backward loop with in-place removal leaves exactly the projectiles and the player of `Sweep` |
| Engine.Game.CoinPhase | components/GameEngine.tsx:412-421 | the coin loop collects the coins in reach and adds exactly the newly collected ones to the score |
| Engine.Game.MovePhase | components/GameEngine.tsx:189-281 | the jump timers follow the jump rule; the rope is inactive when the button is up, and with it held a rope that was inactive or released by the jump is attached to the best anchor at its distance (then reeled), or stays inactive when no anchor qualifies, while a rope that stays attached keeps its anchor and is reeled; the player faces the last direction key applied; the player afterwards is exactly `Moved` from the start, with the jump decided by the timers and the rope the phase ends with; movement leaves hp, the timer and the attack state untouched |
| Engine.Game.HazardPhase | components/GameEngine.tsx:284-409 | `landed` is the player after the platform contacts; the enemies are `TickAll` against its position; the projectiles and the player are `Sweep` of the old list plus this step's `Shots`, starting from the contact damage of `ContactAll`; together these cost at most one hp, only when the player was vulnerable; only live projectiles remain |
| Engine.Game.Step | components/GameEngine.tsx:134-438 | one frame is a `ControlStep` to the state `controlled` followed by a `WorldStep` from it: the attack, jump-timer and rope rules hold, with the rope released with the button up; with it held a rope that was inactive or released by the jump is attached to the best anchor from the start position at its (reeled) distance, or stays inactive when none qualifies, and a rope that stays attached keeps its anchor and is reeled; the player faces the last direction key applied and `controlled.player` is `Moved` from the `Armed` start player; the swing's victims are struck, every turret ticked, and the old projectiles plus this step's shots swept once; the score stays equal to the coins collected; hp drops at most once, only after the timer reached 0; the reports are `Outcomes` of the pre-step score |
| Engine.Game.FrameKeepsDead | components/GameEngine.tsx:164-361 | across a frame the enemy list keeps its length and no dead enemy comes back |
| Audio.VoicesAt | utils/audio.ts:253-357 | kick iff step mod 16 is 0, 8 or 10; snare iff 4 or 12; hi-hat on even steps, accented when divisible by 4; bass on even steps at 41.20 in bars 2 and 6 and 55 otherwise; the melody note of the table |
| Audio.MelodySteps | utils/audio.ts:297-356 | a melody note sounds exactly at the listed steps, all even and at most 84, so steps 85 to 127 are silent |
| Audio.RiffRepeats | utils/audio.ts:304-344 | the riff and its first bridge recur unchanged 44 steps later |
| Audio.DrumsRepeatEveryBar | utils/audio.ts:257-272 | the kick, snare and hi-hat pattern is the same in every bar |
| Audio.Run | utils/audio.ts:240-245 | a run of `n` scheduled steps has `n` entries |
| Audio.RunAt | utils/audio.ts:240-245 | the k-th scheduled step is at loop position start plus k modulo 128, at k step lengths after the first note |
| Audio.RunAppend | utils/audio.ts:240-245 | one more loop iteration appends the next position and time |
| Audio.Sequencer.constructor | utils/audio.ts:8-11 | a new sequencer is stopped at position 0 with no timer |
| Audio.Sequencer.ScheduleMusic | utils/audio.ts:232-250 | a playing sequencer plays exactly the steps due before now + 0.1, in loop order and 3/28 s apart; the position stays below 128 and advances by one per step modulo 128; the next pass is booked; a stopped one does nothing |
| Audio.Sequencer.StartMusic | utils/audio.ts:213-222 | starting while playing changes nothing; from stopped it plays from position 0 with the first note 0.1 s ahead |
| Audio.Sequencer.StopMusic | utils/audio.ts:224-230 | afterwards the music is stopped and no timer is pending |
| Shell.App.constructor | App.tsx:9-20 | the first render shows the menu at level 1 with score 0, and the music is stopped |
| Shell.App.SyncMusic | App.tsx:14-20 | after the effect, music plays iff the screen is the game screen |
| Shell.App.HandleGameEnd | App.tsx:22-32 | the reported score is always stored; a win with a next level sets that level and shows level complete; a win without one shows victory and a loss shows game over, neither changing the level |
| Shell.App.StartGame | App.tsx:63-66 | Start always plays level 1 |
| Shell.App.ToMenu | App.tsx:43 | Exit shows the menu and changes nothing else, like Main Menu (App.tsx line 116) |
| Shell.App.RetryOrNext | App.tsx:122-128 | Retry/Next plays again, from level 1 only after victory, otherwise the stored level |
| Shell.Campaign | App.tsx:22-32 | winning from level 1 with the engine's next-level rule plays levels 1, 2 and 3 and then shows victory |
| Shell.ExitAndDeathTogether | App.tsx:22-32 | an exit and a death in one step show game over, and Retry then plays the next level |

## Left out

- Drawing: the canvas, the HUD and the React markup are presentation only. So are the
  `setPlayerHp`/`setScore` mirrors; the score is modelled directly.
- The frame loop: `requestAnimationFrame`, and the adding and removing of window
  listeners. A step is a call of `Engine.Game.Step`.
- The mouse position is not scaled from client to canvas coordinates. `MouseMove` takes
  canvas coordinates.
- Sound-effect calls (`sfx.play*`) in the step have no effect on the state and are
  dropped.
- Web Audio synthesis is not modelled (oscillators, envelopes, `init`). Neither is the
  25 ms `setTimeout` wall-clock timing. The audio clock is a parameter `now`, and the
  timeout id a parameter `handle`.
- Random projectile ids are not modelled.
- The level data of `utils/levels.ts` is not part of this model. `GameData` is an input
  of the `Game` constructor.
- Floating point: all arithmetic is on `real`, with no IEEE-754 rounding. `Math.sqrt` is
  a parameter known only to return non-negative values.
- Combat.Shot: when the player stands exactly on the turret, the source's velocity is
  NaN, while the model uses zero. The velocity direction is not stated, because it
  depends on the host square root.
- Collision.GroundingContact, Motion.SpeedLimit, Motion.CappedBound: they hold only under the hypothesis that
  the host square root is exact.
- Motion.Spring: the contract states only that the velocity alone changes and that a
  slack rope does nothing. The force itself is stated by `Motion.PullTowardAnchor`.
- Engine.Game.Step: `if (!gameData) return` is not modelled, because a `Game` always has
  its level data.
- Engine.Game.Step: the React render batching is taken as given. The captured score is
  the score at the start of the step.
- Engine.Game.Step: the player's final position and velocity are stated only through the
  intermediate states: `controlled.player` is `Engine.Moved` of the `Engine.Armed` start
  player, `landed` is the platform pass from it, and the final player is what the enemy
  and projectile passes leave. The intermediate states `controlled` (after the player's own actions) and `landed` (after
  the platform contacts) are ghost outputs, so `Step` names them but does not compute
  them from the start state.
- Engine.Game.Step: the frame counter is only incremented. Nothing in the step reads it, so the
  model increments it at the end of the step (in `Engine.Game.WorldPhase`) rather than at
  the start.
- Audio.Sequencer.StartMusic, Audio.Sequencer.ScheduleMusic: the audio context and the
  music gain node are taken to exist (`init` creates them), so the `!this.ctx` and
  `!this.musicGain` early returns are not modelled.
