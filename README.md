# Basketball shooting game: the per-frame step, modelled and proved in Dafny

The game is a single-screen arcade toy. The player aims with the arrow keys,
charges a shot by holding Space, and throws a ball at a hoop inside a box
made of a floor, a ceiling and two walls. The hoop's rim is 60 units wide.
Every animation frame runs `update()`, which does three things:

- it adjusts the aim while the player is aiming;
- it moves the ball (gravity, restitution, ground friction, a time scale) and clamps it to the box;
- it runs a three-phase state machine: aiming, shooting, celebrating.

A point is scored in one of two ways:

- **fair score**: the ball comes down through the rim;
- **cheat score**: the ball goes up through the rim. This is a joke outcome with its own celebration.

After a fair score the hoop moves to a random point in [300, 1100) × [250, 550).

The project has five modules:

- `Arith` (arith.dfy): the `Math.min` / `Math.max` / `Math.abs` the step uses.
- `Physics` (physics.dfy): the integrator and the four boundary checks, as pure functions on a `Ball`.
- `HoopLogic` (hoop.dfy): the hoop as a value, the fair-score test and the random relocation.
- `Rules` (rules.dfy): the whole game state as one `World` value.
  - The frame (`Tick`), the two Space handlers and `resetBall` are functions on it.
  - The invariant `Inv` and the scoring, timing and charging properties are proved here, including over any stream of frames and key events (`Run`).
- `GameLoop` (gameloop.dfy): the classes `Hoop` and `Game`.
  - Their fields are the source's globals and hoop fields, and their methods update them in place, statement by statement, as the source does.
  - Each method's postcondition says its new state is the corresponding `Rules`, `Physics` or `HoopLogic` function of its old state, for example `Snapshot() == Rules.Tick(old(Snapshot()), …)`.
  - `Valid()` is `Rules.Inv`. The constructor establishes it, and `PressSpace`, `ReleaseSpace` and `Update` keep it. `ResetBall` keeps it outside a celebration.
  - The per-block helpers of `Update` (`UpdateAim`, `UpdatePhysics`, the four boundary checks, `UpdateScoring`, `UpdateCelebration`) and the `Hoop` methods promise nothing about `Valid()`: the state in the middle of a frame need not satisfy `Inv` (just after a point the timer is 90, one above the bound `Inv` allows).

Positions, velocities and the physics parameters are exact `real`s. The shot
angle is an `int`: it starts at 60 and only ever changes by ±1. The score and
the celebration timer are `int`s.

## Model

| member | source | states |
|---|---|---|
| Physics.Integrate | game.js:246-248 | the semi-implicit Euler step (vy first, then x and y from the new velocity); its contract is stated by `Physics.FreeFlight` and `Physics.GroundHit` |
| Physics.GroundFriction | game.js:254-256 | the one-sided ground friction; its contract is stated by `Physics.FrictionNeverFlips` |
| Physics.FrictionNeverFlips | game.js:254-256 | ground friction never changes the sign of vx; a zero vx stays zero; for non-zero vx, \|vx\| becomes max(0, \|vx\| − friction·gravity); with a non-negative force, a positive vx ends in [0, vx] (negative vx symmetrically) |
| Physics.Ground | game.js:251-257 | y never ends below the floor (120); on contact: y = 120, vy is reflected and scaled by the bounciness, and friction is applied to vx; with no contact nothing changes |
| Physics.LeftWall | game.js:260-263 | x never ends left of 40; on contact: x = 40 and vx is reflected and scaled; the vertical state is untouched |
| Physics.RightWall | game.js:266-269 | x never ends right of 1180; a ball that was right of 40 stays right of 40; on contact: x = 1180 and vx is reflected and scaled |
| Physics.Ceiling | game.js:272-275 | y never ends above 680; a ball that was above the floor stays above it; on contact: y = 680 and vy is reflected and scaled |
| Physics.Collide | game.js:250-275 | after the four checks, in the source's order, the ball lies inside [40,1180] × [120,680], whatever the input ball and parameters |
| Physics.Step | game.js:246-275 | integration followed by the boundary checks always leaves the ball inside the box, for every parameter setting |
| Physics.GroundHit | game.js:246-275 | if the integrated ball reaches the ground, the tick ends with y = 120 and vy = −(integrated vy)·bounciness; the ceiling check cannot also fire |
| Physics.WallResponse | game.js:259-269 | at most one wall fires in a tick; the one that fires clamps x to 40 or 1180 and sets vx = −vx·bounciness; otherwise x and vx pass through unchanged |
| Physics.FreeFlight | game.js:246-248 | with no boundary reached, the tick is the semi-implicit Euler step: vy′ = vy − g·s first, then y′ = y + vy′·s and x′ = x + vx·s |
| Physics.RestingBallStays | game.js:246-257 | with the default parameters, a ball lying still on the floor keeps its position, keeps vx = 0, and keeps vy in [0, 0.5): the phase-independent physics never moves a ball waiting to be aimed |
| Physics.RestExample | game.js:24-38 | from rest at (100,120) with the defaults, integration gives (100, 119.5) with vy = −0.5, and the full tick ends at (100,120) with velocity (0, 0.25) |
| HoopLogic.NewHoop | game.js:44-52 | a new hoop sits at the given point with rim width 60 and is not scored |
| HoopLogic.ScaledDraw | game.js:55-56 | lo + r·(hi − lo) with r in [0,1) lies in [lo, hi) |
| HoopLogic.MoveToRandom | game.js:54-58 | with draws in [0,1): x is in [minX, maxX) and y is in [minY, maxY); the scored flag is cleared; the rim width is kept |
| HoopLogic.MoveToRandomCovers | game.js:54-58 | every point of the rectangle can be reached by some pair of draws |
| HoopLogic.InRim | game.js:64-68 | the rim test shared by the fair and the upward score: x strictly between the rim ends and \|y − rim y\| < radius + 5; used by `HoopLogic.CheckScore` and `Rules.Score` (game.js:288-291), whose contracts state it |
| HoopLogic.CheckScore | game.js:60-74 | fires exactly when the hoop is unscored, vy < 0 and the ball is strictly between the rim ends and within radius + 5 of the rim height; firing sets the flag and changes nothing else |
| HoopLogic.NoDoubleScore | game.js:61 | once scored, the test never fires and changes nothing |
| Rules.InitialInv | game.js:111-124 | the start state (ball at rest at (100,120), hoop at (800,400), aiming, angle 60, power 0) satisfies the invariant |
| Rules.ResetBall | game.js:160-169 | ball at rest at the start, phase aiming, not charging, power 0, hoop flag cleared, everything else kept; the flag/phase consistency holds afterwards from any state |
| Rules.ResetBallPreservesInv | game.js:160-169 | outside a celebration a reset keeps the whole invariant |
| Rules.PressSpace | game.js:134-141 | aiming: sets charging; shooting: is a reset and returns to aiming; celebrating: no effect; never changes score or timer; keeps the flag/phase consistency |
| Rules.ReleaseSpace | game.js:147-154 | only if charging: phase shooting, charging cleared, power consumed (0), velocity = power·(cos, sin), position kept; otherwise no effect |
| Rules.LaunchSpeed | game.js:149-151 | for a unit direction, the launch speed squared equals the charged power squared |
| Rules.SpaceKeysPreserveInv | game.js:131-155 | both Space handlers keep the invariant |
| Rules.SpaceIgnoredWhileCelebrating | game.js:134-154 | while celebrating, neither Space event changes anything |
| Rules.Aim | game.js:233-243 | only while aiming; the angle moves by at most 1 and stays in [10,90]; left alone adds 1 below 90 and keeps 90 at 90; right alone subtracts 1 above 10 and keeps 10 at 10; both held keep the angle below 90 and turn 90 into 89 (min applied before max); the power grows by 0.5 up to 25 only while charging and stays in [0,25] |
| Rules.PhysicsStep | game.js:245-275 | the physics runs in every phase, changes only the ball, and leaves it inside the box |
| Rules.Score | game.js:278-301 | at most one point; a point is awarded exactly on a shooting contact with the unscored rim with vy ≠ 0; a point sets the celebrating phase, the hoop flag and the timer to 90, and records the direction (from below iff vy > 0); without a point nothing changes |
| Rules.ScoreDirection | game.js:280-299 | a fair score needs vy < 0 and a cheat score needs vy > 0; vy = 0 never scores; a scored hoop never scores again |
| Rules.Celebrate | game.js:304-311 | counts the timer down once per frame; on expiry: aiming, ball at rest at the start, no charge, flag cleared, score kept; the hoop stays put after a cheat score and moves into [300,1100) × [250,550) after a fair one |
| Rules.Tick | game.js:231-313 | one frame leaves the ball in the box, keeps the parameters, and raises the score by 0 or 1 |
| Rules.TickPreservesInv | game.js:231-313 | every frame keeps the invariant: ball in the box, angle in [10,90], power in [0,25], hoop flag set iff celebrating, charging only while aiming, timer in [1,89] while celebrating and 0 otherwise, hoop inside its rectangle |
| Rules.TickScore | game.js:278-301 | a frame scores iff shooting, the hoop is unscored, the ball after physics is within the rim, and its vy ≠ 0 |
| Rules.ScoringTick | game.js:280-305 | a scoring frame ends celebrating, with the hoop scored, the timer at 89, and "from below" iff the ball was moving up |
| Rules.PhaseTransitions | game.js:231-313 | aiming stays aiming; shooting never returns to aiming within a frame and becomes celebrating exactly with a point; celebrating returns to aiming exactly when the timer was ≤ 1; the hoop moves only on that expiry after a fair score |
| Rules.RunPreservesInv | game.js:131-313 | any interleaving of frames and Space events keeps the invariant |
| Rules.ReachableInv | game.js:111-124 | every state reachable from the start satisfies the invariant |
| Rules.RunScoreBounds | game.js:278-301 | over any event stream, the score never decreases and grows by at most one per event |
| Rules.ChargeSaturates | game.js:240-242 | holding Space while aiming for n frames gives power min(25, p + 0.5·n); the game stays aiming and charging |
| Rules.ChargeExamples | game.js:117-120 | ten charging frames from 0 give power 5; sixty give the cap, 25 |
| Rules.CelebrationContinues | game.js:304-306 | fewer frames than the timer leave the game celebrating, with the timer reduced by the number of frames and the score and hoop untouched |
| Rules.CelebrationEnds | game.js:304-311 | a celebration with t frames left ends after exactly t frames: aiming, ball at rest at the start, no charge, timer 0, score kept, hoop unmoved after a cheat score |
| GameLoop.Hoop.constructor | game.js:44-52 | the object's state is a new unscored hoop at (x, y) with rim width 60 |
| GameLoop.Hoop.MoveToRandom | game.js:54-58 | updates x, y and scored in place to `HoopLogic.MoveToRandom` of the old state; the new position is in the half-open ranges |
| GameLoop.Hoop.CheckScore | game.js:60-74 | returns the fair-score verdict and sets the flag in place, as `HoopLogic.CheckScore` |
| GameLoop.Game.constructor | game.js:13-38 | the fields hold the start state `Rules.INITIAL`, which satisfies the invariant |
| GameLoop.Game.ResetBall | game.js:160-169 | assigns the globals in place to `Rules.ResetBall` of the old state; keeps `Valid()` outside a celebration |
| GameLoop.Game.PressSpace | game.js:134-141 | the keydown handler, in place, equals `Rules.PressSpace`; keeps `Valid()` |
| GameLoop.Game.ReleaseSpace | game.js:147-154 | the keyup handler, in place, equals `Rules.ReleaseSpace`; keeps `Valid()` |
| GameLoop.Game.Update | game.js:231-313 | one frame in place equals `Rules.Tick` of the old state; keeps `Valid()` |
| GameLoop.Game.UpdateAim | game.js:233-243 | the aiming block in place equals `Rules.Aim` |
| GameLoop.Game.UpdatePhysics | game.js:246-275 | the integration statements then the four checks, in place, equal `Rules.PhysicsStep` |
| GameLoop.Game.GroundCheck | game.js:251-257 | the ground block in place equals `Physics.Ground` on the ball |
| GameLoop.Game.LeftWallCheck | game.js:260-263 | the left-wall block in place equals `Physics.LeftWall` |
| GameLoop.Game.RightWallCheck | game.js:266-269 | the right-wall block in place equals `Physics.RightWall` |
| GameLoop.Game.CeilingCheck | game.js:272-275 | the ceiling block in place equals `Physics.Ceiling` |
| GameLoop.Game.UpdateScoring | game.js:278-301 | the scoring block, with its call to the hoop's test, in place equals `Rules.Score` |
| GameLoop.Game.UpdateCelebration | game.js:304-311 | the celebration block, with the relocation and the reset, in place equals `Rules.Celebrate` |

## Left out

- Rendering (`Hoop.draw`, `drawClownFace`, `draw`, game.js:76-108, 171-226, 315-410): these are canvas calls. That includes the backboard and rim-thickness fields of the hoop, which only drawing reads.
- DOM wiring (game.js:3-8, 129-132, 144-145, 412-419): canvas lookup, listener registration, the `keys` map and the `requestAnimationFrame` pump. The held arrow keys are boolean inputs to `Update`. The Space events are the methods `PressSpace` and `ReleaseSpace`. `Rules.Run` interleaves them freely.
- `Math.random` (game.js:55-56): the two draws are parameters in [0, 1).
- `Math.cos` / `Math.sin` and the degree-to-radian conversion at release (game.js:149-151): the caller passes the cosine and sine of the shot angle. The model does not check that they belong to `shotAngle`.
- IEEE-754 rounding: all arithmetic is exact `real` arithmetic, an idealisation of JavaScript's doubles.
- The physics parameters (`gravity`, `bounciness`, `friction`, `timeScale`, game.js:24-27) are mutable globals that game.js itself never changes. The model keeps them as unconstrained fields of `Game`; the invariant places no constraint on them.
- Rules.ChargeSaturates: requires the starting power to be at most 25. From a larger value the first frame drops it to the cap, which the closed form min(25, p + 0.5·n) does not describe for n = 0. The invariant keeps the power at most 25 in every reachable state.
- GameLoop.Game.UpdatePhysics: the source's `update()` is one function. The model splits it into one method per block: aiming, physics (the three integration statements inline, then one method per boundary check), scoring and celebration. `Update` calls them in the source's order. This keeps each proof small; the statements and their order are unchanged.

## A worked tick

One default tick from rest at (100, 120): integration gives (100, 119.5) with vy = −0.5; the ground check (game.js:251-253) then clamps y to 120 and reflects vy to 0.25. `Physics.RestExample` states both stages.
