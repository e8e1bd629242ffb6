/**
 * The game as the source runs it: a `Hoop` object and a `Game` object whose
 * fields are the source's globals, updated in place statement by statement.
 * Each method's postcondition ties the new state to the corresponding
 * function of Rules applied to the old state, so everything proved there
 * (the invariant, scoring, timing) holds of these methods.
 */
module GameLoop {
  import opened Arith
  import opened Physics
  import opened HoopLogic
  import Rules

  class Hoop {
    var x: real
    var y: real
    const rimWidth: real
    var scored: bool

    function State(): HoopState
      reads this
    {
      HoopState(x, y, rimWidth, scored)
    }

    constructor (x0: real, y0: real)
      ensures State() == NewHoop(x0, y0)
    {
      x, y := x0, y0;
      rimWidth := RIM_WIDTH;
      scored := false;
    }

    /** `moveToRandom`, with the two `Math.random()` draws passed in. */
    method MoveToRandom(minX: real, maxX: real, minY: real, maxY: real, r1: real, r2: real)
      requires 0.0 <= r1 < 1.0 && 0.0 <= r2 < 1.0
      modifies this
      ensures State() == HoopLogic.MoveToRandom(old(State()), minX, maxX, minY, maxY, r1, r2)
      ensures minX < maxX ==> minX <= x < maxX
      ensures minY < maxY ==> minY <= y < maxY
      ensures !scored
    {
      x := minX + r1 * (maxX - minX);
      y := minY + r2 * (maxY - minY);
      scored := false;
    }

    /** `checkScore`: the fair-score test, which sets the flag when it fires. */
    method CheckScore(ballX: real, ballY: real, vy: real, radius: real) returns (hit: bool)
      modifies this
      ensures (hit, State()) == HoopLogic.CheckScore(old(State()), ballX, ballY, vy, radius)
      ensures hit <==> !old(scored) && vy < 0.0 && InRim(old(State()), ballX, ballY, radius)
    {
      if scored {
        return false;
      }
      if vy >= 0.0 {
        return false;
      }
      var rimLeft := x - rimWidth / 2.0;
      var rimRight := x + rimWidth / 2.0;
      if ballX > rimLeft && ballX < rimRight {
        if Abs(ballY - y) < radius + RIM_SLACK {
          scored := true;
          return true;
        }
      }
      return false;
    }
  }

  class Game {
    var ballX: real
    var ballY: real
    var velocityX: real
    var velocityY: real
    var gravity: real
    var bounciness: real
    var friction: real
    var timeScale: real
    const hoop: Hoop
    var gameState: Rules.Phase
    var shotAngle: int
    var chargePower: real
    var charging: bool
    var score: int
    var celebrationTimer: int
    var scoredFromBelow: bool

    /** The whole state as one value of Rules. */
    function Snapshot(): Rules.World
      reads this, hoop
    {
      Rules.World(Ball(ballX, ballY, velocityX, velocityY),
                  Params(gravity, bounciness, friction, timeScale),
                  hoop.State(), gameState, shotAngle, chargePower, charging,
                  score, celebrationTimer, scoredFromBelow)
    }

    ghost predicate Valid()
      reads this, hoop
    {
      Rules.Inv(Snapshot())
    }

    /** The state the page starts in. */
    constructor ()
      ensures Snapshot() == Rules.INITIAL && Valid()
      ensures fresh(hoop)
    {
      ballX, ballY := START_X, START_Y;
      velocityX, velocityY := 0.0, 0.0;
      gravity, bounciness, friction, timeScale := 0.5, 0.5, 0.1, 1.0;
      hoop := new Hoop(800.0, 400.0);
      gameState := Rules.Aiming;
      shotAngle := 60;
      chargePower := 0.0;
      charging := false;
      score := 0;
      celebrationTimer := 0;
      scoredFromBelow := false;
      new;
      Rules.InitialInv();
    }

    /** `resetBall` */
    method ResetBall()
      modifies this, hoop
      ensures Snapshot() == Rules.ResetBall(old(Snapshot()))
      ensures Rules.Inv(old(Snapshot())) && old(gameState) != Rules.Celebrating ==> Valid()
    {
      ghost var before := Snapshot();
      ballX := START_X;
      ballY := START_Y;
      velocityX := 0.0;
      velocityY := 0.0;
      gameState := Rules.Aiming;
      charging := false;
      chargePower := 0.0;
      hoop.scored := false;
      assert hoop.State() == before.hoop.(scored := false);
      assert Snapshot() == before.(ball := Ball(START_X, START_Y, 0.0, 0.0), phase := Rules.Aiming,
                                   charging := false, chargePower := 0.0, hoop := before.hoop.(scored := false));
      if Rules.Inv(before) && before.phase != Rules.Celebrating {
        Rules.ResetBallPreservesInv(before);
      }
    }

    /** The Space keydown handler. */
    method PressSpace()
      modifies this, hoop
      ensures Snapshot() == Rules.PressSpace(old(Snapshot()))
      ensures old(Valid()) ==> Valid()
    {
      ghost var before := Snapshot();
      if gameState == Rules.Aiming {
        charging := true;
      } else if gameState == Rules.Shooting {
        ResetBall();
      }
      if Rules.Inv(before) {
        Rules.SpaceKeysPreserveInv(before, 0.0, 0.0);
      }
    }

    /** The Space keyup handler; cosA and sinA are the cosine and sine of the shot angle. */
    method ReleaseSpace(cosA: real, sinA: real)
      modifies this
      ensures Snapshot() == Rules.ReleaseSpace(old(Snapshot()), cosA, sinA)
      ensures old(Valid()) ==> Valid()
    {
      ghost var before := Snapshot();
      if charging {
        charging := false;
        velocityX := chargePower * cosA;
        velocityY := chargePower * sinA;
        chargePower := 0.0;
        gameState := Rules.Shooting;
      }
      if Rules.Inv(before) {
        Rules.SpaceKeysPreserveInv(before, cosA, sinA);
      }
    }

    /** `update()`: one frame, with the held arrow keys and the two relocation draws as inputs. */
    method Update(left: bool, right: bool, r1: real, r2: real)
      requires 0.0 <= r1 < 1.0 && 0.0 <= r2 < 1.0
      modifies this, hoop
      ensures Snapshot() == Rules.Tick(old(Snapshot()), left, right, r1, r2)
      ensures old(Valid()) ==> Valid()
    {
      ghost var w0 := Snapshot();
      UpdateAim(left, right);
      UpdatePhysics();
      UpdateScoring();
      UpdateCelebration(r1, r2);
      if Rules.Inv(w0) {
        Rules.TickPreservesInv(w0, left, right, r1, r2);
      }
    }

    /** The continuous-input block of `update()`. */
    method UpdateAim(left: bool, right: bool)
      modifies this
      ensures Snapshot() == Rules.Aim(old(Snapshot()), left, right)
    {
      if gameState == Rules.Aiming {
        if left {
          shotAngle := MinInt(Rules.MAX_ANGLE, shotAngle + 1);
        }
        if right {
          shotAngle := MaxInt(Rules.MIN_ANGLE, shotAngle - 1);
        }
        if charging {
          chargePower := Min(Rules.MAX_POWER, chargePower + Rules.POWER_STEP);
        }
      }
    }

    /** The physics block of `update()`: integration, then the ground, wall and ceiling checks. */
    method UpdatePhysics()
      modifies this
      ensures Snapshot() == Rules.PhysicsStep(old(Snapshot()))
    {
      ghost var b0 := Ball(ballX, ballY, velocityX, velocityY);
      ghost var p := Params(gravity, bounciness, friction, timeScale);
      velocityY := velocityY - gravity * timeScale;
      ballX := ballX + velocityX * timeScale;
      ballY := ballY + velocityY * timeScale;
      assert Ball(ballX, ballY, velocityX, velocityY) == Integrate(b0, p);
      GroundCheck();
      LeftWallCheck();
      RightWallCheck();
      CeilingCheck();
    }

    /** Ground collision: clamp onto the floor, reflect vy, apply one-sided friction to vx. */
    method GroundCheck()
      modifies this
      ensures Snapshot() == old(Snapshot()).(ball := Ground(old(Snapshot()).ball, old(Snapshot()).params))
    {
      if ballY - BALL_RADIUS <= GROUND_Y {
        ballY := GROUND_Y + BALL_RADIUS;
        velocityY := -velocityY * bounciness;
        var frictionForce := friction * gravity;
        if velocityX > 0.0 {
          velocityX := Max(0.0, velocityX - frictionForce);
        } else if velocityX < 0.0 {
          velocityX := Min(0.0, velocityX + frictionForce);
        }
      }
    }

    /** Left wall collision: clamp to the wall's inner face, reflect vx. */
    method LeftWallCheck()
      modifies this
      ensures Snapshot() == old(Snapshot()).(ball := LeftWall(old(Snapshot()).ball, old(Snapshot()).params))
    {
      if ballX - BALL_RADIUS <= LEFT_WALL_X + WALL_WIDTH {
        ballX := LEFT_WALL_X + WALL_WIDTH + BALL_RADIUS;
        velocityX := -velocityX * bounciness;
      }
    }

    /** Right wall collision: clamp to the wall, reflect vx. */
    method RightWallCheck()
      modifies this
      ensures Snapshot() == old(Snapshot()).(ball := RightWall(old(Snapshot()).ball, old(Snapshot()).params))
    {
      if ballX + BALL_RADIUS >= RIGHT_WALL_X {
        ballX := RIGHT_WALL_X - BALL_RADIUS;
        velocityX := -velocityX * bounciness;
      }
    }

    /** Ceiling collision: clamp below the ceiling, reflect vy. */
    method CeilingCheck()
      modifies this
      ensures Snapshot() == old(Snapshot()).(ball := Ceiling(old(Snapshot()).ball, old(Snapshot()).params))
    {
      if ballY + BALL_RADIUS >= CEILING_Y - CEILING_HEIGHT {
        ballY := CEILING_Y - CEILING_HEIGHT - BALL_RADIUS;
        velocityY := -velocityY * bounciness;
      }
    }

    /** The scoring block of `update()`: the fair test on the hoop, then the upward test. */
    method UpdateScoring()
      modifies this, hoop
      ensures Snapshot() == Rules.Score(old(Snapshot()))
    {
      if gameState == Rules.Shooting {
        var hit := hoop.CheckScore(ballX, ballY, velocityY, BALL_RADIUS);
        if hit {
          score := score + 1;
          gameState := Rules.Celebrating;
          celebrationTimer := Rules.CELEBRATION_DURATION;
          scoredFromBelow := false;
        } else if !hoop.scored {
          var rimLeft := hoop.x - hoop.rimWidth / 2.0;
          var rimRight := hoop.x + hoop.rimWidth / 2.0;
          if ballX > rimLeft && ballX < rimRight && Abs(ballY - hoop.y) < BALL_RADIUS + RIM_SLACK {
            if velocityY > 0.0 {
              score := score + 1;
              hoop.scored := true;
              gameState := Rules.Celebrating;
              celebrationTimer := Rules.CELEBRATION_DURATION;
              scoredFromBelow := true;
            }
          }
        }
      }
    }

    /** The celebration block of `update()`: count down, and on expiry relocate (fair score only) and reset. */
    method UpdateCelebration(r1: real, r2: real)
      requires 0.0 <= r1 < 1.0 && 0.0 <= r2 < 1.0
      modifies this, hoop
      ensures Snapshot() == Rules.Celebrate(old(Snapshot()), r1, r2)
    {
      if gameState == Rules.Celebrating {
        celebrationTimer := celebrationTimer - 1;
        if celebrationTimer <= 0 {
          if !scoredFromBelow {
            hoop.MoveToRandom(Rules.HOOP_MIN_X, Rules.HOOP_MAX_X, Rules.HOOP_MIN_Y, Rules.HOOP_MAX_Y, r1, r2);
          }
          ResetBall();
        }
      }
    }
  }
}
