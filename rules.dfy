/**
 * The game's state as one value and the per-frame step and key handlers as
 * functions on it: `Tick` is `update()`, `PressSpace` and `ReleaseSpace` are
 * the Space key handlers, `ResetBall` is `resetBall()`.  The three-phase
 * state machine (aiming, shooting, celebrating), its invariant and the
 * scoring and timing properties are proved here; the class in GameLoop
 * performs the same steps in place.
 */
module Rules {
  import opened Arith
  import opened Physics
  import opened HoopLogic

  datatype Phase = Aiming | Shooting | Celebrating

  const MAX_POWER: real := 25.0
  const POWER_STEP: real := 0.5
  const MIN_ANGLE: int := 10
  const MAX_ANGLE: int := 90
  const CELEBRATION_DURATION: int := 90
  /** The rectangle a fairly scored hoop is relocated into. */
  const HOOP_MIN_X: real := 300.0
  const HOOP_MAX_X: real := 1100.0
  const HOOP_MIN_Y: real := 250.0
  const HOOP_MAX_Y: real := 550.0

  datatype World = World(
    ball: Ball,
    params: Params,
    hoop: HoopState,
    phase: Phase,
    shotAngle: int,
    chargePower: real,
    charging: bool,
    score: int,
    celebrationTimer: int,
    scoredFromBelow: bool)

  /** The state when the page loads. */
  const INITIAL: World :=
    World(Ball(START_X, START_Y, 0.0, 0.0), DEFAULTS, NewHoop(800.0, 400.0),
          Aiming, 60, 0.0, false, 0, 0, false)

  /** The hoop's flag marks exactly the celebrating phase, and only an aiming player can be charging. */
  predicate PhaseConsistent(w: World) {
    (w.hoop.scored <==> w.phase == Celebrating) && (w.charging ==> w.phase == Aiming)
  }

  /** Everything the game keeps true between frames and key events. */
  predicate Inv(w: World) {
    && InBox(w.ball)
    && MIN_ANGLE <= w.shotAngle <= MAX_ANGLE
    && 0.0 <= w.chargePower <= MAX_POWER
    && w.hoop.rimWidth == RIM_WIDTH
    && HOOP_MIN_X <= w.hoop.x < HOOP_MAX_X && HOOP_MIN_Y <= w.hoop.y < HOOP_MAX_Y
    && PhaseConsistent(w)
    && (w.phase == Celebrating ==> 1 <= w.celebrationTimer < CELEBRATION_DURATION)
    && (w.phase != Celebrating ==> w.celebrationTimer == 0)
  }

  lemma InitialInv()
    ensures Inv(INITIAL)
  {
  }

  // ---------------------------------------------------------------- resetBall

  /** Back to the start: ball at rest at the start position, aiming, no charge, hoop flag cleared. */
  function ResetBall(w: World): (r: World)
    ensures r.ball == Ball(START_X, START_Y, 0.0, 0.0) && InBox(r.ball)
    ensures r.phase == Aiming && !r.charging && r.chargePower == 0.0
    ensures r.hoop == w.hoop.(scored := false)
    ensures PhaseConsistent(r)
    ensures r == w.(ball := r.ball, phase := Aiming, charging := false, chargePower := 0.0, hoop := r.hoop)
  {
    w.(ball := Ball(START_X, START_Y, 0.0, 0.0), phase := Aiming, charging := false,
       chargePower := 0.0, hoop := w.hoop.(scored := false))
  }

  /** Outside a celebration (the timer is then zero) a reset keeps the whole invariant. */
  lemma ResetBallPreservesInv(w: World)
    requires Inv(w) && w.phase != Celebrating
    ensures Inv(ResetBall(w))
  {
  }

  // ---------------------------------------------------------- Space handlers

  /** Space pressed: start charging while aiming, abandon the shot while shooting, nothing while celebrating. */
  function PressSpace(w: World): (r: World)
    ensures w.phase == Aiming ==> r == w.(charging := true)
    ensures w.phase == Shooting ==> r == ResetBall(w) && r.phase == Aiming
    ensures w.phase == Celebrating ==> r == w
    ensures r.score == w.score && r.celebrationTimer == w.celebrationTimer
    ensures PhaseConsistent(w) ==> PhaseConsistent(r)
  {
    if w.phase == Aiming then w.(charging := true)
    else if w.phase == Shooting then ResetBall(w)
    else w
  }

  /**
   * Space released: if a charge was under way the shot is launched with the
   * given direction cosines (the caller supplies cos and sin of the shot angle)
   * and the power is consumed; otherwise nothing happens.
   */
  function ReleaseSpace(w: World, cosA: real, sinA: real): (r: World)
    ensures !w.charging ==> r == w
    ensures w.charging ==>
      r.phase == Shooting && !r.charging && r.chargePower == 0.0 &&
      r.ball.x == w.ball.x && r.ball.y == w.ball.y &&
      r.ball.vx == w.chargePower * cosA && r.ball.vy == w.chargePower * sinA &&
      r == w.(ball := r.ball, phase := Shooting, charging := false, chargePower := 0.0)
    ensures PhaseConsistent(w) ==> PhaseConsistent(r)
  {
    if w.charging then
      w.(ball := w.ball.(vx := w.chargePower * cosA, vy := w.chargePower * sinA),
         chargePower := 0.0, phase := Shooting, charging := false)
    else w
  }

  /** The launch speed equals the charged power when the direction is a unit vector. */
  lemma LaunchSpeed(w: World, cosA: real, sinA: real)
    requires w.charging && cosA * cosA + sinA * sinA == 1.0
    ensures var b := ReleaseSpace(w, cosA, sinA).ball;
      b.vx * b.vx + b.vy * b.vy == w.chargePower * w.chargePower
  {
    var p := w.chargePower;
    calc {
      (p * cosA) * (p * cosA) + (p * sinA) * (p * sinA);
      p * p * (cosA * cosA + sinA * sinA);
      p * p;
    }
  }

  /** Either handler keeps the invariant. */
  lemma SpaceKeysPreserveInv(w: World, cosA: real, sinA: real)
    requires Inv(w)
    ensures Inv(PressSpace(w)) && Inv(ReleaseSpace(w, cosA, sinA))
  {
    if w.phase == Shooting {
      ResetBallPreservesInv(w);
    }
  }

  /** While celebrating neither Space event has any effect. */
  lemma SpaceIgnoredWhileCelebrating(w: World, cosA: real, sinA: real)
    requires PhaseConsistent(w) && w.phase == Celebrating
    ensures PressSpace(w) == w && ReleaseSpace(w, cosA, sinA) == w
  {
  }

  // -------------------------------------------------------------- the frame

  /** Held-key aiming: the angle moves by one step within [10, 90], the power grows by 0.5 up to the cap. */
  function Aim(w: World, left: bool, right: bool): (r: World)
    ensures r == w.(shotAngle := r.shotAngle, chargePower := r.chargePower)
    ensures w.phase != Aiming ==> r == w
    ensures MIN_ANGLE <= w.shotAngle <= MAX_ANGLE ==>
      MIN_ANGLE <= r.shotAngle <= MAX_ANGLE && w.shotAngle - 1 <= r.shotAngle <= w.shotAngle + 1
    ensures (w.phase == Aiming && left && !right && w.shotAngle < MAX_ANGLE) ==> r.shotAngle == w.shotAngle + 1
    ensures (w.phase == Aiming && right && !left && w.shotAngle > MIN_ANGLE) ==> r.shotAngle == w.shotAngle - 1
    ensures !left && !right ==> r.shotAngle == w.shotAngle
    ensures (w.phase == Aiming && left && !right && w.shotAngle == MAX_ANGLE) ==> r.shotAngle == MAX_ANGLE
    ensures (w.phase == Aiming && right && !left && w.shotAngle == MIN_ANGLE) ==> r.shotAngle == MIN_ANGLE
    ensures (w.phase == Aiming && left && right && MIN_ANGLE <= w.shotAngle < MAX_ANGLE) ==> r.shotAngle == w.shotAngle
    ensures (w.phase == Aiming && left && right && w.shotAngle == MAX_ANGLE) ==> r.shotAngle == MAX_ANGLE - 1
    ensures 0.0 <= w.chargePower <= MAX_POWER ==>
      w.chargePower <= r.chargePower <= MAX_POWER && r.chargePower <= w.chargePower + POWER_STEP
    ensures w.phase == Aiming && w.charging ==> r.chargePower == Min(MAX_POWER, w.chargePower + POWER_STEP)
    ensures !(w.phase == Aiming && w.charging) ==> r.chargePower == w.chargePower
  {
    if w.phase == Aiming then
      var a1 := if left then MinInt(MAX_ANGLE, w.shotAngle + 1) else w.shotAngle;
      var a2 := if right then MaxInt(MIN_ANGLE, a1 - 1) else a1;
      var p := if w.charging then Min(MAX_POWER, w.chargePower + POWER_STEP) else w.chargePower;
      w.(shotAngle := a2, chargePower := p)
    else w
  }

  /** The physics block runs in every phase and only moves the ball, which stays in the court. */
  function PhysicsStep(w: World): (r: World)
    ensures InBox(r.ball)
    ensures r == w.(ball := r.ball)
  {
    w.(ball := Step(w.ball, w.params))
  }

  /** The position and velocity conditions under which the scoring block awards a point. */
  predicate ScoringContact(w: World) {
    w.phase == Shooting && !w.hoop.scored &&
    InRim(w.hoop, w.ball.x, w.ball.y, BALL_RADIUS) && w.ball.vy != 0.0
  }

  /**
   * The scoring block: the fair test first, then the upward ("cheat") test.
   * At most one point; a point comes exactly with a contact and a non-zero
   * vertical velocity, enters the celebration and records the direction.
   */
  function Score(w: World): (r: World)
    ensures r.score == w.score || r.score == w.score + 1
    ensures r.score == w.score + 1 <==> ScoringContact(w)
    ensures r.score == w.score ==> r == w
    ensures r.score == w.score + 1 ==>
      r == w.(score := w.score + 1, phase := Celebrating, hoop := w.hoop.(scored := true),
              celebrationTimer := CELEBRATION_DURATION, scoredFromBelow := w.ball.vy > 0.0)
  {
    if w.phase != Shooting then w
    else
      var (hit, h) := CheckScore(w.hoop, w.ball.x, w.ball.y, w.ball.vy, BALL_RADIUS);
      if hit then
        w.(score := w.score + 1, phase := Celebrating, hoop := h,
           celebrationTimer := CELEBRATION_DURATION, scoredFromBelow := false)
      else if !h.scored then
        var rimLeft := h.x - h.rimWidth / 2.0;
        var rimRight := h.x + h.rimWidth / 2.0;
        if w.ball.x > rimLeft && w.ball.x < rimRight && Abs(w.ball.y - h.y) < BALL_RADIUS + RIM_SLACK then
          if w.ball.vy > 0.0 then
            w.(score := w.score + 1, hoop := h.(scored := true), phase := Celebrating,
               celebrationTimer := CELEBRATION_DURATION, scoredFromBelow := true)
          else w
        else w
      else w
  }

  /** The two scoring paths are told apart by direction alone: fair needs vy < 0, cheat vy > 0, vy = 0 never scores. */
  lemma ScoreDirection(w: World)
    ensures Score(w).score == w.score + 1 && !Score(w).scoredFromBelow ==> w.ball.vy < 0.0
    ensures Score(w).score == w.score + 1 && Score(w).scoredFromBelow ==> w.ball.vy > 0.0
    ensures w.ball.vy == 0.0 ==> Score(w) == w
    ensures w.hoop.scored ==> Score(w) == w
  {
  }

  /** The celebration block: count down once per frame; on expiry relocate the hoop after a fair score and reset. */
  function Celebrate(w: World, r1: real, r2: real): (r: World)
    requires 0.0 <= r1 < 1.0 && 0.0 <= r2 < 1.0
    ensures w.phase != Celebrating ==> r == w
    ensures w.phase == Celebrating && w.celebrationTimer > 1 ==> r == w.(celebrationTimer := w.celebrationTimer - 1)
    ensures w.phase == Celebrating && w.celebrationTimer <= 1 ==>
      && r.phase == Aiming && r.ball == Ball(START_X, START_Y, 0.0, 0.0)
      && !r.charging && r.chargePower == 0.0 && !r.hoop.scored
      && r.celebrationTimer == w.celebrationTimer - 1
      && r.score == w.score && r.params == w.params && r.shotAngle == w.shotAngle
      && r.scoredFromBelow == w.scoredFromBelow && r.hoop.rimWidth == w.hoop.rimWidth
      && (w.scoredFromBelow ==> r.hoop.x == w.hoop.x && r.hoop.y == w.hoop.y)
      && (!w.scoredFromBelow ==> HOOP_MIN_X <= r.hoop.x < HOOP_MAX_X && HOOP_MIN_Y <= r.hoop.y < HOOP_MAX_Y)
  {
    if w.phase == Celebrating then
      var w1 := w.(celebrationTimer := w.celebrationTimer - 1);
      if w1.celebrationTimer <= 0 then
        var w2 := if !w1.scoredFromBelow
          then w1.(hoop := MoveToRandom(w1.hoop, HOOP_MIN_X, HOOP_MAX_X, HOOP_MIN_Y, HOOP_MAX_Y, r1, r2))
          else w1;
        ResetBall(w2)
      else w1
    else w
  }

  /**
   * One frame of `update()`: held-key aiming, physics, scoring, celebration.
   * The ball ends in the court and the score grows by at most one.
   */
  function Tick(w: World, left: bool, right: bool, r1: real, r2: real): (r: World)
    requires 0.0 <= r1 < 1.0 && 0.0 <= r2 < 1.0
    ensures InBox(r.ball)
    ensures w.score <= r.score <= w.score + 1
    ensures r.params == w.params
  {
    Celebrate(Score(PhysicsStep(Aim(w, left, right))), r1, r2)
  }

  /** Every frame keeps the invariant, whatever the physics parameters. */
  lemma TickPreservesInv(w: World, left: bool, right: bool, r1: real, r2: real)
    requires Inv(w) && 0.0 <= r1 < 1.0 && 0.0 <= r2 < 1.0
    ensures Inv(Tick(w, left, right, r1, r2))
  {
    var a := Aim(w, left, right);
    var p := PhysicsStep(a);
    var s := Score(p);
    assert s.phase == Celebrating ==> 1 <= s.celebrationTimer <= CELEBRATION_DURATION;
  }

  /** A frame scores exactly when a shot in flight meets the unscored rim after the physics step, moving up or down. */
  lemma TickScore(w: World, left: bool, right: bool, r1: real, r2: real)
    requires 0.0 <= r1 < 1.0 && 0.0 <= r2 < 1.0
    ensures var b := Step(w.ball, w.params);
      Tick(w, left, right, r1, r2).score == w.score + 1 <==>
      w.phase == Shooting && !w.hoop.scored && InRim(w.hoop, b.x, b.y, BALL_RADIUS) && b.vy != 0.0
  {
    var p := PhysicsStep(Aim(w, left, right));
    assert Score(p).score == w.score + 1 <==> ScoringContact(p);
  }

  /** A scoring frame leaves the game celebrating with 89 frames to go and the direction recorded. */
  lemma ScoringTick(w: World, left: bool, right: bool, r1: real, r2: real)
    requires 0.0 <= r1 < 1.0 && 0.0 <= r2 < 1.0
    requires Tick(w, left, right, r1, r2).score == w.score + 1
    ensures var r := Tick(w, left, right, r1, r2);
      r.phase == Celebrating && r.hoop.scored && r.celebrationTimer == CELEBRATION_DURATION - 1 &&
      (r.scoredFromBelow <==> Step(w.ball, w.params).vy > 0.0)
  {
    var p := PhysicsStep(Aim(w, left, right));
    assert Score(p).score == w.score + 1;
  }

  /**
   * The phase graph of a frame: aiming stays aiming; shooting moves only to
   * celebrating, and only with a point; celebrating returns to aiming exactly
   * when the timer runs out; the hoop moves only then, and only after a fair score.
   */
  lemma PhaseTransitions(w: World, left: bool, right: bool, r1: real, r2: real)
    requires 0.0 <= r1 < 1.0 && 0.0 <= r2 < 1.0
    ensures var r := Tick(w, left, right, r1, r2);
      && (w.phase == Aiming ==> r.phase == Aiming)
      && (w.phase == Shooting ==> r.phase != Aiming && (r.phase == Celebrating <==> r.score == w.score + 1))
      && (w.phase == Celebrating ==> r.phase == (if w.celebrationTimer <= 1 then Aiming else Celebrating))
      && ((r.hoop.x, r.hoop.y) != (w.hoop.x, w.hoop.y) ==>
            w.phase == Celebrating && w.celebrationTimer <= 1 && !w.scoredFromBelow)
  {
    var a := Aim(w, left, right);
    var p := PhysicsStep(a);
    var s := Score(p);
    assert a.phase == w.phase && p.phase == w.phase && p.hoop == w.hoop;
    if w.phase == Shooting {
      assert s.phase == Celebrating <==> s.score == w.score + 1;
    }
  }

  // ---------------------------------------------------------- event streams

  /** What can happen between two inspections of the state: a frame (with the held arrows and the two draws) or a Space event. */
  datatype Event = Frame(left: bool, right: bool, r1: real, r2: real) | SpaceDown | SpaceUp(cosA: real, sinA: real)

  predicate ValidEvent(e: Event) {
    e.Frame? ==> 0.0 <= e.r1 < 1.0 && 0.0 <= e.r2 < 1.0
  }

  predicate ValidEvents(es: seq<Event>) {
    forall i :: 0 <= i < |es| ==> ValidEvent(es[i])
  }

  /** Frames only, with valid draws. */
  predicate AllFrames(es: seq<Event>) {
    forall i :: 0 <= i < |es| ==> es[i].Frame? && ValidEvent(es[i])
  }

  function Apply(w: World, e: Event): World
    requires ValidEvent(e)
  {
    match e
    case Frame(left, right, r1, r2) => Tick(w, left, right, r1, r2)
    case SpaceDown => PressSpace(w)
    case SpaceUp(cosA, sinA) => ReleaseSpace(w, cosA, sinA)
  }

  function Run(w: World, es: seq<Event>): World
    requires ValidEvents(es)
    decreases |es|
  {
    if es == [] then w else Run(Apply(w, es[0]), es[1..])
  }

  lemma ApplyPreservesInv(w: World, e: Event)
    requires Inv(w) && ValidEvent(e)
    ensures Inv(Apply(w, e))
  {
    match e
    case Frame(left, right, r1, r2) => TickPreservesInv(w, left, right, r1, r2);
    case SpaceDown => SpaceKeysPreserveInv(w, 0.0, 0.0);
    case SpaceUp(cosA, sinA) => SpaceKeysPreserveInv(w, cosA, sinA);
  }

  /** Any interleaving of frames and Space events keeps the invariant. */
  lemma {:induction false} RunPreservesInv(w: World, es: seq<Event>)
    requires Inv(w) && ValidEvents(es)
    ensures Inv(Run(w, es))
    decreases |es|
  {
    if es != [] {
      ApplyPreservesInv(w, es[0]);
      assert ValidEvents(es[1..]) by {
        forall i | 0 <= i < |es| - 1 ensures ValidEvent(es[1..][i]) {
          assert es[1..][i] == es[i + 1];
        }
      }
      RunPreservesInv(Apply(w, es[0]), es[1..]);
    }
  }

  /** Every state the game can reach from the start satisfies the invariant. */
  lemma ReachableInv(es: seq<Event>)
    requires ValidEvents(es)
    ensures Inv(Run(INITIAL, es))
  {
    InitialInv();
    RunPreservesInv(INITIAL, es);
  }

  /** The score never decreases and grows by at most one per event. */
  lemma {:induction false} RunScoreBounds(w: World, es: seq<Event>)
    requires ValidEvents(es)
    ensures w.score <= Run(w, es).score <= w.score + |es|
    decreases |es|
  {
    if es != [] {
      assert ValidEvents(es[1..]) by {
        forall i | 0 <= i < |es| - 1 ensures ValidEvent(es[1..][i]) {
          assert es[1..][i] == es[i + 1];
        }
      }
      var w1 := Apply(w, es[0]);
      assert w.score <= w1.score <= w.score + 1;
      RunScoreBounds(w1, es[1..]);
    }
  }

  lemma AllFramesTail(es: seq<Event>)
    requires AllFrames(es) && es != []
    ensures AllFrames(es[1..]) && ValidEvents(es) && ValidEvents(es[1..])
  {
    forall i | 0 <= i < |es| - 1 ensures es[1..][i].Frame? && ValidEvent(es[1..][i]) {
      assert es[1..][i] == es[i + 1];
    }
  }

  /** Holding Space while aiming, n frames add 0.5 each, saturating at MAX_POWER. */
  lemma {:induction false} ChargeSaturates(w: World, es: seq<Event>)
    requires w.phase == Aiming && w.charging && w.chargePower <= MAX_POWER && AllFrames(es)
    ensures ValidEvents(es)
    ensures var r := Run(w, es);
      r.phase == Aiming && r.charging &&
      r.chargePower == Min(MAX_POWER, w.chargePower + POWER_STEP * |es| as real)
    decreases |es|
  {
    if es == [] {
      assert ValidEvents(es);
    } else {
      AllFramesTail(es);
      var e := es[0];
      var w1 := Apply(w, e);
      assert e.Frame?;
      PhaseTransitions(w, e.left, e.right, e.r1, e.r2);
      var p := Aim(w, e.left, e.right);
      assert PhysicsStep(p).chargePower == p.chargePower;
      assert w1.chargePower == Min(MAX_POWER, w.chargePower + POWER_STEP);
      assert w1.charging;
      ChargeSaturates(w1, es[1..]);
    }
  }

  /** Ten frames of charging from zero give 5; sixty give the cap, 25. */
  lemma ChargeExamples(w: World)
    requires w.phase == Aiming && w.charging && w.chargePower == 0.0
    ensures var frames := seq(10, _ => Frame(false, false, 0.0, 0.0));
      ValidEvents(frames) && Run(w, frames).chargePower == 5.0
    ensures var frames := seq(60, _ => Frame(false, false, 0.0, 0.0));
      ValidEvents(frames) && Run(w, frames).chargePower == MAX_POWER
  {
    var ten := seq(10, _ => Frame(false, false, 0.0, 0.0));
    var sixty := seq(60, _ => Frame(false, false, 0.0, 0.0));
    ChargeSaturates(w, ten);
    ChargeSaturates(w, sixty);
  }

  /** While the timer has not run out a celebration continues, one frame per count, with score and hoop untouched. */
  lemma {:induction false} CelebrationContinues(w: World, es: seq<Event>)
    requires w.phase == Celebrating && AllFrames(es) && |es| < w.celebrationTimer
    ensures ValidEvents(es)
    ensures var r := Run(w, es);
      r.phase == Celebrating && r.celebrationTimer == w.celebrationTimer - |es| &&
      r.score == w.score && r.hoop == w.hoop && r.scoredFromBelow == w.scoredFromBelow
    decreases |es|
  {
    if es == [] {
      assert ValidEvents(es);
    } else {
      AllFramesTail(es);
      var e := es[0];
      assert e.Frame?;
      var p := PhysicsStep(Aim(w, e.left, e.right));
      assert Score(p) == p;
      var w1 := Apply(w, e);
      assert w1 == p.(celebrationTimer := w.celebrationTimer - 1);
      CelebrationContinues(w1, es[1..]);
    }
  }

  /**
   * A celebration with t frames on its timer ends after exactly t frames: the
   * game is aiming again with the ball at rest at the start, the score kept,
   * and the hoop still where it was after a cheat score.
   */
  lemma {:induction false} CelebrationEnds(w: World, es: seq<Event>)
    requires w.phase == Celebrating && AllFrames(es) && |es| == w.celebrationTimer >= 1
    ensures ValidEvents(es)
    ensures var r := Run(w, es);
      r.phase == Aiming && r.ball == Ball(START_X, START_Y, 0.0, 0.0) && !r.charging &&
      r.chargePower == 0.0 && !r.hoop.scored && r.celebrationTimer == 0 && r.score == w.score &&
      (w.scoredFromBelow ==> r.hoop.x == w.hoop.x && r.hoop.y == w.hoop.y)
    decreases |es|
  {
    AllFramesTail(es);
    var e := es[0];
    assert e.Frame?;
    var p := PhysicsStep(Aim(w, e.left, e.right));
    assert Score(p) == p;
    var w1 := Apply(w, e);
    if |es| == 1 {
      assert es[1..] == [];
    } else {
      assert w1 == p.(celebrationTimer := w.celebrationTimer - 1);
      CelebrationEnds(w1, es[1..]);
    }
  }
}
