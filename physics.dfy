/**
 * The physics half of the per-frame step: a semi-implicit Euler integrator
 * scaled by the time factor, followed by four independent boundary checks
 * (ground, left wall, right wall, ceiling) that clamp the ball and reflect
 * its velocity.  Court coordinates have y growing upwards from the floor.
 * Numbers are exact reals, an idealisation of JavaScript's doubles.
 */
module Physics {
  import opened Arith

  const GROUND_Y: real := 100.0
  const CEILING_Y: real := 720.0   // the canvas height
  const CEILING_HEIGHT: real := 20.0
  const WALL_WIDTH: real := 20.0
  const LEFT_WALL_X: real := 0.0
  const RIGHT_WALL_X: real := 1200.0
  const BALL_RADIUS: real := 20.0
  const START_X: real := 100.0
  const START_Y: real := GROUND_Y + BALL_RADIUS

  /** The extreme centre positions the boundary checks allow. */
  const FLOOR: real := GROUND_Y + BALL_RADIUS                    // 120
  const ROOF: real := CEILING_Y - CEILING_HEIGHT - BALL_RADIUS   // 680
  const LEFT_LIMIT: real := LEFT_WALL_X + WALL_WIDTH + BALL_RADIUS   // 40
  const RIGHT_LIMIT: real := RIGHT_WALL_X - BALL_RADIUS          // 1180

  datatype Ball = Ball(x: real, y: real, vx: real, vy: real)

  /** The tunable parameters; nothing constrains them (negative values are accepted). */
  datatype Params = Params(gravity: real, bounciness: real, friction: real, timeScale: real)

  const DEFAULTS: Params := Params(0.5, 0.5, 0.1, 1.0)

  /** The ball's centre lies inside the court. */
  predicate InBox(b: Ball) {
    LEFT_LIMIT <= b.x <= RIGHT_LIMIT && FLOOR <= b.y <= ROOF
  }

  /** Velocity is updated by gravity first; the position then moves by the NEW velocity. */
  function Integrate(b: Ball, p: Params): Ball {
    var vy := b.vy - p.gravity * p.timeScale;
    Ball(b.x + b.vx * p.timeScale, b.y + vy * p.timeScale, b.vx, vy)
  }

  /** Ground friction: `friction * gravity` taken off the horizontal speed, clamped at zero. */
  function GroundFriction(vx: real, force: real): real {
    if vx > 0.0 then Max(0.0, vx - force)
    else if vx < 0.0 then Min(0.0, vx + force)
    else vx
  }

  /**
   * Friction moves the horizontal speed towards zero by `force` and never
   * past it: the sign never flips, and with a non-negative force the
   * magnitude never grows.
   */
  lemma FrictionNeverFlips(vx: real, force: real)
    ensures var r := GroundFriction(vx, force);
      && (vx != 0.0 ==> Abs(r) == Max(0.0, Abs(vx) - force))
      && (vx > 0.0 ==> 0.0 <= r && (force >= 0.0 ==> r <= vx))
      && (vx < 0.0 ==> r <= 0.0 && (force >= 0.0 ==> vx <= r))
      && (vx == 0.0 ==> r == 0.0)
  {
  }

  /** Ground check: the ball never ends below the floor; only the vertical state and friction change. */
  function Ground(b: Ball, p: Params): (r: Ball)
    ensures r.y >= FLOOR && r.x == b.x
    ensures b.y - BALL_RADIUS <= GROUND_Y ==>
      r.y == FLOOR && r.vy == -b.vy * p.bounciness && r.vx == GroundFriction(b.vx, p.friction * p.gravity)
    ensures b.y - BALL_RADIUS > GROUND_Y ==> r == b
  {
    if b.y - BALL_RADIUS <= GROUND_Y then
      b.(y := GROUND_Y + BALL_RADIUS, vy := -b.vy * p.bounciness,
         vx := GroundFriction(b.vx, p.friction * p.gravity))
    else b
  }

  /** Left-wall check: the ball never ends left of the wall; the vertical state is untouched. */
  function LeftWall(b: Ball, p: Params): (r: Ball)
    ensures r.x >= LEFT_LIMIT && r.y == b.y && r.vy == b.vy
    ensures b.x - BALL_RADIUS <= LEFT_WALL_X + WALL_WIDTH ==> r.x == LEFT_LIMIT && r.vx == -b.vx * p.bounciness
    ensures b.x - BALL_RADIUS > LEFT_WALL_X + WALL_WIDTH ==> r == b
  {
    if b.x - BALL_RADIUS <= LEFT_WALL_X + WALL_WIDTH then
      b.(x := LEFT_WALL_X + WALL_WIDTH + BALL_RADIUS, vx := -b.vx * p.bounciness)
    else b
  }

  /** Right-wall check: the ball never ends right of the wall, and a ball right of the left limit stays so. */
  function RightWall(b: Ball, p: Params): (r: Ball)
    ensures r.x <= RIGHT_LIMIT && r.y == b.y && r.vy == b.vy
    ensures b.x >= LEFT_LIMIT ==> r.x >= LEFT_LIMIT
    ensures b.x + BALL_RADIUS >= RIGHT_WALL_X ==> r.x == RIGHT_LIMIT && r.vx == -b.vx * p.bounciness
    ensures b.x + BALL_RADIUS < RIGHT_WALL_X ==> r == b
  {
    if b.x + BALL_RADIUS >= RIGHT_WALL_X then
      b.(x := RIGHT_WALL_X - BALL_RADIUS, vx := -b.vx * p.bounciness)
    else b
  }

  /** Ceiling check: the ball never ends above the ceiling, and a ball above the floor stays so. */
  function Ceiling(b: Ball, p: Params): (r: Ball)
    ensures r.y <= ROOF && r.x == b.x && r.vx == b.vx
    ensures b.y >= FLOOR ==> r.y >= FLOOR
    ensures b.y + BALL_RADIUS >= CEILING_Y - CEILING_HEIGHT ==> r.y == ROOF && r.vy == -b.vy * p.bounciness
    ensures b.y + BALL_RADIUS < CEILING_Y - CEILING_HEIGHT ==> r == b
  {
    if b.y + BALL_RADIUS >= CEILING_Y - CEILING_HEIGHT then
      b.(y := CEILING_Y - CEILING_HEIGHT - BALL_RADIUS, vy := -b.vy * p.bounciness)
    else b
  }

  /** The four checks in the source's order; the result is inside the court whatever the input. */
  function Collide(b: Ball, p: Params): (r: Ball)
    ensures InBox(r)
  {
    Ceiling(RightWall(LeftWall(Ground(b, p), p), p), p)
  }

  /** One physics tick: integrate, then resolve the boundaries.  Holds for every parameter setting. */
  function Step(b: Ball, p: Params): (r: Ball)
    ensures InBox(r)
  {
    Collide(Integrate(b, p), p)
  }

  /** A ball that reaches the ground ends the tick on the floor, reflected once: the ceiling cannot also fire. */
  lemma GroundHit(b: Ball, p: Params)
    requires Integrate(b, p).y - BALL_RADIUS <= GROUND_Y
    ensures Step(b, p).y == FLOOR
    ensures Step(b, p).vy == -Integrate(b, p).vy * p.bounciness
  {
    var g := Ground(Integrate(b, p), p);
    assert g.y == FLOOR;
    assert LeftWall(g, p).y == FLOOR && RightWall(LeftWall(g, p), p).y == FLOOR;
  }

  /**
   * At most one wall fires in a tick, and the one that does clamps x and
   * reflects vx scaled by the bounciness (`m` is the ball after integration).
   */
  lemma WallResponse(m: Ball, p: Params)
    ensures var g := Ground(m, p);
      var r := Collide(m, p);
      if g.x - BALL_RADIUS <= LEFT_WALL_X + WALL_WIDTH then r.x == LEFT_LIMIT && r.vx == -g.vx * p.bounciness
      else if g.x + BALL_RADIUS >= RIGHT_WALL_X then r.x == RIGHT_LIMIT && r.vx == -g.vx * p.bounciness
      else r.x == g.x && r.vx == g.vx
  {
    var g := Ground(m, p);
    var l := LeftWall(g, p);
    var w := RightWall(l, p);
    assert Collide(m, p) == Ceiling(w, p);
    if g.x - BALL_RADIUS <= LEFT_WALL_X + WALL_WIDTH {
      assert l.x == LEFT_LIMIT && w == l;
    } else {
      assert l == g;
    }
  }

  /** With no boundary reached, the tick is the bare semi-implicit Euler step. */
  lemma FreeFlight(b: Ball, p: Params)
    requires var m := Integrate(b, p);
      FLOOR < m.y < ROOF && LEFT_LIMIT < m.x < RIGHT_LIMIT
    ensures Step(b, p).vy == b.vy - p.gravity * p.timeScale
    ensures Step(b, p).y == b.y + Step(b, p).vy * p.timeScale
    ensures Step(b, p).x == b.x + b.vx * p.timeScale && Step(b, p).vx == b.vx
  {
  }

  /** Under the default parameters a ball lying still on the floor stays where it is (it only jitters in vy). */
  lemma RestingBallStays(b: Ball)
    requires b.y == FLOOR && b.vx == 0.0 && 0.0 <= b.vy < 0.5 && LEFT_LIMIT <= b.x <= RIGHT_LIMIT
    ensures var r := Step(b, DEFAULTS);
      r.x == b.x && r.y == FLOOR && r.vx == 0.0 && 0.0 <= r.vy < 0.5
  {
    var m := Integrate(b, DEFAULTS);
    assert m.y == FLOOR + b.vy - 0.5;
    GroundHit(b, DEFAULTS);
  }

  /** The ball at rest at the start position, one default tick: (100,120) with velocity (0, 0.25). */
  lemma RestExample()
    ensures Integrate(Ball(START_X, START_Y, 0.0, 0.0), DEFAULTS) == Ball(100.0, 119.5, 0.0, -0.5)
    ensures Step(Ball(START_X, START_Y, 0.0, 0.0), DEFAULTS) == Ball(100.0, 120.0, 0.0, 0.25)
  {
  }
}
