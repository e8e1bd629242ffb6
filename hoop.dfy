/**
 * The hoop as a value: its rim centre, rim width and the flag that stops one
 * pass through the rim from scoring twice, with the fair-score test and the
 * random relocation.  The random draws are parameters in [0, 1).
 */
module HoopLogic {
  import opened Arith

  const RIM_WIDTH: real := 60.0
  /** Slack added to the ball radius in the vertical closeness test. */
  const RIM_SLACK: real := 5.0

  datatype HoopState = HoopState(x: real, y: real, rimWidth: real, scored: bool)

  /** A freshly built hoop at (x, y), not yet scored. */
  function NewHoop(x: real, y: real): (h: HoopState)
    ensures h.x == x && h.y == y && h.rimWidth == RIM_WIDTH && !h.scored
  {
    HoopState(x, y, RIM_WIDTH, false)
  }

  /** The ball centre lies strictly between the rim ends and vertically within radius + 5 of the rim. */
  predicate InRim(h: HoopState, ballX: real, ballY: real, radius: real) {
    ballX > h.x - h.rimWidth / 2.0 && ballX < h.x + h.rimWidth / 2.0 && Abs(ballY - h.y) < radius + RIM_SLACK
  }

  lemma ProductNonNegative(a: real, b: real)
    requires a >= 0.0 && b >= 0.0
    ensures a * b >= 0.0
  {
  }

  lemma ProductPositive(a: real, b: real)
    requires a > 0.0 && b > 0.0
    ensures a * b > 0.0
  {
  }

  lemma ScaledDrawBounds(lo: real, hi: real, r: real)
    requires 0.0 <= r < 1.0
    ensures lo <= hi ==> lo <= lo + r * (hi - lo) <= hi
    ensures lo < hi ==> lo + r * (hi - lo) < hi
  {
    if lo <= hi {
      ProductNonNegative(r, hi - lo);
      ProductNonNegative(1.0 - r, hi - lo);
    }
    if lo < hi {
      ProductPositive(1.0 - r, hi - lo);
    }
  }

  /** `lo + Math.random() * (hi - lo)`: a draw in [0, 1) scaled to [lo, hi) stays in that range. */
  function ScaledDraw(lo: real, hi: real, r: real): (v: real)
    requires 0.0 <= r < 1.0
    ensures lo <= hi ==> lo <= v <= hi
    ensures lo < hi ==> v < hi
  {
    ScaledDrawBounds(lo, hi, r);
    lo + r * (hi - lo)
  }

  /** Relocation: each coordinate drawn uniformly from its half-open range; the flag is cleared. */
  function MoveToRandom(h: HoopState, minX: real, maxX: real, minY: real, maxY: real, r1: real, r2: real): (r: HoopState)
    requires 0.0 <= r1 < 1.0 && 0.0 <= r2 < 1.0
    ensures minX <= maxX ==> minX <= r.x <= maxX
    ensures minX < maxX ==> r.x < maxX
    ensures minY <= maxY ==> minY <= r.y <= maxY
    ensures minY < maxY ==> r.y < maxY
    ensures !r.scored && r.rimWidth == h.rimWidth
  {
    HoopState(ScaledDraw(minX, maxX, r1), ScaledDraw(minY, maxY, r2), h.rimWidth, false)
  }

  lemma FractionOfRange(t: real, d: real)
    requires 0.0 <= t < d
    ensures 0.0 <= t / d < 1.0
  {
  }

  /** Every point of the rectangle is a possible new position: the relocation covers its whole range. */
  lemma MoveToRandomCovers(h: HoopState, minX: real, maxX: real, minY: real, maxY: real, tx: real, ty: real)
    requires minX < maxX && minY < maxY
    requires minX <= tx < maxX && minY <= ty < maxY
    ensures exists r1: real, r2: real ::
      (0.0 <= r1 < 1.0 && 0.0 <= r2 < 1.0 &&
       MoveToRandom(h, minX, maxX, minY, maxY, r1, r2) == HoopState(tx, ty, h.rimWidth, false))
  {
    var r1 := (tx - minX) / (maxX - minX);
    var r2 := (ty - minY) / (maxY - minY);
    assert r1 * (maxX - minX) == tx - minX;
    assert r2 * (maxY - minY) == ty - minY;
    FractionOfRange(tx - minX, maxX - minX);
    FractionOfRange(ty - minY, maxY - minY);
    assert MoveToRandom(h, minX, maxX, minY, maxY, r1, r2) == HoopState(tx, ty, h.rimWidth, false);
  }

  /**
   * The fair-score test: it fires exactly when the hoop is not already scored,
   * the ball is moving down and it is within the rim; firing sets the flag and
   * changes nothing else.
   */
  function CheckScore(h: HoopState, ballX: real, ballY: real, vy: real, radius: real): (r: (bool, HoopState))
    ensures r.0 <==> !h.scored && vy < 0.0 && InRim(h, ballX, ballY, radius)
    ensures r.1 == h.(scored := h.scored || r.0)
  {
    if h.scored then (false, h)
    else if vy >= 0.0 then (false, h)
    else
      var rimLeft := h.x - h.rimWidth / 2.0;
      var rimRight := h.x + h.rimWidth / 2.0;
      if ballX > rimLeft && ballX < rimRight && Abs(ballY - h.y) < radius + RIM_SLACK then (true, h.(scored := true))
      else (false, h)
  }

  /** Once the hoop is scored, no later test can fire until the flag is cleared. */
  lemma NoDoubleScore(h: HoopState, ballX: real, ballY: real, vy: real, radius: real)
    requires h.scored
    ensures CheckScore(h, ballX, ballY, vy, radius) == (false, h)
  {
  }
}
