/** Rectangles and the per-direction edge test and score of the spatial
    resolver (components/SpatialNavigationCompat.tsx, getNextFocusable). */
module Geometry {

  /** An on-screen rectangle; origin top-left, x grows right, y grows down.
      Coordinates are exact reals (the source uses JavaScript numbers). */
  datatype Rect = Rect(x: real, y: real, width: real, height: real) {
    function Bottom(): real { y + height }
    function Right(): real { x + width }
    function CenterX(): real { x + width / 2.0 }
    function CenterY(): real { y + height / 2.0 }
  }

  function Abs(v: real): (r: real)
    ensures r >= 0.0 && (r == v || r == -v)
  {
    if v < 0.0 then -v else v
  }

  /** The direction strings the resolver's switch recognises. */
  predicate IsKnownDirection(direction: string) {
    direction == "UP" || direction == "DOWN" || direction == "LEFT" || direction == "RIGHT"
  }

  /** `r` lies strictly beyond the edge of `cur` that faces `direction`. */
  predicate StrictlyPast(direction: string, cur: Rect, r: Rect) {
    if direction == "UP" then r.Bottom() < cur.y
    else if direction == "DOWN" then r.y > cur.Bottom()
    else if direction == "LEFT" then r.Right() < cur.x
    else if direction == "RIGHT" then r.x > cur.Right()
    else false
  }

  /** Centre-to-centre offset across the axis of movement: horizontal for
      UP/DOWN, vertical for LEFT/RIGHT. */
  function CrossOffset(direction: string, cur: Rect, r: Rect): real {
    if direction == "UP" || direction == "DOWN" then Abs(r.CenterX() - cur.CenterX())
    else Abs(r.CenterY() - cur.CenterY())
  }

  /** Distance from the edge of `cur` facing `direction` to the near edge of
      `r`: positive exactly when `r` lies strictly past that edge. */
  function AlongGap(direction: string, cur: Rect, r: Rect): real {
    if direction == "UP" then cur.y - r.Bottom()
    else if direction == "DOWN" then r.y - cur.Bottom()
    else if direction == "LEFT" then cur.x - r.Right()
    else if direction == "RIGHT" then r.x - cur.Right()
    else 0.0
  }

  /** `along` is the source's `directionScore` before the alignment bonus,
      `across` its `distance`. */
  datatype Gaps = Gaps(along: real, across: real)

  /** The switch on `direction` for one candidate `pos` against the current
      rectangle `cur`; both values stay 0 when the edge test fails or the
      direction is not recognised. */
  function EdgeGaps(direction: string, cur: Rect, pos: Rect): (g: Gaps)
    ensures g.across >= 0.0
    ensures g.along > 0.0 <==> StrictlyPast(direction, cur, pos)
    ensures g.along > 0.0 ==> g.across == CrossOffset(direction, cur, pos)
    ensures g.along > 0.0 ==> g.along == AlongGap(direction, cur, pos)
    ensures StrictlyPast(direction, cur, pos) <==> AlongGap(direction, cur, pos) > 0.0
    ensures g.along <= 0.0 ==> g == Gaps(0.0, 0.0)
    ensures !IsKnownDirection(direction) ==> g == Gaps(0.0, 0.0)
  {
    if direction == "UP" then
      if pos.y + pos.height < cur.y then
        Gaps(cur.y - (pos.y + pos.height), Abs(pos.x + pos.width / 2.0 - (cur.x + cur.width / 2.0)))
      else Gaps(0.0, 0.0)
    else if direction == "DOWN" then
      if pos.y > cur.y + cur.height then
        Gaps(pos.y - (cur.y + cur.height), Abs(pos.x + pos.width / 2.0 - (cur.x + cur.width / 2.0)))
      else Gaps(0.0, 0.0)
    else if direction == "LEFT" then
      if pos.x + pos.width < cur.x then
        Gaps(cur.x - (pos.x + pos.width), Abs(pos.y + pos.height / 2.0 - (cur.y + cur.height / 2.0)))
      else Gaps(0.0, 0.0)
    else if direction == "RIGHT" then
      if pos.x > cur.x + cur.width then
        Gaps(pos.x - (cur.x + cur.width), Abs(pos.y + pos.height / 2.0 - (cur.y + cur.height / 2.0)))
      else Gaps(0.0, 0.0)
    else Gaps(0.0, 0.0)
  }

  /** `directionScore + 1 / (distance + 1)`: the gap along the axis plus an
      alignment bonus in (0, 1]. */
  function Score(g: Gaps): (s: real)
    requires g.across >= 0.0
    ensures g.along < s <= g.along + 1.0
    ensures g.across == 0.0 ==> s == g.along + 1.0
  {
    g.along + 1.0 / (g.across + 1.0)
  }

  /** The alignment bonus shrinks as the cross-axis offset grows. */
  lemma BonusAntitone(a: real, b: real)
    requires 0.0 <= a <= b
    ensures 1.0 / (b + 1.0) <= 1.0 / (a + 1.0)
    ensures a < b ==> 1.0 / (b + 1.0) < 1.0 / (a + 1.0)
  {
    var p, q := 1.0 / (a + 1.0), 1.0 / (b + 1.0);
    assert p * (a + 1.0) == 1.0;
    assert q * (b + 1.0) == 1.0;
    assert p > 0.0 && q > 0.0;
    assert p - q == p * q * (b - a) by {
      calc {
        p * q * (b - a);
        p * q * ((b + 1.0) - (a + 1.0));
        p * (q * (b + 1.0)) - q * (p * (a + 1.0));
        p - q;
      }
    }
    if a < b {
      assert p * q * (b - a) > 0.0;
    }
  }

  /** A candidate at least as far along and at least as well aligned scores
      at least as high; strictly higher when it is strictly better in either. */
  lemma ScoreMonotone(g1: Gaps, g2: Gaps)
    requires g1.across >= 0.0 && g2.across >= 0.0
    requires g1.along >= g2.along && g1.across <= g2.across
    ensures Score(g1) >= Score(g2)
    ensures g1.along > g2.along || g1.across < g2.across ==> Score(g1) > Score(g2)
  {
    BonusAntitone(g1.across, g2.across);
  }

  /** Being a whole unit further along outweighs any alignment: the bonus
      never exceeds 1. */
  lemma FartherByOneWins(g1: Gaps, g2: Gaps)
    requires g1.across >= 0.0 && g2.across >= 0.0
    requires g1.along >= g2.along + 1.0
    ensures Score(g1) > Score(g2)
  {
  }

  /** Looking UP from `cur` at `pos` measures the same gaps as looking DOWN
      from `pos` at `cur`; likewise LEFT and RIGHT. */
  lemma OppositeDirectionsAgree(cur: Rect, pos: Rect)
    ensures EdgeGaps("UP", cur, pos) == EdgeGaps("DOWN", pos, cur)
    ensures EdgeGaps("LEFT", cur, pos) == EdgeGaps("RIGHT", pos, cur)
  {
  }
}
