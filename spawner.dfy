/**
 * Placement of a new target off-screen, shared by the game component's
 * createAsteroid and the utility createNewTarget: a candidate is drawn on a
 * line `band` pixels beyond a randomly chosen canvas edge, and candidates are
 * drawn until one lies farther than a safe distance from the ship.
 */
module Spawner {
  import opened Geometry

  /** The two Math.random() values one candidate consumes: the edge, then the position along it. */
  datatype EdgeDraw = EdgeDraw(side: Rand, along: Rand)

  /** The canvas size and the width of the band beyond its edges where targets appear. */
  datatype SpawnArea = SpawnArea(width: real, height: real, band: real)

  /** Math.floor(Math.random() * 4): 0 top, 1 right, 2 bottom, 3 left. */
  function Side(d: EdgeDraw): (s: int)
    ensures 0 <= s < 4
  {
    (d.side * 4.0).Floor
  }

  /** v is a value Math.random() * len can take: in [0, len) for a positive len. */
  predicate Span(v: real, len: real) {
    if len > 0.0 then 0.0 <= v < len else len < v <= 0.0 || v == 0.0
  }

  lemma DrawSpans(u: Rand, len: real)
    ensures Span(u * len, len)
  {
    if len > 0.0 {
      LengthsMonotone(0.0, u, len);
      LengthsMonotone(u, 1.0, len);
    } else if len < 0.0 {
      LengthsMonotone(0.0, u, -len);
      LengthsMonotone(u, 1.0, -len);
    }
  }

  /**
   * (x, y) lies on one of the four lines `band` pixels outside the canvas,
   * y == -band, x == width + band, y == height + band or x == -band, with the
   * other coordinate within the canvas span.
   */
  predicate OnEdge(x: real, y: real, area: SpawnArea) {
    || (y == -area.band && Span(x, area.width))
    || (x == area.width + area.band && Span(y, area.height))
    || (y == area.height + area.band && Span(x, area.width))
    || (x == -area.band && Span(y, area.height))
  }

  /** The candidate position one draw produces (the switch on the side). */
  function EdgePoint(d: EdgeDraw, area: SpawnArea): (p: (real, real))
    ensures OnEdge(p.0, p.1, area)
  {
    DrawSpans(d.along, area.width);
    DrawSpans(d.along, area.height);
    var side := Side(d);
    if side == 0 then (d.along * area.width, -area.band)
    else if side == 1 then (area.width + area.band, d.along * area.height)
    else if side == 2 then (d.along * area.width, area.height + area.band)
    else (-area.band, d.along * area.height)
  }

  /** The acceptance test: the candidate is farther than `safe` from the ship at (px, py). */
  predicate Accepted(d: EdgeDraw, area: SpawnArea, px: real, py: real, safe: real) {
    var p := EdgePoint(d, area);
    Farther(p.0, p.1, px, py, safe)
  }

  /** Some candidate among `draws` passes the acceptance test. */
  predicate SomeAccepted(draws: seq<EdgeDraw>, area: SpawnArea, px: real, py: real, safe: real) {
    exists k :: 0 <= k < |draws| && Accepted(draws[k], area, px, py, safe)
  }

  /**
   * The index of the first candidate at or after `from` that passes the
   * acceptance test: it passes, and every candidate before it from `from` on
   * fails.
   */
  function FirstAccepted(draws: seq<EdgeDraw>, area: SpawnArea, px: real, py: real, safe: real, from: nat): (k: nat)
    requires exists k :: from <= k < |draws| && Accepted(draws[k], area, px, py, safe)
    ensures from <= k < |draws| && Accepted(draws[k], area, px, py, safe)
    ensures forall j :: from <= j < k ==> !Accepted(draws[j], area, px, py, safe)
    decreases |draws| - from
  {
    if Accepted(draws[from], area, px, py, safe) then from
    else FirstAccepted(draws, area, px, py, safe, from + 1)
  }

  /**
   * The rejection loop: draws candidates in order until one is accepted and
   * returns its position. The source keeps calling Math.random() until then;
   * here the caller supplies the candidates, among which one must pass.
   */
  method SampleEdge(draws: seq<EdgeDraw>, area: SpawnArea, px: real, py: real, safe: real)
    returns (x: real, y: real)
    requires SomeAccepted(draws, area, px, py, safe)
    ensures OnEdge(x, y, area)
    ensures Farther(x, y, px, py, safe)
    ensures exists k :: 0 <= k < |draws| && (x, y) == EdgePoint(draws[k], area)
                        && forall j :: 0 <= j < k ==> !Accepted(draws[j], area, px, py, safe)
    ensures (x, y) == EdgePoint(draws[FirstAccepted(draws, area, px, py, safe, 0)], area)
  {
    x, y := 0.0, 0.0;
    var isValidPosition := false;
    var n := 0;
    while !isValidPosition
      invariant 0 <= n <= |draws|
      invariant !isValidPosition ==> n < |draws|
      invariant !isValidPosition ==> forall j :: 0 <= j < n ==> !Accepted(draws[j], area, px, py, safe)
      invariant isValidPosition ==> 0 < n && (x, y) == EdgePoint(draws[n - 1], area)
      invariant isValidPosition ==> Farther(x, y, px, py, safe)
      invariant isValidPosition ==> forall j :: 0 <= j < n - 1 ==> !Accepted(draws[j], area, px, py, safe)
      decreases |draws| - n, !isValidPosition
    {
      var p := EdgePoint(draws[n], area);
      x, y := p.0, p.1;
      if Farther(x, y, px, py, safe) {
        isValidPosition := true;
      }
      n := n + 1;
    }
  }
}
