/**
 * The game component's world and its per-frame simulation: keyboard input,
 * steering with toroidal wrap, moving and culling asteroids and lasers,
 * topping the asteroid count up, and the collision checks that score hits and
 * raise game-over. Drawing is not part of this model.
 */
module Game {
  import opened Geometry
  import opened Spawner
  import opened Entities
  import opened Collisions

  /** The ship's nominal speed and drawing scale at the start. */
  const SHIP_SPEED: real := 3.0
  const SHIP_SCALE: real := 1.0
  /** Asteroids created at the start, and the count the frame tops up to. */
  const INITIAL_ASTEROIDS: nat := 5
  const MIN_ASTEROIDS: nat := 5
  /** createAsteroid: how far new asteroids stay from the ship, and the band beyond the edges. */
  const SAFE_DISTANCE: real := 100.0
  const SPAWN_BAND: real := 30.0
  /** Asteroids are culled once they are more than this far outside the canvas. */
  const CULL_MARGIN: real := 50.0
  /** Laser speed and drawing scale. */
  const LASER_SPEED: real := 5.0
  const LASER_SCALE: real := 0.5
  /** Radians per frame of turning, and the thrust added per frame. */
  const TURN_STEP: real := 0.1
  const THRUST: real := 0.1
  /** Score awarded per laser hit. */
  const HIT_SCORE: int := 10
  /** The key that fires. */
  const FIRE_KEY: string := " "

  /** The Math.random() values of one initial asteroid: position across and down the canvas, radius, heading. */
  datatype Scatter = Scatter(px: Rand, py: Rand, radius: Rand, heading: Rand)

  /** The Math.random() values of one createAsteroid call: its candidates, then radius and heading. */
  datatype Spawn = Spawn(candidates: seq<EdgeDraw>, radius: Rand, heading: Rand)

  /** keys[key] is truthy: the key's last event was a key-down. */
  predicate Pressed(keys: map<string, bool>, key: string) {
    key in keys && keys[key]
  }

  /** The turn one frame applies: -0.1 for ArrowLeft, then +0.1 for ArrowRight. */
  function Turn(keys: map<string, bool>): real {
    (if Pressed(keys, "ArrowLeft") then -TURN_STEP else 0.0)
    + (if Pressed(keys, "ArrowRight") then TURN_STEP else 0.0)
  }

  /**
   * updateSpaceship on the ship's state: turn, thrust along the new facing
   * angle when ArrowUp is held, move, and wrap the position by JavaScript's
   * remainder. The wrap brings a coordinate into the canvas only when the
   * moved coordinate is at least minus the canvas size.
   */
  function Steered(p: Pose, keys: map<string, bool>, width: real, height: real, m: Numerics): (r: Pose)
    requires width > 0.0 && height > 0.0
    ensures r.angle == p.angle + Turn(keys)
    ensures r.body.radius == p.body.radius && r.body.speed == p.body.speed && r.body.scale == p.body.scale
    ensures !Pressed(keys, "ArrowUp") ==> r.body.dx == p.body.dx && r.body.dy == p.body.dy
    ensures Pressed(keys, "ArrowUp") ==>
              (r.body.dx - p.body.dx, r.body.dy - p.body.dy) == Heading(m, r.angle, THRUST)
  {
    var angle := p.angle + Turn(keys);
    var thrust := if Pressed(keys, "ArrowUp") then (m.cos(angle) * THRUST, m.sin(angle) * THRUST) else (0.0, 0.0);
    var moved := Moved(p.body.(dx := p.body.dx + thrust.0, dy := p.body.dy + thrust.1));
    Pose(moved.(x := Wrap(moved.x, width), y := Wrap(moved.y, height)), angle)
  }

  /**
   * Where the steered ship ends up: one step along its new velocity, then
   * moved by whole canvas sizes. A ship that was on the canvas and moves by
   * less than a canvas size per frame stays on it, and one that does not
   * leave the canvas is not moved by the wrap at all.
   */
  lemma SteeredWraps(p: Pose, keys: map<string, bool>, width: real, height: real, m: Numerics)
    requires width > 0.0 && height > 0.0
    ensures
      var r := Steered(p, keys, width, height, m).body;
      && (p.body.x + r.dx >= -width ==> 0.0 <= r.x < width)
      && (p.body.y + r.dy >= -height ==> 0.0 <= r.y < height)
      && (0.0 <= p.body.x + r.dx < width ==> r.x == p.body.x + r.dx)
      && (0.0 <= p.body.y + r.dy < height ==> r.y == p.body.y + r.dy)
      && WholeMultiple(p.body.x + r.dx - r.x, width)
      && WholeMultiple(p.body.y + r.dy - r.y, height)
  {
    var r := Steered(p, keys, width, height, m).body;
    WrapLands(p.body.x + r.dx, width);
    WrapLands(p.body.y + r.dy, height);
  }

  /** A ship drifting a full canvas width or more to the left per frame stays off-screen after the wrap. */
  lemma WrapMissesFastShip()
    ensures Wrap(-900.0, 800.0) == -100.0
  {
  }

  /**
   * The laser handleKeyUp fires: it starts at the ship's nose, the ship's
   * radius along its facing angle, and travels along that angle at speed 5.
   */
  function FiredLaser(p: Pose, m: Numerics): (l: Body)
    ensures l.radius == 5.0 && l.speed == LASER_SPEED && l.scale == LASER_SCALE
    ensures Pythagorean(m, p.angle) ==>
              SqDist(l.x, l.y, p.body.x, p.body.y) == p.body.radius * p.body.radius
              && HasSpeed(l.dx, l.dy, LASER_SPEED)
    ensures Pythagorean(m, p.angle) ==>
              (l.x - p.body.x) * m.cos(p.angle) + (l.y - p.body.y) * m.sin(p.angle) == p.body.radius
              && l.dx * m.cos(p.angle) + l.dy * m.sin(p.angle) == LASER_SPEED
    ensures (l.x - p.body.x) * m.sin(p.angle) == (l.y - p.body.y) * m.cos(p.angle)
    ensures l.dx * m.sin(p.angle) == l.dy * m.cos(p.angle)
  {
    var nose := Heading(m, p.angle, p.body.radius);
    NewLaser(p.body.x + nose.0, p.body.y + nose.1, p.angle, LASER_SPEED, LASER_SCALE, m)
  }

  /**
   * One of the asteroids created at the start: at a random point of the
   * canvas, with speed 2 and scale 1.
   */
  function Scattered(s: Scatter, width: real, height: real, m: Numerics): (a: Body)
    requires width > 0.0 && height > 0.0
    ensures Inside(a, Box(0.0, width, 0.0, height)) && a.x < width && a.y < height
    ensures 10.0 <= a.radius < 30.0 && a.speed == ASTEROID_SPEED && a.scale == 1.0
  {
    DrawSpans(s.px, width);
    DrawSpans(s.py, height);
    var x, y := s.px * width, s.py * height;
    assert Span(x, width) && Span(y, height);
    NewAsteroid(x, y, ASTEROID_SPEED, 1.0, s.radius, s.heading, m)
  }

  /** The state of the per-frame simulation of the game component. */
  class World {
    const width: real
    const height: real
    const numerics: Numerics
    var ship: Spaceship
    var asteroids: seq<Body>
    var lasers: seq<Body>
    var score: int
    var gameOver: bool
    var keys: map<string, bool>

    ghost predicate Valid()
      reads this
    {
      width > 0.0 && height > 0.0
    }

    /** Asteroids are kept while within 50 pixels of the canvas. */
    function AsteroidBounds(): Box {
      Box(-CULL_MARGIN, width + CULL_MARGIN, -CULL_MARGIN, height + CULL_MARGIN)
    }

    /** Lasers are kept while on the canvas. */
    function LaserBounds(): Box {
      Box(0.0, width, 0.0, height)
    }

    /** Where createAsteroid places asteroids: 30 pixels beyond the canvas edges. */
    function SpawnBand(): SpawnArea {
      SpawnArea(width, height, SPAWN_BAND)
    }

    /** The candidates of `spawn` include one farther than 100 from (px, py). */
    predicate SpawnReady(spawn: Spawn, px: real, py: real) {
      SomeAccepted(spawn.candidates, SpawnBand(), px, py, SAFE_DISTANCE)
    }

    /**
     * The set-up of the game component: the ship at the centre of the canvas,
     * five asteroids at random positions on it, no lasers, score 0.
     */
    constructor (canvasWidth: real, canvasHeight: real, m: Numerics, scatter: seq<Scatter>)
      requires canvasWidth > 0.0 && canvasHeight > 0.0
      requires |scatter| == INITIAL_ASTEROIDS
      ensures Valid() && width == canvasWidth && height == canvasHeight && numerics == m
      ensures fresh(ship)
      ensures ship.State() == Pose(Body(canvasWidth / 2.0, canvasHeight / 2.0, 20.0 * SHIP_SCALE, 0.0, 0.0,
                                        SHIP_SPEED, SHIP_SCALE), -m.pi / 2.0)
      ensures |asteroids| == INITIAL_ASTEROIDS
      ensures forall k :: 0 <= k < |asteroids| ==> asteroids[k] == Scattered(scatter[k], canvasWidth, canvasHeight, m)
      ensures AllInside(asteroids, Box(0.0, canvasWidth, 0.0, canvasHeight))
      ensures lasers == [] && score == 0 && !gameOver && keys == map[]
    {
      width, height, numerics := canvasWidth, canvasHeight, m;
      ship := new Spaceship(canvasWidth / 2.0, canvasHeight / 2.0, SHIP_SPEED, SHIP_SCALE, m);
      var initial: seq<Body> := [];
      for i := 0 to INITIAL_ASTEROIDS
        invariant |initial| == i
        invariant forall k :: 0 <= k < i ==> initial[k] == Scattered(scatter[k], canvasWidth, canvasHeight, m)
        invariant AllInside(initial, Box(0.0, canvasWidth, 0.0, canvasHeight))
      {
        initial := initial + [Scattered(scatter[i], canvasWidth, canvasHeight, m)];
      }
      asteroids := initial;
      lasers := [];
      score := 0;
      gameOver := false;
      keys := map[];
    }

    /** handleKeyDown: records the key as held. */
    method KeyDown(key: string)
      modifies this`keys
      ensures keys == old(keys)[key := true]
    {
      keys := keys[key := true];
    }

    /**
     * handleKeyUp: records the key as released; releasing space appends one
     * laser fired from the ship and touches nothing else.
     */
    method KeyUp(key: string)
      modifies this`keys, this`lasers
      ensures keys == old(keys)[key := false]
      ensures key == FIRE_KEY ==> lasers == old(lasers) + [FiredLaser(ship.State(), numerics)]
      ensures key == FIRE_KEY ==> |lasers| == |old(lasers)| + 1 && lasers[|lasers| - 1].radius == 5.0
      ensures key != FIRE_KEY ==> lasers == old(lasers)
      ensures asteroids == old(asteroids) && score == old(score) && gameOver == old(gameOver)
    {
      keys := keys[key := false];
      if key == FIRE_KEY {
        var laser := FiredLaser(ship.State(), numerics);
        lasers := lasers + [laser];
      }
    }

    /** updateSpaceship: turn, thrust, move and wrap the ship. */
    method UpdateSpaceship()
      requires Valid()
      modifies ship
      ensures ship.State() == Steered(old(ship.State()), keys, width, height, numerics)
    {
      ghost var p := old(ship.State());
      ghost var angle := p.angle + Turn(keys);
      ghost var thrust := if Pressed(keys, "ArrowUp") then (numerics.cos(angle) * THRUST, numerics.sin(angle) * THRUST)
                          else (0.0, 0.0);
      ghost var moved := Moved(p.body.(dx := p.body.dx + thrust.0, dy := p.body.dy + thrust.1));
      assert Steered(p, keys, width, height, numerics)
             == Pose(moved.(x := Wrap(moved.x, width), y := Wrap(moved.y, height)), angle);
      if Pressed(keys, "ArrowLeft") {
        ship.Rotate(-TURN_STEP);
      }
      if Pressed(keys, "ArrowRight") {
        ship.Rotate(TURN_STEP);
      }
      assert ship.State() == p.(angle := angle);
      if Pressed(keys, "ArrowUp") {
        ship.dx := ship.dx + numerics.cos(ship.angle) * THRUST;
        ship.dy := ship.dy + numerics.sin(ship.angle) * THRUST;
      }
      assert ship.State() == Pose(p.body.(dx := p.body.dx + thrust.0, dy := p.body.dy + thrust.1), angle);
      ship.Move();
      assert ship.State() == Pose(moved, angle);
      ship.x := Wrap(ship.x, width);
      ship.y := Wrap(ship.y, height);
      assert ship.State() == Pose(moved.(x := Wrap(moved.x, width), y := Wrap(moved.y, height)), angle);
    }

    /**
     * The first loop of the frame: every asteroid moves one step, from the
     * last to the first, and is spliced out when more than 50 pixels off the
     * canvas.
     */
    method MoveAsteroids()
      requires Valid()
      modifies this`asteroids
      ensures asteroids == MoveAndCull(old(asteroids), AsteroidBounds())
    {
      ghost var start := asteroids;
      var i := |asteroids| - 1;
      assert asteroids[..i + 1] == asteroids;
      while i >= 0
        invariant -1 <= i < |asteroids|
        invariant MoveAndCull(start, AsteroidBounds()) == MoveAndCull(asteroids[..i + 1], AsteroidBounds()) + asteroids[i + 1..]
        decreases i
      {
        MoveAndCullStep(asteroids, i, AsteroidBounds());
        var asteroid := Moved(asteroids[i]);
        asteroids := asteroids[i := asteroid];
        if !Inside(asteroid, AsteroidBounds()) {
          asteroids := Remove(asteroids, i);
        }
        i := i - 1;
      }
    }

    /** The last loop of the frame: the same for lasers, which are kept only while on the canvas. */
    method MoveLasers()
      requires Valid()
      modifies this`lasers
      ensures lasers == MoveAndCull(old(lasers), LaserBounds())
    {
      ghost var start := lasers;
      var i := |lasers| - 1;
      assert lasers[..i + 1] == lasers;
      while i >= 0
        invariant -1 <= i < |lasers|
        invariant MoveAndCull(start, LaserBounds()) == MoveAndCull(lasers[..i + 1], LaserBounds()) + lasers[i + 1..]
        decreases i
      {
        MoveAndCullStep(lasers, i, LaserBounds());
        var laser := Moved(lasers[i]);
        lasers := lasers[i := laser];
        if !Inside(laser, LaserBounds()) {
          lasers := Remove(lasers, i);
        }
        i := i - 1;
      }
    }

    /**
     * createAsteroid: the first candidate farther than 100 from the ship, on
     * a line 30 pixels outside the canvas, becomes a new asteroid of speed 2.
     */
    method CreateAsteroid(spawn: Spawn) returns (a: Body)
      requires Valid()
      requires SpawnReady(spawn, ship.x, ship.y)
      ensures OnEdge(a.x, a.y, SpawnBand())
      ensures Farther(a.x, a.y, ship.x, ship.y, SAFE_DISTANCE)
      ensures 10.0 <= a.radius < 30.0 && a.speed == ASTEROID_SPEED && a.scale == 1.0
      ensures Inside(a, AsteroidBounds())
      ensures a == Spawned(spawn, ship.x, ship.y)
    {
      var x, y := SampleEdge(spawn.candidates, SpawnBand(), ship.x, ship.y, SAFE_DISTANCE);
      a := NewAsteroid(x, y, ASTEROID_SPEED, 1.0, spawn.radius, spawn.heading, numerics);
    }

    /**
     * The asteroid createAsteroid builds from the draws in `spawn` when the
     * ship is at (px, py): new Asteroid(x, y, 2, 1) at the first candidate
     * farther than 100 from the ship. It lies on the 30 px band, has radius
     * in [10, 30), speed 2 and scale 1, and a velocity of magnitude 2.
     */
    function Spawned(spawn: Spawn, px: real, py: real): (a: Body)
      requires SpawnReady(spawn, px, py)
      ensures OnEdge(a.x, a.y, SpawnBand())
      ensures Farther(a.x, a.y, px, py, SAFE_DISTANCE)
      ensures 10.0 <= a.radius < 30.0 && a.speed == ASTEROID_SPEED && a.scale == 1.0
      ensures Pythagorean(numerics, DrawnAngle(numerics, spawn.heading)) ==> HasSpeed(a.dx, a.dy, ASTEROID_SPEED)
    {
      var p := EdgePoint(spawn.candidates[FirstAccepted(spawn.candidates, SpawnBand(), px, py, SAFE_DISTANCE, 0)], SpawnBand());
      NewAsteroid(p.0, p.1, ASTEROID_SPEED, 1.0, spawn.radius, spawn.heading, numerics)
    }

    /**
     * A freshly spawned asteroid cannot strike a ship of radius at most 70
     * centred at (px, py): it is more than 100 away and its radius is below 30.
     */
    lemma SpawnedMissesShip(spawn: Spawn, ship: Body)
      requires SpawnReady(spawn, ship.x, ship.y)
      requires ship.radius <= 70.0
      ensures !Hits(ship, Spawned(spawn, ship.x, ship.y))
    {
      var a := Spawned(spawn, ship.x, ship.y);
      var limit := ship.radius + a.radius;
      if limit > 0.0 {
        SquareBelow(limit, SAFE_DISTANCE);
        assert SqDist(ship.x, ship.y, a.x, a.y) == SqDist(a.x, a.y, ship.x, ship.y);
      }
    }

    /**
     * `r` is `culled` topped up to five asteroids as the refill loop does it:
     * the culled asteroids first, in order, then for each missing one the
     * asteroid `Spawned` from the next draws of `spawns` with the ship at
     * (x, y), which lies inside the culling bounds.
     */
    predicate Refilled(culled: seq<Body>, r: seq<Body>, spawns: seq<Spawn>, x: real, y: real) {
      |r| == (if |culled| < MIN_ASTEROIDS then MIN_ASTEROIDS else |culled|)
      && r[..|culled|] == culled
      && forall k :: |culled| <= k < |r| ==>
           k - |culled| < |spawns| && SpawnReady(spawns[k - |culled|], x, y)
           && r[k] == Spawned(spawns[k - |culled|], x, y)
           && Inside(r[k], AsteroidBounds())
    }

    /** The refill loop of the frame: asteroids are appended until there are five. */
    method Refill(spawns: seq<Spawn>)
      requires Valid()
      requires |asteroids| + |spawns| >= MIN_ASTEROIDS
      requires forall k :: 0 <= k < |spawns| ==> SpawnReady(spawns[k], ship.x, ship.y)
      modifies this`asteroids
      ensures Refilled(old(asteroids), asteroids, spawns, ship.x, ship.y)
    {
      var n := 0;
      while |asteroids| < MIN_ASTEROIDS
        invariant |asteroids| == |old(asteroids)| + n
        invariant n == 0 || |asteroids| <= MIN_ASTEROIDS
        invariant asteroids[..|old(asteroids)|] == old(asteroids)
        invariant n <= |spawns|
        invariant forall k :: |old(asteroids)| <= k < |asteroids| ==>
                    k - |old(asteroids)| < |spawns| && SpawnReady(spawns[k - |old(asteroids)|], ship.x, ship.y)
                    && asteroids[k] == Spawned(spawns[k - |old(asteroids)|], ship.x, ship.y)
                    && Inside(asteroids[k], AsteroidBounds())
        decreases MIN_ASTEROIDS - |asteroids|
      {
        var a := CreateAsteroid(spawns[n]);
        asteroids := asteroids + [a];
        n := n + 1;
      }
    }

    /**
     * The inner loop of the laser/asteroid pass: the asteroids are scanned
     * from the last for one that `l` overlaps; the scan stops at the first.
     */
    method ScanForHit(l: Body) returns (found: Option<nat>)
      ensures found == LastHit(l, asteroids)
    {
      var j := |asteroids| - 1;
      while j >= 0
        invariant -1 <= j < |asteroids|
        invariant forall k :: j < k < |asteroids| ==> !Hits(l, asteroids[k])
        decreases j
      {
        if Hits(l, asteroids[j]) {
          return Some(j);
        }
        j := j - 1;
      }
      return None;
    }

    /**
     * The laser/asteroid pass of checkCollisions: for each laser from the
     * last, scan the asteroids from the last; on the first overlap splice out
     * both, add 10 to the score and go on with the next laser.
     */
    method ResolveLaserHits()
      modifies this`lasers, this`asteroids, this`score
      ensures lasers == LaserPass(old(lasers), old(asteroids)).lasers
      ensures asteroids == LaserPass(old(lasers), old(asteroids)).asteroids
      ensures score == old(score) + HIT_SCORE * LaserPass(old(lasers), old(asteroids)).hits
    {
      ghost var goal := LaserPass(lasers, asteroids);
      ghost var hits: nat := 0;
      var i := |lasers| - 1;
      assert lasers[..i + 1] == lasers;
      while i >= 0
        invariant -1 <= i < |lasers|
        invariant score == old(score) + HIT_SCORE * hits
        invariant goal == Resumed(lasers[..i + 1], lasers[i + 1..], asteroids, hits)
        decreases i
      {
        ghost var before := lasers;
        ResumedStep(before, i, asteroids, hits);
        var found := ScanForHit(lasers[i]);
        if found.Some? {
          lasers := Remove(lasers, i);
          asteroids := Remove(asteroids, found.value);
          score := score + HIT_SCORE;
          hits := hits + 1;
          assert lasers[..i] == before[..i] && lasers[i..] == before[i + 1..];
        }
        i := i - 1;
      }
      assert lasers[..0] == [] && lasers[0..] == lasers;
      assert goal == PassResult(lasers, asteroids, hits);
      assert goal == LaserPass(old(lasers), old(asteroids));
    }

    /**
     * The ship/asteroid pass of checkCollisions: game-over is raised when some
     * asteroid overlaps the ship; it is never cleared, and nothing else changes.
     */
    method DetectShipHit()
      modifies this`gameOver
      ensures gameOver == (old(gameOver) || ShipStruck(ship.State().body, asteroids))
    {
      var i := |asteroids| - 1;
      while i >= 0
        invariant -1 <= i < |asteroids|
        invariant gameOver == (old(gameOver) ||
                               exists k :: i < k < |asteroids| && Hits(ship.State().body, asteroids[k]))
        decreases i
      {
        if Closer(ship.x, ship.y, asteroids[i].x, asteroids[i].y, ship.radius + asteroids[i].radius) {
          gameOver := true;
        }
        i := i - 1;
      }
    }

    /**
     * checkCollisions: the laser/asteroid pass, then the ship/asteroid pass.
     * Surviving lasers and asteroids keep their order, none of them overlap,
     * each hit removes one of each and scores 10.
     */
    method CheckCollisions()
      modifies this`lasers, this`asteroids, this`score, this`gameOver
      ensures lasers == LaserPass(old(lasers), old(asteroids)).lasers
      ensures asteroids == LaserPass(old(lasers), old(asteroids)).asteroids
      ensures IsSubseq(lasers, old(lasers)) && IsSubseq(asteroids, old(asteroids))
      ensures Separated(lasers, asteroids)
      ensures |old(lasers)| - |lasers| == |old(asteroids)| - |asteroids|
      ensures score == old(score) + HIT_SCORE * (|old(lasers)| - |lasers|)
      ensures score == old(score) + HIT_SCORE * LaserPass(old(lasers), old(asteroids)).hits
      ensures gameOver == (old(gameOver) || ShipStruck(ship.State().body, asteroids))
    {
      LaserPassKeepsOrder(lasers, asteroids);
      LaserPassLeavesNoHits(lasers, asteroids);
      ResolveLaserHits();
      DetectShipHit();
    }

    /**
     * One frame of the game loop, drawing left out: steer the ship, move and
     * cull the asteroids, top them up to five, move and cull the lasers, and
     * check collisions. The frame runs whether or not game-over is set.
     */
    method Frame(spawns: seq<Spawn>) returns (ghost refilled: seq<Body>)
      requires Valid()
      requires |spawns| >= MIN_ASTEROIDS
      requires
        var next := Steered(ship.State(), keys, width, height, numerics);
        forall k :: 0 <= k < |spawns| ==> SpawnReady(spawns[k], next.body.x, next.body.y)
      modifies this, ship
      ensures ship.State() == Steered(old(ship.State()), old(keys), width, height, numerics)
      ensures keys == old(keys)
      ensures AllInside(asteroids, AsteroidBounds()) && AllInside(lasers, LaserBounds())
      ensures Separated(lasers, asteroids)
      ensures
        var flown := MoveAndCull(old(lasers), LaserBounds());
        IsSubseq(lasers, flown)
        && score == old(score) + HIT_SCORE * (|flown| - |lasers|)
        && |asteroids| + (|flown| - |lasers|) >= MIN_ASTEROIDS
      ensures gameOver == (old(gameOver) || ShipStruck(ship.State().body, asteroids))
      ensures Refilled(MoveAndCull(old(asteroids), AsteroidBounds()), refilled, spawns, ship.x, ship.y)
      ensures
        var pass := LaserPass(MoveAndCull(old(lasers), LaserBounds()), refilled);
        lasers == pass.lasers && asteroids == pass.asteroids
        && score == old(score) + HIT_SCORE * pass.hits
    {
      Advance(spawns);
      refilled := asteroids;
      ghost var flown := lasers;
      CheckCollisions();
      SubseqInside(asteroids, refilled, AsteroidBounds());
      SubseqInside(lasers, flown, LaserBounds());
    }

    /**
     * The part of the frame before checkCollisions: steer the ship, move and
     * cull the asteroids, top them up to five, move and cull the lasers.
     */
    method Advance(spawns: seq<Spawn>)
      requires Valid()
      requires |spawns| >= MIN_ASTEROIDS
      requires
        var next := Steered(ship.State(), keys, width, height, numerics);
        forall k :: 0 <= k < |spawns| ==> SpawnReady(spawns[k], next.body.x, next.body.y)
      modifies this`asteroids, this`lasers, ship
      ensures ship.State() == Steered(old(ship.State()), keys, width, height, numerics)
      ensures Refilled(MoveAndCull(old(asteroids), AsteroidBounds()), asteroids, spawns, ship.x, ship.y)
      ensures lasers == MoveAndCull(old(lasers), LaserBounds())
      ensures AllInside(asteroids, AsteroidBounds()) && AllInside(lasers, LaserBounds())
    {
      UpdateSpaceship();
      MoveAsteroids();
      Refill(spawns);
      assert AllInside(asteroids, AsteroidBounds());
      MoveLasers();
    }
  }
}
