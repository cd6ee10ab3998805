/**
 * The entity factory of the game's utility module: game objects, spaceships,
 * targets and lasers as plain records built and updated by copying, and the
 * spawner that places a new target of a random kind and scale off-screen.
 */
module GameUtils {
  import opened Geometry
  import opened Spawner

  /** Position, velocity, collision radius and nominal speed. */
  datatype GameObject = GameObject(x: real, y: real, radius: real, dx: real, dy: real, speed: real)

  /** The player's ship: a game object with a facing angle (radians) and a drawing scale. */
  datatype Spaceship = Spaceship(obj: GameObject, angle: real, scale: real)

  /** The two kinds of target. */
  datatype TargetKind = Asteroid | Ufo

  /** A target: a game object with a drawing scale and its kind. */
  datatype Target = Target(obj: GameObject, scale: real, kind: TargetKind)

  /** A laser is a bare game object. */
  type Laser = GameObject

  /** The band beyond the canvas edges where createNewTarget places targets. */
  const TARGET_BAND: real := 50.0

  /** The speed every target from createNewTarget is given. */
  const TARGET_SPEED: real := 2.0

  /** A new game object at rest at (x, y). */
  function CreateGameObject(x: real, y: real, radius: real, speed: real): (r: GameObject)
    ensures r.x == x && r.y == y && r.radius == radius && r.speed == speed
    ensures r.dx == 0.0 && r.dy == 0.0
    ensures MoveGameObject(r) == r
  {
    GameObject(x, y, radius, 0.0, 0.0, speed)
  }

  /** One step of motion: the position advances by the velocity, nothing else changes. */
  function MoveGameObject(obj: GameObject): (r: GameObject)
    ensures r.(x := obj.x, y := obj.y) == obj
    ensures r.x - obj.x == obj.dx && r.y - obj.y == obj.dy
  {
    obj.(x := obj.x + obj.dx, y := obj.y + obj.dy)
  }

  /** n steps of motion, one after the other. */
  function MoveTimes(obj: GameObject, n: nat): GameObject {
    if n == 0 then obj else MoveGameObject(MoveTimes(obj, n - 1))
  }

  /** After n steps an object has travelled n times its velocity, and only its position changed. */
  lemma {:induction false} MoveTimesTravels(obj: GameObject, n: nat)
    ensures MoveTimes(obj, n) == obj.(x := obj.x + (n as real) * obj.dx, y := obj.y + (n as real) * obj.dy)
  {
    if n > 0 {
      MoveTimesTravels(obj, n - 1);
      assert ((n - 1) as real) * obj.dx + obj.dx == (n as real) * obj.dx;
      assert ((n - 1) as real) * obj.dy + obj.dy == (n as real) * obj.dy;
    }
  }

  /** A ship at (x, y) facing up (angle -pi/2), at rest, with radius 30 times its scale. */
  function CreateSpaceship(x: real, y: real, speed: real, scale: real, m: Numerics): (r: Spaceship)
    ensures r.obj.x == x && r.obj.y == y && r.obj.speed == speed
    ensures r.obj.radius == 30.0 * scale && r.scale == scale
    ensures r.obj.dx == 0.0 && r.obj.dy == 0.0
    ensures r.angle == -m.pi / 2.0
  {
    Spaceship(CreateGameObject(x, y, 30.0 * scale, speed), -m.pi / 2.0, scale)
  }

  /** Turns the ship by `angle`; nothing but the facing angle changes. */
  function RotateSpaceship(spaceship: Spaceship, angle: real): (r: Spaceship)
    ensures r.(angle := spaceship.angle) == spaceship
    ensures r.angle - spaceship.angle == angle
  {
    spaceship.(angle := spaceship.angle + angle)
  }

  /** Two turns make one turn by their sum, and a turn is undone by its opposite. */
  lemma RotationsCompose(s: Spaceship, a: real, b: real)
    ensures RotateSpaceship(RotateSpaceship(s, a), b) == RotateSpaceship(s, a + b)
    ensures RotateSpaceship(RotateSpaceship(s, a), -a) == s
  {
  }

  /**
   * A target of the given kind at (x, y), heading in the direction drawn by
   * `angleDraw` at `speed`. An asteroid's radius is drawn from [20, 50); a UFO's
   * is 25. `radiusDraw` is consumed only for an asteroid.
   */
  function CreateTarget(x: real, y: real, speed: real, scale: real, kind: TargetKind,
                        radiusDraw: Rand, angleDraw: Rand, m: Numerics): (r: Target)
    ensures r.kind == kind && r.scale == scale
    ensures r.obj.x == x && r.obj.y == y && r.obj.speed == speed
    ensures kind == Ufo ==> r.obj.radius == 25.0
    ensures kind == Asteroid ==> 20.0 <= r.obj.radius < 50.0
    ensures Pythagorean(m, DrawnAngle(m, angleDraw)) ==>
              HasSpeed(r.obj.dx, r.obj.dy, speed)
  {
    var radius := if kind == Asteroid then radiusDraw * 30.0 + 20.0 else 25.0;
    var v := Heading(m, DrawnAngle(m, angleDraw), speed);
    Target(CreateGameObject(x, y, radius, speed).(dx := v.0, dy := v.1), scale, kind)
  }

  /** A laser of radius 3 at (x, y), travelling along `angle` at `speed`. */
  function CreateLaser(x: real, y: real, angle: real, speed: real, m: Numerics): (r: Laser)
    ensures r.x == x && r.y == y && r.radius == 3.0 && r.speed == speed
    ensures Pythagorean(m, angle) ==> HasSpeed(r.dx, r.dy, speed)
    ensures Pythagorean(m, angle) ==> r.dx * m.cos(angle) + r.dy * m.sin(angle) == speed
    ensures r.dx * m.sin(angle) == r.dy * m.cos(angle)
  {
    var v := Heading(m, angle, speed);
    CreateGameObject(x, y, 3.0, speed).(dx := v.0, dy := v.1)
  }

  /**
   * A new target placed by rejection sampling on a line 50 pixels outside the
   * canvas, farther than `safeDistance` from the ship, with speed 2; a fair
   * coin picks its kind and another its base scale (1 or 1.5, times 1.25 for
   * a UFO).
   */
  method CreateNewTarget(canvasWidth: real, canvasHeight: real, safeDistance: real,
                         spaceshipX: real, spaceshipY: real, draws: seq<EdgeDraw>,
                         scaleDraw: Rand, kindDraw: Rand, radiusDraw: Rand, angleDraw: Rand,
                         m: Numerics)
    returns (t: Target)
    requires SomeAccepted(draws, SpawnArea(canvasWidth, canvasHeight, TARGET_BAND),
                          spaceshipX, spaceshipY, safeDistance)
    ensures OnEdge(t.obj.x, t.obj.y, SpawnArea(canvasWidth, canvasHeight, TARGET_BAND))
    ensures Farther(t.obj.x, t.obj.y, spaceshipX, spaceshipY, safeDistance)
    ensures var area := SpawnArea(canvasWidth, canvasHeight, TARGET_BAND);
            (t.obj.x, t.obj.y) == EdgePoint(draws[FirstAccepted(draws, area, spaceshipX, spaceshipY, safeDistance, 0)], area)
    ensures t.obj.speed == TARGET_SPEED
    ensures Pythagorean(m, DrawnAngle(m, angleDraw)) ==>
              HasSpeed(t.obj.dx, t.obj.dy, TARGET_SPEED)
    ensures t.kind == (if kindDraw < 0.5 then Asteroid else Ufo)
    ensures t.kind == Asteroid ==> t.scale in {1.0, 1.5} && 20.0 <= t.obj.radius < 50.0
    ensures t.kind == Ufo ==> t.scale in {1.25, 1.875} && t.obj.radius == 25.0
  {
    var x, y := SampleEdge(draws, SpawnArea(canvasWidth, canvasHeight, TARGET_BAND),
                           spaceshipX, spaceshipY, safeDistance);
    var scale := if scaleDraw < 0.5 then 1.5 else 1.0;
    var kind := if kindDraw < 0.5 then Asteroid else Ufo;
    var targetScale := if kind == Ufo then scale * 1.25 else scale;
    t := CreateTarget(x, y, TARGET_SPEED, targetScale, kind, radiusDraw, angleDraw, m);
  }
}
