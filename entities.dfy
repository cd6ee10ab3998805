/**
 * The game component's entity classes: GameObject with its move step, the
 * Spaceship that turns, and the Asteroid and Laser constructors. Asteroids and
 * lasers are held by the world as values (each object is referenced only from
 * its array), the ship as an object whose fields its methods update.
 */
module Entities {
  import opened Geometry

  /**
   * A game object with its drawing scale: position, velocity, collision
   * radius and nominal speed.
   */
  datatype Body = Body(x: real, y: real, radius: real, dx: real, dy: real, speed: real, scale: real)

  /** The ship's full state: its body and its facing angle in radians. */
  datatype Pose = Pose(body: Body, angle: real)

  /** The speed every asteroid is created with. */
  const ASTEROID_SPEED: real := 2.0

  /** GameObject.move: the position advances by the velocity. */
  function Moved(b: Body): Body {
    b.(x := b.x + b.dx, y := b.y + b.dy)
  }

  /** A move changes the position by exactly the velocity and changes nothing else. */
  lemma MovedShifts(b: Body)
    ensures Moved(b).(x := b.x, y := b.y) == b
    ensures Moved(b).x - b.x == b.dx && Moved(b).y - b.y == b.dy
  {
  }

  /**
   * new Asteroid(x, y, speed, scale): radius Math.random() * 20 + 10, so in
   * [10, 30), and a heading drawn uniformly from [0, 2 pi).
   */
  function NewAsteroid(x: real, y: real, speed: real, scale: real,
                       radiusDraw: Rand, angleDraw: Rand, m: Numerics): (a: Body)
    ensures a.x == x && a.y == y && a.speed == speed && a.scale == scale
    ensures 10.0 <= a.radius < 30.0
    ensures Pythagorean(m, DrawnAngle(m, angleDraw)) ==> HasSpeed(a.dx, a.dy, speed)
  {
    var v := Heading(m, DrawnAngle(m, angleDraw), speed);
    Body(x, y, radiusDraw * 20.0 + 10.0, v.0, v.1, speed, scale)
  }

  /** new Laser(x, y, angle, speed, scale): radius 5, travelling along `angle`. */
  function NewLaser(x: real, y: real, angle: real, speed: real, scale: real, m: Numerics): (l: Body)
    ensures l.x == x && l.y == y && l.speed == speed && l.scale == scale
    ensures l.radius == 5.0
    ensures Pythagorean(m, angle) ==> HasSpeed(l.dx, l.dy, speed)
    ensures Pythagorean(m, angle) ==> l.dx * m.cos(angle) + l.dy * m.sin(angle) == speed
    ensures l.dx * m.sin(angle) == l.dy * m.cos(angle)
  {
    var v := Heading(m, angle, speed);
    Body(x, y, 5.0, v.0, v.1, speed, scale)
  }

  /** The player's ship, updated in place by Move and Rotate. */
  class Spaceship {
    var x: real
    var y: real
    var radius: real
    var dx: real
    var dy: real
    var speed: real
    var angle: real
    var scale: real

    /** The ship's fields as a value. */
    function State(): Pose
      reads this
    {
      Pose(Body(x, y, radius, dx, dy, speed, scale), angle)
    }

    /** new Spaceship(x, y, speed, scale): radius 20 times the scale, at rest, facing up. */
    constructor (x0: real, y0: real, speed0: real, scale0: real, m: Numerics)
      ensures State() == Pose(Body(x0, y0, 20.0 * scale0, 0.0, 0.0, speed0, scale0), -m.pi / 2.0)
    {
      x, y := x0, y0;
      radius := 20.0 * scale0;
      dx, dy := 0.0, 0.0;
      speed := speed0;
      angle := -m.pi / 2.0;
      scale := scale0;
    }

    /** GameObject.move on the ship: only the position changes. */
    method Move()
      modifies this
      ensures State() == Pose(Moved(old(State()).body), old(angle))
    {
      x := x + dx;
      y := y + dy;
    }

    /** Turns the ship by `a` radians; only the facing angle changes. */
    method Rotate(a: real)
      modifies this`angle
      ensures State() == old(State()).(angle := old(angle) + a)
    {
      angle := angle + a;
    }
  }
}
