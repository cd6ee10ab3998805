# Space Defender: the per-frame simulation, modelled in Dafny

Space Defender is a browser arcade shooter. The player steers a ship that
turns, thrusts and wraps around the canvas edges, and fires lasers with the
space bar. Asteroids drift in from outside the canvas. A laser that touches
an asteroid destroys both and scores 10. An asteroid that touches the ship
sets game-over.

This project models the simulation core of the game without drawing, audio
or React:

- the game component in `app/page.tsx`:
  - the `GameObject`, `Spaceship`, `Asteroid` and `Laser` classes;
  - the key handlers;
  - `updateSpaceship`, `createAsteroid` and `checkCollisions`;
  - the move/cull/refill loops of `gameLoop`;
- the record factory and second spawner in `app/utils/gameUtils.ts`.

Modules:

- `Geometry` (geometry.dfy): the values the host supplies, and the helpers.
  - `Rand` is a value of `Math.random()`.
  - `Numerics` holds `Math.PI`, `Math.cos` and `Math.sin`.
  - Circle-distance tests without square roots: `Closer` is `Math.hypot(..) < r` and `Farther` is `Math.hypot(..) > r`.
  - JavaScript's `%` on numbers (`JsRem`), which truncates toward zero, and the ship's toroidal `Wrap`.
- `Spawner` (spawner.dfy): the rejection sampler that places new targets just outside a canvas edge.
  - It is shared by `createAsteroid` (30 px band) and `createNewTarget` (50 px band).
- `GameUtils` (game_utils.dfy): the pure record constructors of `gameUtils.ts` as functions over datatypes, plus `createNewTarget` as a method with its loop.
- `Entities` (entities.dfy): the classes of `page.tsx`.
  - The ship is a `class` whose `Move` and `Rotate` update its fields.
  - An asteroid or a laser is a `Body` value held in the world's sequences.
- `Collisions` (collisions.dfy): what one frame does to the asteroid and laser arrays, as functions on sequences, with lemmas about them.
  - `MoveAndCull` moves every object and drops the ones outside a box.
  - `LaserPass` is the laser/asteroid pass of `checkCollisions`.
  - `ShipStruck` is the ship/asteroid test.
- `Game` (game.dfy): the `World` class.
  - It holds the component's state: canvas size, ship, `asteroids`, `lasers`, score, game-over flag and held keys.
  - Its methods carry the source's loops.
    - `MoveAsteroids`, `MoveLasers`, `ScanForHit` and `ResolveLaserHits` are each proved equal to the matching function of `Collisions` (`MoveAndCull`, `LastHit`, `LaserPass`).
    - `UpdateSpaceship` is proved equal to `Game.Steered`.
    - `Refill` is proved to satisfy the predicate `Refilled`. The predicate fixes the count and the kept prefix. It also makes each appended asteroid exactly `Spawned` of the next `Spawn` draws, the asteroid `createAsteroid` builds from them.
    - `CheckCollisions` and `Frame` compose these results.

Random draws and trigonometry are parameters.

- Each `Math.random()` call is a `Rand` supplied by the caller, in the order the source draws them.
  - `EdgeDraw` is one rejection candidate.
  - `Scatter` holds the draws for one initial asteroid.
  - `Spawn` holds the draws for one `createAsteroid` call.
- `Numerics` supplies pi, cos and sin. Where a contract needs cos² + sin² = 1, it assumes it through `Pythagorean` as a hypothesis.

## Model

| member | source | states |
|---|---|---|
| Geometry.CloserIsDistanceBelow | app/page.tsx:223-227 | the square-free `Closer` test holds exactly when the true distance is below the limit, for every limit |
| Geometry.FartherIsDistanceAbove | app/page.tsx:206-210 | the square-free `Farther` test holds exactly when the true distance exceeds the limit, for every limit |
| Geometry.HeadingKeepsSpeed | app/page.tsx:68-70 | a velocity (cos a · s, sin a · s) has squared magnitude s² whenever cos² + sin² = 1 |
| Geometry.Heading | app/page.tsx:86-87 | the vector (cos a · s, sin a · s) has no component across the unit vector (cos a, sin a); when cos² + sin² = 1 its component along it is s and its squared magnitude is s² |
| Geometry.JsRem | app/page.tsx:174-175 | JavaScript's `%`: the result has the sign of the dividend, its magnitude is below the divisor, and it differs from the dividend by a whole multiple of the divisor |
| Geometry.WrapLands | app/page.tsx:174-175 | `(v + len) % len` lands in [0, len) when v ≥ -len; it leaves v alone when v is already in [0, len); it adds len when v is in [-len, 0); it always moves v by whole multiples of len |
| Spawner.Side | app/page.tsx:185 | `Math.floor(Math.random() * 4)` is one of the four sides 0..3 |
| Spawner.DrawSpans | app/page.tsx:188 | `Math.random() * len` lies in [0, len) for a positive length |
| Spawner.EdgePoint | app/page.tsx:185-203 | every candidate the side switch produces lies on one of the four lines `band` outside the canvas, with its other coordinate inside the canvas span |
| Spawner.FirstAccepted | app/page.tsx:184-213 | the index of the first candidate that passes the distance test: that candidate passes and every earlier one fails |
| Spawner.SampleEdge | app/page.tsx:184-213 | the rejection loop returns a point on an edge line, farther than the safe distance from the ship; it is exactly the position of the `FirstAccepted` candidate, every earlier one having been rejected |
| GameUtils.CreateGameObject | app/utils/gameUtils.ts:24-36 | the given position, radius and speed, with zero velocity; a move leaves the object where it is |
| GameUtils.MoveGameObject | app/utils/gameUtils.ts:38-42 | the result differs from the input only in x and y, which change by exactly dx and dy |
| GameUtils.MoveTimesTravels | app/utils/gameUtils.ts:38-42 | n moves put an object at x + n·dx, y + n·dy, with everything else unchanged |
| GameUtils.CreateSpaceship | app/utils/gameUtils.ts:44-53 | radius 30 × scale, angle -π/2, zero velocity, at the given position and speed |
| GameUtils.RotateSpaceship | app/utils/gameUtils.ts:55-61 | the result differs from the ship only in its angle, which grows by exactly the argument |
| GameUtils.RotationsCompose | app/utils/gameUtils.ts:55-61 | two turns equal one turn by their sum, and a turn is undone by its opposite |
| GameUtils.CreateTarget | app/utils/gameUtils.ts:63-79 | kind and scale are kept; a UFO has radius 25 and an asteroid a radius in [20, 50); the speed is spread over the heading with magnitude `speed` |
| GameUtils.CreateLaser | app/utils/gameUtils.ts:81-90 | radius 3, position and speed kept; when cos² + sin² = 1 the velocity has magnitude `speed` and its component along the unit vector of `angle` is `speed`; its component across that vector is 0 for any cos and sin |
| GameUtils.CreateNewTarget | app/utils/gameUtils.ts:92-134 | the target lies on a line 50 px outside the canvas, farther than `safeDistance` from the ship, with speed 2 and a velocity of magnitude 2; its position is that of the first accepted candidate; its kind follows the coin; an asteroid's scale is 1 or 1.5 with radius in [20, 50); a UFO's scale is 1.25 or 1.875 with radius 25 |
| Entities.MovedShifts | app/page.tsx:42-45 | a move changes x and y by exactly dx and dy and nothing else |
| Entities.NewAsteroid | app/page.tsx:63-73 | radius in [10, 30); position, speed and scale as given; velocity of magnitude `speed` |
| Entities.NewLaser | app/page.tsx:75-90 | radius 5; position, speed and scale as given; when cos² + sin² = 1 the velocity has magnitude `speed` and its component along the unit vector of `angle` is `speed`; its component across that vector is 0 for any cos and sin |
| Entities.Spaceship.constructor | app/page.tsx:52-56 | radius 20 × scale, at rest, angle -π/2, at the given position and speed |
| Entities.Spaceship.Move | app/page.tsx:42-45 | the ship's new state is its old body moved by its velocity; the angle is unchanged |
| Entities.Spaceship.Rotate | app/page.tsx:58-60 | only the angle changes, by exactly the argument |
| Collisions.Remove | app/page.tsx:230-231 | `splice(j, 1)`: one element shorter; the elements before j are kept and the later ones shift down by one |
| Collisions.SubseqRemove | app/page.tsx:230-231 | splicing out one element leaves an order-preserving subsequence |
| Collisions.MoveAndCull | app/page.tsx:276-296 | the survivors are never more than the input, and every survivor lies inside the box |
| Collisions.MoveAndCullMembers | app/page.tsx:276-296 | an object survives exactly when it is the moved version of some input object that lies inside the box |
| Collisions.MoveAndCullKeepsOrder | app/page.tsx:276-296 | the survivors are a subsequence of the moved objects, in their original order |
| Collisions.MoveAndCullIsFilter | app/page.tsx:276-296 | moving then culling is the same as keeping, in order, exactly the moved objects that lie inside the box |
| Collisions.FilterCounts | app/page.tsx:288-295 | the cull keeps every object inside the box as often as it occurs, and no copy of an object outside it |
| Collisions.MoveAndCullStep | app/page.tsx:276-296 | one run of the reverse loop body (move in place, splice if outside) leaves the eventual outcome unchanged |
| Collisions.LastHit | app/page.tsx:221-236 | the result is the highest index of an asteroid that the laser overlaps, with no overlap above it; None means the laser overlaps no asteroid |
| Collisions.LaserPass | app/page.tsx:220-237 | each hit removes exactly one laser and one asteroid: lasers and asteroids each shrink by the hit count |
| Collisions.ResumedStep | app/page.tsx:220-237 | one iteration of the outer loop, with or without a hit, leaves the eventual outcome unchanged |
| Collisions.LaserPassKeepsOrder | app/page.tsx:220-237 | the surviving lasers and asteroids are order-preserving subsequences of the originals |
| Collisions.LaserPassLeavesNoHits | app/page.tsx:220-237 | after the pass, no surviving laser overlaps any surviving asteroid |
| Collisions.LaserPassKeepsSeparated | app/page.tsx:220-237 | when no laser overlaps any asteroid, the pass removes nothing and scores nothing |
| Collisions.LaserPassIdempotent | app/page.tsx:220-237 | a second pass over what the first left changes nothing and scores nothing |
| Collisions.HitPairs | app/page.tsx:220-237 | the (laser, asteroid) pairs the pass removes, in order; the laser of every pair overlaps its asteroid |
| Collisions.LaserPassAccounts | app/page.tsx:220-237 | there is one pair per hit, and every laser and asteroid, counted with its multiplicity, either survives the pass or belongs to exactly one removed pair |
| Collisions.LaserPassSpares | app/page.tsx:220-237 | only overlapping pairs are removed: a laser that overlaps no asteroid keeps all its copies, and so does an asteroid that no laser overlaps |
| Collisions.SubseqInside | app/page.tsx:288-295 | deleting objects from a sequence that lies inside a box keeps the rest inside it |
| Game.Steered | app/page.tsx:160-176 | the angle changes by exactly the turn the held arrow keys ask for; radius, speed and scale are kept; without ArrowUp the velocity is kept; with ArrowUp the velocity gains exactly `Heading` of the new angle at 0.1, a push of size 0.1 along the new facing |
| Game.SteeredWraps | app/page.tsx:171-175 | after the wrap, each coordinate is in [0, W) or [0, H) when its pre-wrap value is at least -W or -H; a ship that stays on the canvas is not moved by the wrap; the wrap moves only by whole canvas sizes |
| Game.WrapMissesFastShip | app/page.tsx:174 | a pre-wrap x of -900 on an 800-wide canvas wraps to -100, still off-screen |
| Game.FiredLaser | app/page.tsx:143-152 | the laser has radius 5, speed 5 and scale 0.5; its offset from the ship's centre is parallel to the ship's facing; when cos² + sin² = 1 that offset is exactly the ship's radius forward (the nose), and the velocity has magnitude 5 pointing forward along the facing |
| Game.Scattered | app/page.tsx:113-122 | an initial asteroid lies on the canvas, with radius in [10, 30), speed 2 and scale 1 |
| Game.World.constructor | app/page.tsx:105-122 | the ship is at the canvas centre (radius 20, speed 3, facing up, at rest); there are exactly five asteroids, all on the canvas, built from the draws in order; there are no lasers, the score is 0, game-over is off and no key is held |
| Game.World.KeyDown | app/page.tsx:135-137 | the key is recorded as held and nothing else changes |
| Game.World.KeyUp | app/page.tsx:139-155 | the key is recorded as released; releasing space appends exactly one laser, of radius 5, from the ship's nose, and keeps the earlier lasers; any other key leaves the lasers alone; asteroids, score and game-over are untouched |
| Game.World.UpdateSpaceship | app/page.tsx:160-176 | the ship's new state is `Steered` of its old state, so the properties of `Steered` and `SteeredWraps` hold for it |
| Game.World.MoveAsteroids | app/page.tsx:276-296 | the reverse loop leaves exactly `MoveAndCull` of the old asteroids, with a box 50 px beyond the canvas |
| Game.World.MoveLasers | app/page.tsx:304-324 | the reverse loop leaves exactly `MoveAndCull` of the old lasers, with the canvas as the box |
| Game.World.Spawned | app/page.tsx:178-216 | the asteroid built at the first accepted candidate of the draws: on a line 30 px outside the canvas, farther than 100 from the ship, with radius in [10, 30), speed 2, scale 1 and a velocity of magnitude 2 |
| Game.World.SpawnedMissesShip | app/page.tsx:178-216 | an asteroid spawned this way never overlaps a ship of radius up to 70 at the position it was placed against |
| Game.World.CreateAsteroid | app/page.tsx:178-216 | the new asteroid is exactly `Spawned` of the draws against the ship's position; it lies on a line 30 px outside the canvas, farther than 100 from the ship, inside the cull box, with radius in [10, 30), speed 2 and scale 1 |
| Game.World.Refill | app/page.tsx:298-301 | `Refilled`: the asteroid count becomes max(count, 5); the old asteroids are kept as a prefix; the i-th appended one is exactly `Spawned` of the i-th `Spawn` against the ship's position, and lies inside the cull box |
| Game.World.ScanForHit | app/page.tsx:221-236 | the inner scan finds exactly `LastHit` of the laser against the current asteroids |
| Game.World.ResolveLaserHits | app/page.tsx:218-237 | the double loop leaves exactly `LaserPass`'s lasers and asteroids, and raises the score by 10 per hit |
| Game.World.DetectShipHit | app/page.tsx:239-251 | game-over becomes true exactly when it already was or some asteroid overlaps the ship; nothing else changes |
| Game.World.CheckCollisions | app/page.tsx:218-252 | the lasers and asteroids left are exactly those of `LaserPass`, and the score grows by 10 per `LaserPass` hit; survivors keep their order and none overlap; lasers and asteroids shrink by the same count k; the score grows by 10·k; game-over is set exactly when an asteroid overlaps the ship |
| Game.World.Advance | app/page.tsx:260-324 | the part of the frame before `checkCollisions`: the ship is `Steered`, the asteroids are `MoveAndCull` of the old ones topped up as `Refilled` says (the i-th new one is `Spawned` of the i-th draws), the lasers are exactly `MoveAndCull` of the old ones, and both lie inside their cull boxes |
| Game.World.Frame | app/page.tsx:254-329 | one frame: the ship is `Steered`; the returned ghost `refilled` is the moved-and-culled asteroids followed by the i-th new one being `Spawned` of the i-th draws against the steered ship, as `Refilled` says; the lasers and asteroids left are exactly `LaserPass` of the moved-and-culled lasers against `refilled`, and the score grows by 10 per hit of that pass; every asteroid lies within 50 px of the canvas and every laser on it; no laser overlaps an asteroid; the surviving lasers are a subsequence of the moved ones; the score grows by 10 per laser lost to a hit; after the refill there are at least five asteroids, fewer only by the hits; game-over is raised exactly on a ship collision and never cleared |

## Left out

- Drawing is not modelled: the canvas calls, image pre-loading, `btoa`, and the `Promise.all` that starts the loop. They render or do asynchronous I/O and do not affect the simulation state.
- React state and hooks are not modelled: `useState`, `useEffect`, `setScore`, `setGameOver`, and listener registration and removal. The score is the model's `score` field, which `scoreRef.current` mirrors.
- `useGameLoop` and `useKeyboardControls` in app/utils/gameUtils.ts are not modelled. They are framework scheduling and event plumbing with no simulation logic.
- Audio, the process-audio route, the presentational SVG components, the scoreboards and the deployment config are not part of this model.
- `Math.random`, `Math.cos`, `Math.sin` and `Math.PI` are not modelled; their results are parameters.
  - Floating-point rounding is not modelled: coordinates are exact reals.
  - The contracts about speed magnitude hold under the hypothesis cos² + sin² = 1 (`Pythagorean`).
- Game.World.Frame does not stop the loop once game-over is set. The loop tests a copy of `gameOver` captured when the effect ran, which stays false, so the game keeps running; the model keeps game-over only as a flag that is raised.
- Spawner.SampleEdge and GameUtils.CreateNewTarget take a finite list of candidates and require one of them to pass the distance test. The source keeps drawing forever until one passes, so a run that never finds one is not modelled.
- Game.World.Refill and Game.World.Frame require one ready `Spawn` per asteroid they may create.
- The default argument `scale = 1` of the `Spaceship` constructor (app/page.tsx:52) and of `createSpaceship` (app/utils/gameUtils.ts:48) is not modelled, because Dafny has no default arguments. Entities.Spaceship.constructor and GameUtils.CreateSpaceship take the scale explicitly, and a caller that omits it in the source passes 1.0 here. The game itself passes 1 (app/page.tsx:108).
- Asteroids and lasers are values (`Body`) held in the world's sequences rather than shared objects. Each object is referenced only from its own array in the source, so no aliasing is lost. A move writes the moved value back at the same index.
- Game.World.ScanForHit runs the inner scan as its own method, and the splice and score update follow it in the caller. The source does both inside the inner loop before its `break`. The observable effect is the same.
- Game.World.Advance groups the steps of `gameLoop` that come before `checkCollisions`, and Game.World.Frame calls it and then CheckCollisions. The source runs those steps inline in `gameLoop`. The order of the steps is the same.
- Game.SteeredWraps is weaker than "the ship is always on screen after the wrap", which is what one would expect of a toroidal wrap. The code computes `(x + W) % W` with JavaScript's sign-keeping remainder, which lands in [0, W) only when x ≥ -W. The model follows the code, and Game.WrapMissesFastShip shows a position it leaves off-screen.
- The source has no asteroid splitting, levels, timers or UFOs in the game component, so neither has the model. The UFO kind appears only in GameUtils, as the source has it.
