/**
 * What one frame of the game component does to its asteroid and laser
 * arrays, stated as functions on sequences: moving and culling off-screen
 * objects, the laser/asteroid pass of checkCollisions, and the ship/asteroid
 * test. The world's methods are proved equal to these functions, and the
 * lemmas here say what the functions guarantee.
 */
module Collisions {
  import opened Geometry
  import opened Entities

  datatype Option<T> = None | Some(value: T)

  /** Math.hypot(a.x - b.x, a.y - b.y) < a.radius + b.radius: the two circles overlap. */
  predicate Hits(a: Body, b: Body) {
    Closer(a.x, a.y, b.x, b.y, a.radius + b.radius)
  }

  /** s with the element at index j spliced out. */
  function Remove<T>(s: seq<T>, j: nat): (r: seq<T>)
    requires j < |s|
    ensures |r| == |s| - 1
    ensures forall k :: 0 <= k < j ==> r[k] == s[k]
    ensures forall k :: j <= k < |r| ==> r[k] == s[k + 1]
  {
    s[..j] + s[j + 1..]
  }

  // ---------------------------------------------------------------------------
  // Subsequences

  /** s is t with some elements deleted, the rest kept in order. */
  predicate IsSubseq<T(==)>(s: seq<T>, t: seq<T>)
    decreases |t|
  {
    if s == [] then true
    else if t == [] then false
    else (s[|s| - 1] == t[|t| - 1] && IsSubseq(s[..|s| - 1], t[..|t| - 1]))
         || IsSubseq(s, t[..|t| - 1])
  }

  lemma {:induction false} SubseqReflexive<T>(s: seq<T>)
    ensures IsSubseq(s, s)
  {
    if s != [] {
      SubseqReflexive(s[..|s| - 1]);
    }
  }

  /** Every element of a subsequence is an element of the whole. */
  lemma {:induction false} SubseqMembers<T>(s: seq<T>, t: seq<T>)
    requires IsSubseq(s, t)
    ensures forall x :: x in s ==> x in t
  {
    if s != [] && t != [] {
      var s', t' := s[..|s| - 1], t[..|t| - 1];
      if s[|s| - 1] == t[|t| - 1] && IsSubseq(s', t') {
        SubseqMembers(s', t');
        assert s == s' + [s[|s| - 1]];
        assert t == t' + [t[|t| - 1]];
      } else {
        SubseqMembers(s, t');
        assert t == t' + [t[|t| - 1]];
      }
    }
  }

  lemma {:induction false} SubseqTransitive<T>(a: seq<T>, b: seq<T>, c: seq<T>)
    requires IsSubseq(a, b) && IsSubseq(b, c)
    ensures IsSubseq(a, c)
    decreases |c|
  {
    if a != [] {
      var a', b', c' := a[..|a| - 1], b[..|b| - 1], c[..|c| - 1];
      if b[|b| - 1] == c[|c| - 1] && IsSubseq(b', c') {
        if a[|a| - 1] == b[|b| - 1] && IsSubseq(a', b') {
          SubseqTransitive(a', b', c');
        } else {
          SubseqTransitive(a, b', c');
        }
      } else {
        SubseqTransitive(a, b, c');
      }
    }
  }

  /** Splicing one element out leaves a subsequence. */
  lemma {:induction false} SubseqRemove<T>(t: seq<T>, j: nat)
    requires j < |t|
    ensures IsSubseq(Remove(t, j), t)
    decreases |t|
  {
    var s := Remove(t, j);
    var t' := t[..|t| - 1];
    if j == |t| - 1 {
      assert s == t';
      SubseqReflexive(t');
    } else {
      SubseqRemove(t', j);
      assert s[..|s| - 1] == Remove(t', j);
    }
  }

  // ---------------------------------------------------------------------------
  // Moving and culling

  /** A rectangle [left, right] x [top, bottom]. */
  datatype Box = Box(left: real, right: real, top: real, bottom: real)

  /** The cull test negated: not left of, right of, above or below the box. */
  predicate Inside(b: Body, box: Box) {
    !(b.x < box.left || b.x > box.right || b.y < box.top || b.y > box.bottom)
  }

  /** Every object in s lies inside the box. */
  predicate AllInside(s: seq<Body>, box: Box) {
    forall k :: 0 <= k < |s| ==> Inside(s[k], box)
  }

  /** Deleting objects keeps the rest inside the box. */
  lemma SubseqInside(s: seq<Body>, t: seq<Body>, box: Box)
    requires IsSubseq(s, t) && AllInside(t, box)
    ensures AllInside(s, box)
  {
    SubseqMembers(s, t);
    forall k | 0 <= k < |s|
      ensures Inside(s[k], box)
    {
      assert s[k] in t;
    }
  }

  /** Every object moved one step, in order. */
  function MoveAll(s: seq<Body>): (r: seq<Body>)
    ensures |r| == |s| && forall k :: 0 <= k < |s| ==> r[k] == Moved(s[k])
  {
    seq(|s|, k requires 0 <= k < |s| => Moved(s[k]))
  }

  /**
   * The move-and-cull loop of the frame: each object moves one step and is
   * dropped when it then lies outside the box; the survivors keep their order.
   */
  function MoveAndCull(s: seq<Body>, box: Box): (r: seq<Body>)
    ensures |r| <= |s|
    ensures AllInside(r, box)
    decreases |s|
  {
    if s == [] then []
    else
      var rest := MoveAndCull(s[..|s| - 1], box);
      var b := Moved(s[|s| - 1]);
      if Inside(b, box) then rest + [b] else rest
  }

  /**
   * The array after one run of the source's loop body at index i: the object
   * moved in place, then spliced out if it lies outside the box.
   */
  function CullAt(s: seq<Body>, i: nat, box: Box): seq<Body>
    requires i < |s|
  {
    var moved := s[i := Moved(s[i])];
    if Inside(Moved(s[i]), box) then moved else Remove(moved, i)
  }

  /** One pass of the source's reverse move-and-cull loop body, at index i, keeps the outcome. */
  lemma MoveAndCullStep(s: seq<Body>, i: nat, box: Box)
    requires i < |s|
    ensures CullAt(s, i, box)[..i] == s[..i]
    ensures MoveAndCull(s[..i + 1], box) + s[i + 1..] == MoveAndCull(s[..i], box) + CullAt(s, i, box)[i..]
  {
    var r := CullAt(s, i, box);
    assert s[..i + 1][..i] == s[..i];
    if Inside(Moved(s[i]), box) {
      assert r[i..] == [Moved(s[i])] + s[i + 1..];
    } else {
      assert r[i..] == s[i + 1..];
    }
  }

  /** The survivors are the moved objects that lie inside the box, and no others. */
  lemma {:induction false} MoveAndCullMembers(s: seq<Body>, box: Box, b: Body)
    ensures b in MoveAndCull(s, box) <==> exists k :: 0 <= k < |s| && b == Moved(s[k]) && Inside(b, box)
    decreases |s|
  {
    if s != [] {
      var s' := s[..|s| - 1];
      MoveAndCullMembers(s', box, b);
      if exists k :: 0 <= k < |s| && b == Moved(s[k]) && Inside(b, box) {
        var k :| 0 <= k < |s| && b == Moved(s[k]) && Inside(b, box);
        if k < |s| - 1 {
          assert s'[k] == s[k];
        }
      }
      if exists k :: 0 <= k < |s'| && b == Moved(s'[k]) && Inside(b, box) {
        var k :| 0 <= k < |s'| && b == Moved(s'[k]) && Inside(b, box);
        assert s[k] == s'[k];
      }
    }
  }

  /** The survivors appear in the order of the original array. */
  lemma {:induction false} MoveAndCullKeepsOrder(s: seq<Body>, box: Box)
    ensures IsSubseq(MoveAndCull(s, box), MoveAll(s))
    decreases |s|
  {
    if s != [] {
      var s' := s[..|s| - 1];
      MoveAndCullKeepsOrder(s', box);
      var all := MoveAll(s);
      assert all[..|all| - 1] == MoveAll(s');
      var r := MoveAndCull(s, box);
      var rest := MoveAndCull(s', box);
      if Inside(Moved(s[|s| - 1]), box) {
        assert r[..|r| - 1] == rest;
      } else if rest != [] {
        assert r == rest;
      }
    }
  }

  /** The objects of t that lie inside the box, in order, taken from the front. */
  function Filter(t: seq<Body>, box: Box): seq<Body> {
    if t == [] then []
    else (if Inside(t[0], box) then [t[0]] else []) + Filter(t[1..], box)
  }

  lemma {:induction false} FilterAppend(a: seq<Body>, b: seq<Body>, box: Box)
    ensures Filter(a + b, box) == Filter(a, box) + Filter(b, box)
    decreases |a|
  {
    if a == [] {
      assert a + b == b;
    } else {
      assert (a + b)[1..] == a[1..] + b;
      FilterAppend(a[1..], b, box);
    }
  }

  /** Filter keeps every inside object as often as it occurs, and no outside one. */
  lemma {:induction false} FilterCounts(t: seq<Body>, box: Box, b: Body)
    ensures multiset(Filter(t, box))[b] == if Inside(b, box) then multiset(t)[b] else 0
    decreases |t|
  {
    if t != [] {
      FilterCounts(t[1..], box, b);
      assert t == [t[0]] + t[1..];
    }
  }

  /** The move-and-cull loop is the moved array filtered by the box, objects kept with their multiplicities. */
  lemma {:induction false} MoveAndCullIsFilter(s: seq<Body>, box: Box)
    ensures MoveAndCull(s, box) == Filter(MoveAll(s), box)
    decreases |s|
  {
    if s != [] {
      var s' := s[..|s| - 1];
      MoveAndCullIsFilter(s', box);
      var all := MoveAll(s);
      var b := Moved(s[|s| - 1]);
      assert all == MoveAll(s') + [b];
      FilterAppend(MoveAll(s'), [b], box);
      assert [b][1..] == [];
    }
  }

  // ---------------------------------------------------------------------------
  // The laser/asteroid pass

  /**
   * The inner loop of the pass for one laser: the highest index of an
   * asteroid it overlaps, found by scanning from the end, or None.
   */
  function LastHit(l: Body, asteroids: seq<Body>): (r: Option<nat>)
    ensures r.Some? ==> r.value < |asteroids| && Hits(l, asteroids[r.value])
    ensures r.Some? ==> forall k :: r.value < k < |asteroids| ==> !Hits(l, asteroids[k])
    ensures r.None? ==> forall k :: 0 <= k < |asteroids| ==> !Hits(l, asteroids[k])
    decreases |asteroids|
  {
    if asteroids == [] then None
    else if Hits(l, asteroids[|asteroids| - 1]) then Some(|asteroids| - 1)
    else LastHit(l, asteroids[..|asteroids| - 1])
  }

  /** What the pass leaves: surviving lasers, surviving asteroids, and the number of hits. */
  datatype PassResult = PassResult(lasers: seq<Body>, asteroids: seq<Body>, hits: nat)

  /**
   * The laser/asteroid pass of checkCollisions. Lasers are taken from the
   * last to the first; a laser that overlaps an asteroid removes itself and
   * the highest-indexed asteroid it overlaps, and scores one hit. Each laser
   * removes at most one asteroid, so both arrays shrink by the number of hits.
   */
  function LaserPass(lasers: seq<Body>, asteroids: seq<Body>): (r: PassResult)
    ensures |r.lasers| + r.hits == |lasers|
    ensures |r.asteroids| + r.hits == |asteroids|
    decreases |lasers|
  {
    if lasers == [] then PassResult([], asteroids, 0)
    else
      var l := lasers[|lasers| - 1];
      match LastHit(l, asteroids)
      case None =>
        var r := LaserPass(lasers[..|lasers| - 1], asteroids);
        PassResult(r.lasers + [l], r.asteroids, r.hits)
      case Some(j) =>
        var r := LaserPass(lasers[..|lasers| - 1], Remove(asteroids, j));
        PassResult(r.lasers, r.asteroids, r.hits + 1)
  }

  /**
   * The outcome of the pass from part-way through, as the source's loop
   * holds it: the lasers in `pending` still to be processed, the lasers in
   * `kept` already through without a hit, `hits` hits scored so far.
   */
  function Resumed(pending: seq<Body>, kept: seq<Body>, asteroids: seq<Body>, hits: nat): PassResult {
    var r := LaserPass(pending, asteroids);
    PassResult(r.lasers + kept, r.asteroids, r.hits + hits)
  }

  /** One step of the source's outer loop, at laser i, keeps the pass's outcome. */
  lemma ResumedStep(ls: seq<Body>, i: nat, asteroids: seq<Body>, hits: nat)
    requires i < |ls|
    ensures LastHit(ls[i], asteroids).None? ==>
              Resumed(ls[..i + 1], ls[i + 1..], asteroids, hits) == Resumed(ls[..i], ls[i..], asteroids, hits)
    ensures LastHit(ls[i], asteroids).Some? ==>
              Resumed(ls[..i + 1], ls[i + 1..], asteroids, hits)
              == Resumed(ls[..i], ls[i + 1..], Remove(asteroids, LastHit(ls[i], asteroids).value), hits + 1)
  {
    assert ls[..i + 1][..i] == ls[..i];
    assert ls[i..] == [ls[i]] + ls[i + 1..];
  }

  /** The survivors of the pass are the original arrays with elements deleted, order kept. */
  lemma {:induction false} LaserPassKeepsOrder(lasers: seq<Body>, asteroids: seq<Body>)
    ensures IsSubseq(LaserPass(lasers, asteroids).lasers, lasers)
    ensures IsSubseq(LaserPass(lasers, asteroids).asteroids, asteroids)
    decreases |lasers|
  {
    if lasers == [] {
      SubseqReflexive(asteroids);
    } else {
      var l := lasers[|lasers| - 1];
      var init := lasers[..|lasers| - 1];
      var out := LaserPass(lasers, asteroids);
      match LastHit(l, asteroids)
      case None =>
        LaserPassKeepsOrder(init, asteroids);
        var r := LaserPass(init, asteroids);
        assert out.lasers[..|out.lasers| - 1] == r.lasers;
      case Some(j) =>
        var rest := Remove(asteroids, j);
        LaserPassKeepsOrder(init, rest);
        SubseqRemove(asteroids, j);
        SubseqTransitive(out.asteroids, rest, asteroids);
        if out.lasers != [] {
          assert IsSubseq(out.lasers, init);
        }
    }
  }

  /** No laser in `lasers` overlaps an asteroid in `asteroids`. */
  predicate Separated(lasers: seq<Body>, asteroids: seq<Body>) {
    forall i, j :: 0 <= i < |lasers| && 0 <= j < |asteroids| ==> !Hits(lasers[i], asteroids[j])
  }

  /** After the pass, no surviving laser overlaps a surviving asteroid. */
  lemma {:induction false} LaserPassLeavesNoHits(lasers: seq<Body>, asteroids: seq<Body>)
    ensures Separated(LaserPass(lasers, asteroids).lasers, LaserPass(lasers, asteroids).asteroids)
    decreases |lasers|
  {
    if lasers != [] {
      var l := lasers[|lasers| - 1];
      var init := lasers[..|lasers| - 1];
      match LastHit(l, asteroids)
      case None =>
        LaserPassLeavesNoHits(init, asteroids);
        var r := LaserPass(init, asteroids);
        LaserPassKeepsOrder(init, asteroids);
        SubseqMembers(r.asteroids, asteroids);
        var out := LaserPass(lasers, asteroids);
        assert out == PassResult(r.lasers + [l], r.asteroids, r.hits);
        assert Separated(r.lasers, r.asteroids);
        forall i, j | 0 <= i < |out.lasers| && 0 <= j < |out.asteroids|
          ensures !Hits(out.lasers[i], out.asteroids[j])
        {
          if i == |r.lasers| {
            assert r.asteroids[j] in asteroids;
            var k :| 0 <= k < |asteroids| && asteroids[k] == r.asteroids[j];
            assert !Hits(l, asteroids[k]);
          } else {
            assert out.lasers[i] == r.lasers[i];
            assert !Hits(r.lasers[i], r.asteroids[j]);
          }
        }
      case Some(j) =>
        LaserPassLeavesNoHits(init, Remove(asteroids, j));
        assert LaserPass(lasers, asteroids).lasers == LaserPass(init, Remove(asteroids, j)).lasers;
        assert LaserPass(lasers, asteroids).asteroids == LaserPass(init, Remove(asteroids, j)).asteroids;
    }
  }

  /** When no laser overlaps any asteroid, the pass removes nothing and scores nothing. */
  lemma {:induction false} LaserPassKeepsSeparated(lasers: seq<Body>, asteroids: seq<Body>)
    requires Separated(lasers, asteroids)
    ensures LaserPass(lasers, asteroids) == PassResult(lasers, asteroids, 0)
    decreases |lasers|
  {
    if lasers != [] {
      var l := lasers[|lasers| - 1];
      var init := lasers[..|lasers| - 1];
      assert forall j :: 0 <= j < |asteroids| ==> !Hits(l, asteroids[j]);
      assert Separated(init, asteroids) by {
        forall i, j | 0 <= i < |init| && 0 <= j < |asteroids|
          ensures !Hits(init[i], asteroids[j])
        {
          assert init[i] == lasers[i];
        }
      }
      LaserPassKeepsSeparated(init, asteroids);
      assert init + [l] == lasers;
    }
  }

  /** A second pass over what the first one left changes nothing. */
  lemma LaserPassIdempotent(lasers: seq<Body>, asteroids: seq<Body>)
    ensures
      var r := LaserPass(lasers, asteroids);
      LaserPass(r.lasers, r.asteroids) == PassResult(r.lasers, r.asteroids, 0)
  {
    LaserPassLeavesNoHits(lasers, asteroids);
    var r := LaserPass(lasers, asteroids);
    LaserPassKeepsSeparated(r.lasers, r.asteroids);
  }

  /** The lasers and the asteroids of a list of pairs. */
  function Firsts(ps: seq<(Body, Body)>): (r: seq<Body>)
    ensures |r| == |ps| && forall k :: 0 <= k < |ps| ==> r[k] == ps[k].0
  {
    seq(|ps|, k requires 0 <= k < |ps| => ps[k].0)
  }

  function Seconds(ps: seq<(Body, Body)>): (r: seq<Body>)
    ensures |r| == |ps| && forall k :: 0 <= k < |ps| ==> r[k] == ps[k].1
  {
    seq(|ps|, k requires 0 <= k < |ps| => ps[k].1)
  }

  /** The (laser, asteroid) pairs the pass removes, one per hit; each laser overlaps its asteroid. */
  function HitPairs(lasers: seq<Body>, asteroids: seq<Body>): (ps: seq<(Body, Body)>)
    ensures forall k :: 0 <= k < |ps| ==> Hits(ps[k].0, ps[k].1)
    decreases |lasers|
  {
    if lasers == [] then []
    else
      var l := lasers[|lasers| - 1];
      match LastHit(l, asteroids)
      case None => HitPairs(lasers[..|lasers| - 1], asteroids)
      case Some(j) => HitPairs(lasers[..|lasers| - 1], Remove(asteroids, j)) + [(l, asteroids[j])]
  }

  lemma RemoveCounts<T>(s: seq<T>, j: nat)
    requires j < |s|
    ensures multiset(s) == multiset(Remove(s, j)) + multiset{s[j]}
  {
    assert s == s[..j] + [s[j]] + s[j + 1..];
  }

  /** Every laser and asteroid of the pass either survives or belongs to one hit pair. */
  predicate Accounted(lasers: seq<Body>, asteroids: seq<Body>) {
    var r := LaserPass(lasers, asteroids);
    var ps := HitPairs(lasers, asteroids);
    && |ps| == r.hits
    && multiset(lasers) == multiset(r.lasers) + multiset(Firsts(ps))
    && multiset(asteroids) == multiset(r.asteroids) + multiset(Seconds(ps))
  }

  /**
   * What the pass removes is exactly its hit pairs: every laser and every
   * asteroid, with its multiplicity, either survives or belongs to one
   * removed pair, and there is one pair per hit.
   */
  lemma {:induction false} LaserPassAccounts(lasers: seq<Body>, asteroids: seq<Body>)
    ensures
      var r := LaserPass(lasers, asteroids);
      var ps := HitPairs(lasers, asteroids);
      && |ps| == r.hits
      && multiset(lasers) == multiset(r.lasers) + multiset(Firsts(ps))
      && multiset(asteroids) == multiset(r.asteroids) + multiset(Seconds(ps))
    decreases |lasers|
  {
    if lasers != [] {
      var init := lasers[..|lasers| - 1];
      match LastHit(lasers[|lasers| - 1], asteroids)
      case None =>
        LaserPassAccounts(init, asteroids);
        AccountedMiss(lasers, asteroids);
      case Some(j) =>
        LaserPassAccounts(init, Remove(asteroids, j));
        AccountedHit(lasers, asteroids, j);
    }
    assert Accounted(lasers, asteroids);
  }

  /** The inductive step of LaserPassAccounts when the last laser hits nothing. */
  lemma AccountedMiss(lasers: seq<Body>, asteroids: seq<Body>)
    requires lasers != [] && LastHit(lasers[|lasers| - 1], asteroids).None?
    requires Accounted(lasers[..|lasers| - 1], asteroids)
    ensures Accounted(lasers, asteroids)
  {
    var l := lasers[|lasers| - 1];
    var init := lasers[..|lasers| - 1];
    assert lasers == init + [l];
    var r' := LaserPass(init, asteroids);
    assert LaserPass(lasers, asteroids) == PassResult(r'.lasers + [l], r'.asteroids, r'.hits);
    assert HitPairs(lasers, asteroids) == HitPairs(init, asteroids);
  }

  /** The inductive step of LaserPassAccounts when the last laser hits asteroid `j`. */
  lemma AccountedHit(lasers: seq<Body>, asteroids: seq<Body>, j: nat)
    requires lasers != [] && LastHit(lasers[|lasers| - 1], asteroids) == Some(j)
    requires Accounted(lasers[..|lasers| - 1], Remove(asteroids, j))
    ensures Accounted(lasers, asteroids)
  {
    var l := lasers[|lasers| - 1];
    var init := lasers[..|lasers| - 1];
    assert lasers == init + [l];
    var rest := Remove(asteroids, j);
    RemoveCounts(asteroids, j);
    var r' := LaserPass(init, rest);
    var ps' := HitPairs(init, rest);
    assert LaserPass(lasers, asteroids) == PassResult(r'.lasers, r'.asteroids, r'.hits + 1);
    assert HitPairs(lasers, asteroids) == ps' + [(l, asteroids[j])];
    assert Firsts(ps' + [(l, asteroids[j])]) == Firsts(ps') + [l];
    assert Seconds(ps' + [(l, asteroids[j])]) == Seconds(ps') + [asteroids[j]];
  }

  /**
   * Only overlapping pairs are removed: a laser that overlaps no asteroid
   * survives as many times as it occurs, and so does an asteroid that no
   * laser overlaps.
   */
  lemma LaserPassSpares(lasers: seq<Body>, asteroids: seq<Body>, l: Body, a: Body)
    ensures (forall k :: 0 <= k < |asteroids| ==> !Hits(l, asteroids[k])) ==>
              multiset(LaserPass(lasers, asteroids).lasers)[l] == multiset(lasers)[l]
    ensures (forall k :: 0 <= k < |lasers| ==> !Hits(lasers[k], a)) ==>
              multiset(LaserPass(lasers, asteroids).asteroids)[a] == multiset(asteroids)[a]
  {
    LaserPassAccounts(lasers, asteroids);
    var ps := HitPairs(lasers, asteroids);
    if forall k :: 0 <= k < |asteroids| ==> !Hits(l, asteroids[k]) {
      forall k | 0 <= k < |ps|
        ensures Firsts(ps)[k] != l
      {
        var b := ps[k].1;
        assert Seconds(ps)[k] == b;
        assert b in multiset(asteroids);
        var i :| 0 <= i < |asteroids| && asteroids[i] == b;
        assert !Hits(l, b);
      }
      assert l !in multiset(Firsts(ps));
    }
    if forall k :: 0 <= k < |lasers| ==> !Hits(lasers[k], a) {
      forall k | 0 <= k < |ps|
        ensures Seconds(ps)[k] != a
      {
        var b := ps[k].0;
        assert Firsts(ps)[k] == b;
        assert b in multiset(lasers);
        var i :| 0 <= i < |lasers| && lasers[i] == b;
        assert !Hits(b, a);
      }
      assert a !in multiset(Seconds(ps));
    }
  }

  // ---------------------------------------------------------------------------
  // The ship/asteroid test

  /** Some asteroid overlaps the ship. */
  predicate ShipStruck(ship: Body, asteroids: seq<Body>) {
    exists k :: 0 <= k < |asteroids| && Hits(ship, asteroids[k])
  }
}
