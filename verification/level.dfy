/** A level (`class Level`): its platforms and collectibles, the horizontal
    world shift, and collision detection against the player. */
module LevelWorld {

  import opened Geometry
  import opened Wrappers

  /** A level entity: its rectangle and whether it is a fixed platform.
      Entities' own `update` and `collision_detected` hooks are no-ops here. */
  datatype Entity = Entity(rect: Rect, isFixed: bool)

  /** Both groups keep their entities in insertion order, which is the
      order pygame iterates them in on Python 3.7 and later (see README,
      "Left out"). */
  datatype Level = Level(platforms: seq<Entity>, collectibles: seq<Entity>, worldShift: int)

  /** The wall tuple `(top, right, bottom, left)` of a platform. */
  datatype Wall = Wall(top: int, right: int, bottom: int, left: int)

  function WallOf(r: Rect): Wall {
    Wall(r.y, r.x + r.w, r.y + r.h, r.x)
  }

  /** The fixed entities of `spec`, in order. */
  function FixedEntities(spec: seq<Entity>): (r: seq<Entity>)
    ensures forall e :: e in r <==> e in spec && e.isFixed
    decreases |spec|
  {
    if spec == [] then []
    else
      var last := spec[|spec| - 1];
      FixedEntities(spec[..|spec| - 1]) + (if last.isFixed then [last] else [])
  }

  /** The entities of `spec` that are not fixed, in order. */
  function LooseEntities(spec: seq<Entity>): (r: seq<Entity>)
    ensures forall e :: e in r <==> e in spec && !e.isFixed
    decreases |spec|
  {
    if spec == [] then []
    else
      var last := spec[|spec| - 1];
      LooseEntities(spec[..|spec| - 1]) + (if last.isFixed then [] else [last])
  }

  /** Splitting by `is_fixed` loses and duplicates nothing. */
  lemma {:induction false} SplitIsPartition(spec: seq<Entity>)
    ensures multiset(FixedEntities(spec)) + multiset(LooseEntities(spec)) == multiset(spec)
    decreases |spec|
  {
    if spec != [] {
      var init := spec[..|spec| - 1];
      var last := spec[|spec| - 1];
      SplitIsPartition(init);
      assert spec == init + [last];
      var f, l := FixedEntities(init), LooseEntities(init);
      if last.isFixed {
        assert FixedEntities(spec) == f + [last];
        assert LooseEntities(spec) == l;
        assert multiset(f + [last]) == multiset(f) + multiset{last};
      } else {
        assert FixedEntities(spec) == f;
        assert LooseEntities(spec) == l + [last];
        assert multiset(l + [last]) == multiset(l) + multiset{last};
      }
      assert multiset(spec) == multiset(init) + multiset{last};
    }
  }

  /** The constructor: every entity of the level specification goes to
      exactly one of the two groups, chosen by its `is_fixed` flag. */
  method BuildLevel(spec: seq<Entity>) returns (level: Level)
    ensures level.worldShift == 0
    ensures level.platforms == FixedEntities(spec)
    ensures level.collectibles == LooseEntities(spec)
    ensures forall i :: 0 <= i < |level.platforms| ==> level.platforms[i].isFixed
    ensures forall i :: 0 <= i < |level.collectibles| ==> !level.collectibles[i].isFixed
    ensures multiset(level.platforms) + multiset(level.collectibles) == multiset(spec)
  {
    var platforms: seq<Entity> := [];
    var collectibles: seq<Entity> := [];
    for i := 0 to |spec|
      invariant platforms == FixedEntities(spec[..i])
      invariant collectibles == LooseEntities(spec[..i])
    {
      assert spec[..i + 1][..i] == spec[..i];
      if spec[i].isFixed {
        platforms := platforms + [spec[i]];
      } else {
        collectibles := collectibles + [spec[i]];
      }
    }
    assert spec[..|spec|] == spec;
    SplitIsPartition(spec);
    level := Level(platforms, collectibles, 0);
  }

  /** An entity moved `dx` pixels to the right. */
  function Shifted(e: Entity, dx: int): Entity {
    e.(rect := e.rect.(x := e.rect.x + dx))
  }

  function ShiftAll(es: seq<Entity>, dx: int): (r: seq<Entity>)
    ensures |r| == |es|
    ensures forall i :: 0 <= i < |es| ==> r[i] == Shifted(es[i], dx)
  {
    seq(|es|, i requires 0 <= i < |es| => Shifted(es[i], dx))
  }

  /** Scrolls the level: the accumulator and every entity's `rect.x` move by
      `dx`; nothing else changes. */
  function ShiftWorld(level: Level, dx: int): (r: Level)
    ensures r.worldShift == level.worldShift + dx
    ensures |r.platforms| == |level.platforms| && |r.collectibles| == |level.collectibles|
    ensures forall i :: 0 <= i < |level.platforms| ==> r.platforms[i] == Shifted(level.platforms[i], dx)
    ensures forall i :: 0 <= i < |level.collectibles| ==> r.collectibles[i] == Shifted(level.collectibles[i], dx)
  {
    Level(ShiftAll(level.platforms, dx), ShiftAll(level.collectibles, dx), level.worldShift + dx)
  }

  /** Scrolling composes additively, so scrolling back undoes a scroll. */
  lemma ShiftWorldComposes(level: Level, a: int, b: int)
    ensures ShiftWorld(ShiftWorld(level, a), b) == ShiftWorld(level, a + b)
    ensures ShiftWorld(ShiftWorld(level, a), -a) == level
  {
  }

  /** The entities of `es` whose rectangle overlaps `thing`, in order. */
  function Hits(es: seq<Entity>, thing: Rect, overlaps: Overlap): (r: seq<Entity>)
    ensures forall e :: e in r <==> e in es && overlaps(thing, e.rect)
    decreases |es|
  {
    if es == [] then []
    else
      var last := es[|es| - 1];
      Hits(es[..|es| - 1], thing, overlaps) + (if overlaps(thing, last.rect) then [last] else [])
  }

  /** The entities of `es` whose rectangle does not overlap `thing`, in order. */
  function Misses(es: seq<Entity>, thing: Rect, overlaps: Overlap): (r: seq<Entity>)
    ensures forall e :: e in r <==> e in es && !overlaps(thing, e.rect)
    decreases |es|
  {
    if es == [] then []
    else
      var last := es[|es| - 1];
      Misses(es[..|es| - 1], thing, overlaps) + (if overlaps(thing, last.rect) then [] else [last])
  }

  /** Every entity is either hit or missed, never both. */
  lemma {:induction false} HitsAndMissesPartition(es: seq<Entity>, thing: Rect, overlaps: Overlap)
    ensures multiset(Hits(es, thing, overlaps)) + multiset(Misses(es, thing, overlaps)) == multiset(es)
    ensures |Hits(es, thing, overlaps)| + |Misses(es, thing, overlaps)| == |es|
    decreases |es|
  {
    if es != [] {
      var init := es[..|es| - 1];
      var last := es[|es| - 1];
      HitsAndMissesPartition(init, thing, overlaps);
      assert es == init + [last];
      var h, m := Hits(init, thing, overlaps), Misses(init, thing, overlaps);
      if overlaps(thing, last.rect) {
        assert Hits(es, thing, overlaps) == h + [last];
        assert Misses(es, thing, overlaps) == m;
        assert multiset(h + [last]) == multiset(h) + multiset{last};
      } else {
        assert Hits(es, thing, overlaps) == h;
        assert Misses(es, thing, overlaps) == m + [last];
        assert multiset(m + [last]) == multiset(m) + multiset{last};
      }
      assert multiset(es) == multiset(init) + multiset{last};
    }
  }

  /** The wall tuple of the last platform of `ps` that overlaps `thing`, or
      `None` when none does. */
  function LastWall(ps: seq<Entity>, thing: Rect, overlaps: Overlap): (w: Option<Wall>)
    ensures w.None? <==> forall i :: 0 <= i < |ps| ==> !overlaps(thing, ps[i].rect)
    ensures w.Some? ==>
              exists i :: 0 <= i < |ps| && overlaps(thing, ps[i].rect) && w.value == WallOf(ps[i].rect)
                          && forall j :: i < j < |ps| ==> !overlaps(thing, ps[j].rect)
    decreases |ps|
  {
    if ps == [] then None
    else if overlaps(thing, ps[|ps| - 1].rect) then Some(WallOf(ps[|ps| - 1].rect))
    else LastWall(ps[..|ps| - 1], thing, overlaps)
  }

  /** The platform half of `detect_collisions`: every overlapping platform
      overwrites the wall tuple, so the last one wins. */
  method CollidePlatforms(ps: seq<Entity>, thing: Rect, overlaps: Overlap) returns (wall: Option<Wall>)
    ensures wall == LastWall(ps, thing, overlaps)
  {
    wall := None;
    for i := 0 to |ps|
      invariant wall == LastWall(ps[..i], thing, overlaps)
    {
      assert ps[..i + 1][..i] == ps[..i];
      assert ps[..i + 1][i] == ps[i];
      if overlaps(thing, ps[i].rect) {
        wall := Some(WallOf(ps[i].rect));
      }
    }
    assert ps[..|ps|] == ps;
  }

  /** The collectible half of `detect_collisions`: overlapping collectibles
      are killed and each adds one to the score. */
  method CollectItems(cs: seq<Entity>, thing: Rect, score: nat, overlaps: Overlap)
    returns (kept: seq<Entity>, newScore: nat)
    ensures kept == Misses(cs, thing, overlaps)
    ensures newScore == score + |Hits(cs, thing, overlaps)|
  {
    kept := [];
    newScore := score;
    for i := 0 to |cs|
      invariant kept == Misses(cs[..i], thing, overlaps)
      invariant newScore == score + |Hits(cs[..i], thing, overlaps)|
    {
      assert cs[..i + 1][..i] == cs[..i];
      assert cs[..i + 1][i] == cs[i];
      if overlaps(thing, cs[i].rect) {
        newScore := newScore + 1;
      } else {
        kept := kept + [cs[i]];
      }
    }
    assert cs[..|cs|] == cs;
  }

  /** Tests the player's rectangle `thing` against the level. Platforms stay;
      overlapping collectibles are removed and each one scores a point; the
      result is the wall tuple of the last overlapping platform. */
  method DetectCollisions(level: Level, thing: Rect, score: nat, overlaps: Overlap)
    returns (next: Level, newScore: nat, wall: Option<Wall>)
    ensures next.platforms == level.platforms && next.worldShift == level.worldShift
    ensures next.collectibles == Misses(level.collectibles, thing, overlaps)
    ensures |next.collectibles| <= |level.collectibles|
    ensures newScore == score + (|level.collectibles| - |next.collectibles|)
    ensures wall == LastWall(level.platforms, thing, overlaps)
  {
    wall := CollidePlatforms(level.platforms, thing, overlaps);
    var kept;
    kept, newScore := CollectItems(level.collectibles, thing, score, overlaps);
    HitsAndMissesPartition(level.collectibles, thing, overlaps);
    next := level.(collectibles := kept);
  }
}
