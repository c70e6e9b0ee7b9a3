/** The player character (`class Octopus`): position, speed, collision
    rectangle and the three movement primitives `fall`, `move_left` and
    `move_right`. */
module PlayerMotion {

  import opened Geometry

  /** Vertical speeds in pixels per tick; positive is downwards. */
  const Gravity: int := 10
  const JumpSpeed: int := -10
  const CeilingBounce: int := 2
  const FloorBounce: int := -2
  const AtRest: int := 0

  /** Once it lands, the octopus rests this many pixels above its floor. */
  const FloorGap: int := 2

  const StartY: int := 15
  const StartHSpeed: int := 15

  /** Which image cycle is on display. */
  datatype Facing = FacingLeft | FacingRight

  /** `speed = [hSpeed, vSpeed]`; `floor` is the window height minus the
      sprite height. */
  datatype Octopus = Octopus(
    x: int,
    y: int,
    hSpeed: int,
    vSpeed: int,
    rect: Rect,
    floor: int,
    facing: Facing)

  /** The collision rectangle's top-left corner sits on `(x, y)`. */
  predicate Synced(p: Octopus) {
    p.rect.x == p.x && p.rect.y == p.y
  }

  /** The five vertical speeds the game ever assigns. */
  predicate IsVerticalSpeed(v: int) {
    v == Gravity || v == JumpSpeed || v == CeilingBounce || v == FloorBounce || v == AtRest
  }

  /** The speeds `fall` leaves behind when it starts from one of the five. */
  predicate IsSettledSpeed(v: int) {
    v == Gravity || v == AtRest || v == FloorBounce
  }

  /** `rect[0] = x; rect[1] = y`, the last step of every mutator. */
  function Resync(p: Octopus): Octopus {
    p.(rect := p.rect.(x := p.x, y := p.y))
  }

  /** The constructor: `image` is the sprite's own rectangle and `startX`
      the integer `int(width * .15)`. */
  function NewOctopus(winHeight: int, startX: int, image: Rect): (p: Octopus)
    ensures Synced(p) && p.x == startX && p.y == StartY
    ensures p.hSpeed == StartHSpeed && p.vSpeed == Gravity && IsVerticalSpeed(p.vSpeed)
    ensures p.rect.w == image.w && p.rect.h == image.h
    ensures p.floor + p.rect.h == winHeight
    ensures p.facing == FacingRight
  {
    Octopus(startX, StartY, StartHSpeed, Gravity, image.(x := startX, y := StartY),
            winHeight - image.h, FacingRight)
  }

  /** One tick of vertical motion. */
  function Fall(p: Octopus): (q: Octopus)
    ensures Synced(q)
    ensures q.(y := p.y, vSpeed := p.vSpeed, rect := p.rect) == p
    ensures q.rect.w == p.rect.w && q.rect.h == p.rect.h
    // jumping and the ceiling bounce are one-tick impulses that give way to gravity
    ensures p.vSpeed == JumpSpeed || p.vSpeed == CeilingBounce ==>
              q.y == p.y + p.vSpeed && q.vSpeed == Gravity
    // otherwise reaching the floor pins the octopus just above it, at rest
    ensures p.vSpeed != JumpSpeed && p.vSpeed != CeilingBounce && p.y + p.vSpeed >= p.floor ==>
              q.y == p.floor - FloorGap && q.vSpeed == AtRest
    ensures p.vSpeed != JumpSpeed && p.vSpeed != CeilingBounce && p.y + p.vSpeed < p.floor ==>
              q.y == p.y + p.vSpeed && q.vSpeed == p.vSpeed
    // unless an impulse was spent, the octopus ends strictly above its floor
    ensures p.vSpeed != JumpSpeed && p.vSpeed != CeilingBounce ==> q.y < q.floor
    ensures IsVerticalSpeed(p.vSpeed) ==> IsSettledSpeed(q.vSpeed)
  {
    var y := p.y + p.vSpeed;
    if p.vSpeed == JumpSpeed || p.vSpeed == CeilingBounce then
      Resync(p.(y := y, vSpeed := Gravity))
    else if y >= p.floor then
      Resync(p.(y := p.floor - FloorGap, vSpeed := AtRest))
    else
      Resync(p.(y := y))
  }

  function MoveLeft(p: Octopus): (q: Octopus)
    ensures q.x == p.x - p.hSpeed
    ensures Synced(q)
    ensures q.(x := p.x, rect := p.rect) == p
    ensures q.rect.w == p.rect.w && q.rect.h == p.rect.h
  {
    Resync(p.(x := p.x - p.hSpeed))
  }

  function MoveRight(p: Octopus): (q: Octopus)
    ensures q.x == p.x + p.hSpeed
    ensures Synced(q)
    ensures q.(x := p.x, rect := p.rect) == p
    ensures q.rect.w == p.rect.w && q.rect.h == p.rect.h
  {
    Resync(p.(x := p.x + p.hSpeed))
  }

  /** A step left and a step right cancel, except that they also repair a
      stale rectangle: the pair is the identity exactly on synced states. */
  lemma MoveRoundTrip(p: Octopus)
    ensures MoveRight(MoveLeft(p)) == Resync(p) && MoveLeft(MoveRight(p)) == Resync(p)
    ensures MoveRight(MoveLeft(p)) == p <==> Synced(p)
    ensures MoveLeft(MoveRight(p)) == p <==> Synced(p)
  {
  }

  /** `fall` changes nothing exactly when the octopus is synced, at rest and
      above its floor; in particular resting at `floor - 2` is a fixpoint. */
  lemma FallFixpoint(p: Octopus)
    ensures Fall(p) == p <==> Synced(p) && p.vSpeed == AtRest && p.y < p.floor
    ensures Synced(p) && p.vSpeed == AtRest && p.y == p.floor - FloorGap ==> Fall(p) == p
  {
  }

  /** `n` ticks of `fall` in a row. */
  function FallTimes(p: Octopus, n: nat): Octopus
    decreases n
  {
    if n == 0 then p else FallTimes(Fall(p), n - 1)
  }

  /** While the floor is out of reach, each tick under gravity drops the
      octopus by exactly `Gravity` pixels. */
  lemma {:induction false} FreeFall(p: Octopus, n: nat)
    requires p.vSpeed == Gravity && p.y + Gravity * n < p.floor
    ensures FallTimes(p, n).y == p.y + Gravity * n
    ensures FallTimes(p, n).vSpeed == Gravity
    ensures FallTimes(p, n).x == p.x
    ensures n > 0 ==> Synced(FallTimes(p, n))
    decreases n
  {
    if n > 0 {
      var q := Fall(p);
      assert q.y == p.y + Gravity;
      FreeFall(q, n - 1);
    }
  }

  /** Once at rest, the octopus stays put however many ticks pass. */
  lemma {:induction false} StaysAtRest(p: Octopus, n: nat)
    requires Synced(p) && p.vSpeed == AtRest && p.y < p.floor
    ensures FallTimes(p, n) == p
    decreases n
  {
    if n > 0 {
      FallFixpoint(p);
      StaysAtRest(p, n - 1);
    }
  }

  /** Falling under gravity for any number of ticks that carries the
      octopus to its floor leaves it resting at `floor - 2`. */
  lemma {:induction false} Landing(p: Octopus, n: nat)
    requires p.vSpeed == Gravity && n >= 1 && p.y + Gravity * n >= p.floor
    ensures FallTimes(p, n).y == p.floor - FloorGap
    ensures FallTimes(p, n).vSpeed == AtRest
    ensures FallTimes(p, n).x == p.x && Synced(FallTimes(p, n))
    decreases n
  {
    var q := Fall(p);
    if p.y + Gravity >= p.floor {
      StaysAtRest(q, n - 1);
    } else {
      Landing(q, n - 1);
    }
  }
}
