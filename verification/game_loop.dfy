/** The per-tick rules of the game loop (`main`): input, edge wrap, vertical
    clamp, fall, animation cadence, collision detection and the bounce. */
module GameLoop {

  import opened Geometry
  import opened Wrappers
  import opened PlayerMotion
  import opened LevelWorld
  import opened Scrolling

  /** One tick's input: whether a quit event arrived, and which keys are held. */
  datatype Input = Input(quit: bool, escape: bool, left: bool, right: bool, up: bool)

  /** The window size and the two wrap thresholds, which the source computes
      as `int(.1 * width)` and `int(.9 * width)`. */
  datatype Window = Window(width: int, height: int, leftEdge: int, rightEdge: int)

  /** Everything the loop carries from one tick to the next; `score` is the
      game state's score, `frameCounter` is `iters`, `blocked` is the last
      collision result. */
  datatype World = World(
    octopus: Octopus,
    level: Level,
    score: nat,
    backdrop: Backdrop,
    frameCounter: nat,
    blocked: Option<Wall>)

  /** `max_iters`: the counter value at which both image cycles advance. */
  const MaxIters: nat := 3

  /** Bounce corrections applied when a platform blocks the octopus. */
  const LeftRecoil: int := 20
  const RightRecoil: int := -30
  const JumpRecoil: int := 20
  const DropRecoil: int := -50

  /** The loop's state before the first tick. */
  function StartWorld(octopus: Octopus, level: Level, win: Window): (w: World)
    requires win.width >= 0
    ensures w.octopus == octopus && w.level == level
    ensures w.score == 0 && w.frameCounter == 0 && w.blocked.None?
    ensures Seamless(w.backdrop, win.width)
  {
    World(octopus, level, 0, InitialBackdrop(win.width), 0, None)
  }

  /** The movement keys: LEFT is tested before RIGHT, and UP independently
      sets the jump speed. */
  function Steer(p: Octopus, input: Input): (q: Octopus)
    ensures input.left ==> q.x == p.x - p.hSpeed && q.facing == FacingLeft && Synced(q)
    ensures !input.left && input.right ==> q.x == p.x + p.hSpeed && q.facing == FacingRight && Synced(q)
    ensures !input.left && !input.right ==> q.x == p.x && q.facing == p.facing && q.rect == p.rect
    ensures q.vSpeed == (if input.up then JumpSpeed else p.vSpeed)
    ensures q.y == p.y && q.hSpeed == p.hSpeed && q.floor == p.floor
    ensures q.rect.w == p.rect.w && q.rect.h == p.rect.h
  {
    var moved :=
      if input.left then MoveLeft(p).(facing := FacingLeft)
      else if input.right then MoveRight(p).(facing := FacingRight)
      else p;
    if input.up then moved.(vSpeed := JumpSpeed) else moved
  }

  /** Holding both LEFT and RIGHT behaves exactly like holding LEFT alone. */
  lemma LeftBeatsRight(p: Octopus, input: Input)
    requires input.left
    ensures Steer(p, input) == Steer(p, input.(right := false))
    ensures Steer(p, input).x < p.x <==> p.hSpeed > 0
  {
  }

  /** Screen-edge wrap: at the left threshold the octopus steps right and the
      world and background scroll right by the same amount; at the right
      threshold everything mirrors. The background uses the seam-keeping
      update (see `Scrolling.PanRight`). */
  function EdgeWrap(w: World, win: Window): (r: World)
    ensures var p := w.octopus;
            p.x <= win.leftEdge ==>
              r.octopus.x == p.x + p.hSpeed && r.level.worldShift == w.level.worldShift + p.hSpeed
    ensures var p := w.octopus;
            win.leftEdge < p.x && p.x + p.rect.w >= win.rightEdge ==>
              r.octopus.x == p.x - p.hSpeed && r.level.worldShift == w.level.worldShift - p.hSpeed
    ensures var p := w.octopus;
            win.leftEdge < p.x && p.x + p.rect.w < win.rightEdge ==> r == w
    // the world moves exactly as far as the octopus, so the octopus keeps its place in the level
    ensures r.level == ShiftWorld(w.level, r.octopus.x - w.octopus.x)
    ensures r.octopus.x - r.level.worldShift == w.octopus.x - w.level.worldShift
    ensures r.octopus.(x := w.octopus.x, rect := w.octopus.rect) == w.octopus
    ensures r.octopus.rect.w == w.octopus.rect.w && r.octopus.rect.h == w.octopus.rect.h
    ensures r.score == w.score && r.frameCounter == w.frameCounter && r.blocked == w.blocked
    ensures InRange(w.backdrop, win.width) && 0 <= w.octopus.hSpeed <= 2 * win.width ==>
              InRange(r.backdrop, win.width)
    ensures Seamless(w.backdrop, win.width) && 0 <= w.octopus.hSpeed <= win.width ==>
              Seamless(r.backdrop, win.width)
  {
    var p := w.octopus;
    if p.x <= win.leftEdge then
      var q := MoveRight(p);
      w.(octopus := q,
         level := ShiftWorld(w.level, q.hSpeed),
         backdrop := PanRight(w.backdrop, q.hSpeed, win.width))
    else if p.x + p.rect.w >= win.rightEdge then
      var q := MoveLeft(p);
      w.(octopus := q,
         level := ShiftWorld(w.level, -q.hSpeed),
         backdrop := PanLeft(w.backdrop, q.hSpeed, win.width))
    else
      ShiftWorldComposes(w.level, 0, 0);
      w
  }

  /** Vertical clamp: touching the top starts a ceiling bounce, otherwise
      touching the bottom starts a floor bounce; only the speed changes. */
  function ClampVertical(p: Octopus, win: Window): (q: Octopus)
    ensures p.y <= 0 ==> q.vSpeed == CeilingBounce
    ensures p.y > 0 && p.y + p.rect.h >= win.height ==> q.vSpeed == FloorBounce
    ensures p.y > 0 && p.y + p.rect.h < win.height ==> q.vSpeed == p.vSpeed
    ensures q.(vSpeed := p.vSpeed) == p
  {
    if p.y <= 0 then p.(vSpeed := CeilingBounce)
    else if p.y + p.rect.h >= win.height then p.(vSpeed := FloorBounce)
    else p
  }

  /** A ceiling bounce lasts one tick: the octopus is nudged down by two
      pixels and gravity takes over again. */
  lemma CeilingBounceLastsOneTick(p: Octopus, win: Window)
    requires p.y <= 0
    ensures Fall(ClampVertical(p, win)).y == p.y + CeilingBounce
    ensures Fall(ClampVertical(p, win)).vSpeed == Gravity
  {
  }

  /** Correction after a platform blocks the octopus: LEFT pushes it right by
      20, else RIGHT pushes it left by 30; UP pushes it down by 20, else it is
      lifted by 50. The rectangle is not updated. */
  function Bounce(p: Octopus, input: Input, blocked: Option<Wall>): (q: Octopus)
    ensures blocked.None? ==> q == p
    ensures blocked.Some? && input.left ==> q.x == p.x + LeftRecoil && q.facing == FacingLeft
    ensures blocked.Some? && !input.left && input.right ==> q.x == p.x + RightRecoil && q.facing == FacingRight
    ensures blocked.Some? && !input.left && !input.right ==> q.x == p.x && q.facing == p.facing
    ensures blocked.Some? ==> q.y == p.y + (if input.up then JumpRecoil else DropRecoil)
    ensures q.(x := p.x, y := p.y, facing := p.facing) == p
  {
    if blocked.None? then p
    else
      var moved :=
        if input.left then p.(x := p.x + LeftRecoil, facing := FacingLeft)
        else if input.right then p.(x := p.x + RightRecoil, facing := FacingRight)
        else p;
      moved.(y := moved.y + (if input.up then JumpRecoil else DropRecoil))
  }

  /** The bounce tests LEFT before RIGHT too: holding both bounces like
      holding LEFT alone, which pushes a blocked octopus to the right. */
  lemma BounceLeftBeatsRight(p: Octopus, input: Input, blocked: Option<Wall>)
    requires input.left
    ensures Bounce(p, input, blocked) == Bounce(p, input.(right := false), blocked)
    ensures blocked.Some? ==> Bounce(p, input, blocked).x > p.x
  {
  }

  /** The animation counter: when it reaches `MaxIters` both image cycles
      advance and it restarts from zero. */
  function AnimationStep(counter: nat): (r: (nat, bool))
    ensures r.1 <==> counter == MaxIters
    ensures counter <= MaxIters ==> r.0 == (counter + 1) % (MaxIters + 1)
  {
    if counter == MaxIters then (0, true) else (counter + 1, false)
  }

  /** The counter after `n` ticks from its starting value 0. */
  function CounterAfter(n: nat): nat
    decreases n
  {
    if n == 0 then 0 else AnimationStep(CounterAfter(n - 1)).0
  }

  /** The counter cycles through 0..3, so the images advance on every fourth
      tick (ticks 4, 8, 12, ...), not every third. */
  lemma {:induction false} ImagesAdvanceEveryFourthTick(n: nat)
    ensures CounterAfter(n) == n % (MaxIters + 1)
    ensures AnimationStep(CounterAfter(n)).1 <==> (n + 1) % (MaxIters + 1) == 0
    decreases n
  {
    if n > 0 {
      ImagesAdvanceEveryFourthTick(n - 1);
    }
  }

  /** One pass of the game loop. `None` means the process exits. */
  method Tick(w: World, input: Input, win: Window, overlaps: Overlap) returns (r: Option<World>)
    ensures r.None? <==> input.quit || input.escape
    ensures r.Some? ==> r.value.score == w.score + (|w.level.collectibles| - |r.value.level.collectibles|)
    ensures r.Some? ==> |r.value.level.collectibles| <= |w.level.collectibles|
    ensures r.Some? ==> |r.value.level.platforms| == |w.level.platforms|
    ensures r.Some? ==> r.value.octopus.hSpeed == w.octopus.hSpeed && r.value.octopus.floor == w.octopus.floor
    // a bounce moves the octopus but not its rectangle
    ensures r.Some? ==> (r.value.blocked.None? <==> Synced(r.value.octopus))
    // impulses never outlive the tick that spends them
    ensures r.Some? && IsVerticalSpeed(w.octopus.vSpeed) ==> IsSettledSpeed(r.value.octopus.vSpeed)
    ensures r.Some? && w.frameCounter <= MaxIters ==> r.value.frameCounter <= MaxIters
    ensures r.Some? && InRange(w.backdrop, win.width) && 0 <= w.octopus.hSpeed <= 2 * win.width ==>
              InRange(r.value.backdrop, win.width)
    ensures r.Some? && Seamless(w.backdrop, win.width) && 0 <= w.octopus.hSpeed <= win.width ==>
              Seamless(r.value.backdrop, win.width)
  {
    if input.quit || input.escape {
      return None;
    }
    var steered := Steer(w.octopus, input);
    var world := EdgeWrap(w.(octopus := steered), win);
    assert |world.level.platforms| == |w.level.platforms|;
    assert |world.level.collectibles| == |w.level.collectibles|;
    assert world.octopus.vSpeed == steered.vSpeed;
    var p := Fall(ClampVertical(world.octopus, win));
    var step := AnimationStep(world.frameCounter);
    var level, score, wall := DetectCollisions(world.level, p.rect, world.score, overlaps);
    var q := Bounce(p, input, wall);
    r := Some(World(q, level, score, world.backdrop, step.0, wall));
  }
}
