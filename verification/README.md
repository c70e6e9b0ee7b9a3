# Octopus platformer: movement, level and tick rules in Dafny

This project models the non-rendering logic of `octopus.py`, a small pygame
platformer prototype. It covers three parts:

- **The octopus** (`PlayerMotion`). This is `class Octopus`: position `(x, y)`,
  speed `[hSpeed, vSpeed]`, floor, collision rectangle, and the movement
  primitives `fall`, `move_left` and `move_right`. The vertical speed only
  ever takes the values 10 (gravity), -10 (jump), 2 (ceiling bounce),
  -2 (floor bounce) and 0 (rest).
- **The level** (`LevelWorld`). This is `class Level`: the split of a level's
  entities into platforms and collectibles, `shift_world`, and
  `detect_collisions`.
  - The game state's score is passed in and returned explicitly.
  - pygame's rectangle-overlap test is the parameter `overlaps`, and the
    model assumes nothing about it.
- **The game loop** (`GameLoop`, with `Scrolling` for the two background
  offsets). These are the per-tick rules of `main`: the input priority,
  the screen-edge wrap, the vertical clamp, `fall`, the animation counter,
  collision detection, and the bounce after a blocked move. `Tick` puts
  them together in the source's order.

Every operation is a pure function, or a method over immutable values.
The entity groups are sequences kept in insertion order.

Two behaviours of the code are worth stating plainly:

- With LEFT and RIGHT both held, the octopus moves left, because the
  `elif` chain at octopus.py:210-217 tests LEFT first
  (`GameLoop.LeftBeatsRight`).
- The comment at octopus.py:197 says the image changes every `max_iters`
  (3) iterations. But `iters` resets only when it equals 3, so the image
  cycles advance every fourth tick (`GameLoop.ImagesAdvanceEveryFourthTick`).
  The displayed image is reassigned only at octopus.py:213, 217, 277 and 280,
  so with no key held it does not change.

## Model

| member | source | states |
|---|---|---|
| PlayerMotion.NewOctopus | octopus.py:14-44 | The octopus starts at `(int(.15*w), 15)` with its rectangle on that point. Its speed is `[15, 10]` and it faces right. Its floor is the window height minus the sprite height. |
| PlayerMotion.Fall | octopus.py:46-56 | `y` advances by the old vertical speed. A jump (-10) or ceiling bounce (2) reverts to gravity 10. Otherwise, reaching the floor pins `y` at `floor - 2` with speed 0. The rectangle follows `(x, y)`, and only `y`, the speed and the rectangle change. Unless an impulse was spent, the octopus ends above its floor. Each of the five speeds leads to 10, 0 or -2. |
| PlayerMotion.MoveLeft | octopus.py:58-62 | `x` decreases by `speed[0]`. The rectangle follows `(x, y)`. Nothing else changes. |
| PlayerMotion.MoveRight | octopus.py:64-68 | `x` increases by `speed[0]`. The rectangle follows `(x, y)`. Nothing else changes. |
| PlayerMotion.MoveRoundTrip | octopus.py:58-68 | A left move then a right move (in either order) gives back the state with its rectangle resynced. The pair is the identity exactly when the rectangle was already on `(x, y)`. |
| PlayerMotion.FallFixpoint | octopus.py:46-56 | `fall` leaves the state unchanged if and only if the octopus is synced, at speed 0 and above its floor. Resting at `floor - 2` is such a fixpoint. |
| PlayerMotion.FreeFall | octopus.py:46-56 | Under gravity, `n` ticks drop the octopus by exactly `10 * n` pixels while that stays above the floor. The speed stays 10. |
| PlayerMotion.StaysAtRest | octopus.py:46-56 | A resting, synced octopus above its floor stays unchanged however many ticks of `fall` run. |
| PlayerMotion.Landing | octopus.py:46-56 | Any number of gravity ticks that reaches the floor leaves the octopus resting at `floor - 2` with speed 0. Its `x` is unchanged and its rectangle is synced. |
| LevelWorld.FixedEntities | octopus.py:96-100 | The platform group holds exactly the spec entities with `is_fixed` set. |
| LevelWorld.LooseEntities | octopus.py:96-100 | The collectible group holds exactly the spec entities without `is_fixed`. |
| LevelWorld.SplitIsPartition | octopus.py:96-100 | As multisets, the two groups together equal the level specification: nothing is lost or duplicated. |
| LevelWorld.BuildLevel | octopus.py:83-100 | A new level starts with world shift 0. Its platforms are all fixed and its collectibles all loose, each group in spec order. Together they partition the spec. |
| LevelWorld.ShiftWorld | octopus.py:115-127 | The world shift and every platform's and collectible's `rect.x` move by `dx`. Nothing else changes. |
| LevelWorld.ShiftWorldComposes | octopus.py:115-127 | Two shifts equal one shift by their sum. So `shift_world(d)` followed by `shift_world(-d)` is the identity. |
| LevelWorld.Hits | octopus.py:141 | The collectibles killed by the collision test are exactly the group members that overlap the player. |
| LevelWorld.Misses | octopus.py:141 | The collectibles that survive are exactly the group members that do not overlap the player. |
| LevelWorld.HitsAndMissesPartition | octopus.py:141-144 | Every collectible is either removed or kept, never both. The two counts add up to the group's size. |
| LevelWorld.LastWall | octopus.py:132-149 | The result is `None` iff no platform overlaps the player. Otherwise it is `(top, left+width, top+height, left)` of an overlapping platform that no later platform overlaps. |
| LevelWorld.CollidePlatforms | octopus.py:132-139 | The loop, which overwrites the wall tuple for each overlapping platform, ends with the last overlapping platform's tuple. |
| LevelWorld.CollectItems | octopus.py:141-144 | The loop keeps the non-overlapping collectibles in order. It adds one to the score per removed collectible. |
| LevelWorld.DetectCollisions | octopus.py:129-149 | The platforms and the world shift are unchanged. Exactly the overlapping collectibles are removed. The score rises by the number removed. The result is the last overlapping platform's wall tuple, or `None`. |
| Scrolling.InitialBackdrop | octopus.py:184-187 | The starting offsets `0` and `w` put the two copies edge to edge, covering the whole window. |
| Scrolling.SeamlessCoversWindow | octopus.py:255-256 | Two copies within `[-w, w]` that abut paint every column of the window. |
| Scrolling.PanRightAsWritten | octopus.py:225-230 | The source's left-threshold update keeps both offsets in `[-w, w]` for any speed `>= 0`. Each offset either moves by `+speed` or becomes `-w`. |
| Scrolling.PanLeftAsWritten | octopus.py:234-239 | The source's right-threshold update keeps both offsets in `[-w, w]` for any speed `>= 0`. Each offset either moves by `-speed` or becomes `w`. |
| Scrolling.AsWrittenOpensGap | octopus.py:225-239 | Take an 800-pixel background at its starting layout and one wrap step of 15. The source's update leaves columns 0 to 14 unpainted. The mirrored step from `(-800, 0)` leaves columns 785 to 799 unpainted. |
| Scrolling.AsWrittenBreaksSeam | octopus.py:225-230 | Whenever a copy wraps, the source's update leaves abutting copies no longer abutting. |
| Scrolling.AsWrittenLeftBreaksSeam | octopus.py:234-239 | Whenever a copy wraps at the right threshold, the source's update leaves abutting copies no longer abutting. |
| Scrolling.PanRight | octopus.py:225-230 | Wrapping by `2w` keeps offsets in `[-w, w]` for speeds up to `2w`. It keeps abutting copies abutting for speeds up to `w`. |
| Scrolling.PanLeft | octopus.py:234-239 | The mirror of `PanRight`: offsets stay in `[-w, w]`, and abutting copies stay abutting. |
| GameLoop.StartWorld | octopus.py:183-196 | The loop starts with score 0, counter 0, no collision, and abutting background copies. |
| GameLoop.Steer | octopus.py:210-219 | LEFT moves left and faces left. Otherwise RIGHT moves right and faces right. Otherwise `x`, the facing and the rectangle stay. UP sets the speed to -10, independently of the horizontal keys. |
| GameLoop.LeftBeatsRight | octopus.py:210-217 | Holding LEFT and RIGHT together is the same as holding LEFT alone. |
| GameLoop.EdgeWrap | octopus.py:221-239 | At or left of the left threshold, the octopus and the world shift both move by `+speed`. Otherwise, if the octopus's right side reaches the right threshold, both move by `-speed`. Otherwise nothing changes. Every entity moves exactly as far as the octopus, so the octopus keeps its place in the level. With the corrected background wrap (see Findings), the offsets stay in `[-w, w]` and abutting copies stay abutting. |
| GameLoop.ClampVertical | octopus.py:241-245 | `y <= 0` sets the speed to 2. Otherwise, the bottom edge at or below the window's bottom sets it to -2. Only the speed changes. |
| GameLoop.CeilingBounceLastsOneTick | octopus.py:241-253 | After a ceiling bounce and one `fall`, the octopus is 2 pixels lower and back at gravity speed. |
| GameLoop.Bounce | octopus.py:271-285 | This applies only after a platform collision. LEFT gives `x += 20`; otherwise RIGHT gives `x -= 30`. UP gives `y += 20`; otherwise `y -= 50`. The rectangle and speeds are untouched. |
| GameLoop.BounceLeftBeatsRight | octopus.py:275-280 | In the bounce, holding LEFT and RIGHT together is the same as holding LEFT alone, and a bounce with LEFT held moves the octopus right when it is blocked. |
| GameLoop.AnimationStep | octopus.py:259-264 | The cycles advance exactly when the counter equals 3. The counter then counts modulo 4. |
| GameLoop.ImagesAdvanceEveryFourthTick | octopus.py:196-264 | After `n` ticks the counter is `n mod 4`, so the two image cycles advance on ticks 4, 8, 12, and so on. |
| GameLoop.Tick | octopus.py:198-285 | ESC or a quit event ends the process. Otherwise the score rises by exactly the number of collectibles removed, and the platforms keep their count. The rectangle is on `(x, y)` iff no platform blocked the octopus. Each of the five speeds leads to 10, 0 or -2. The counter stays in 0..3. With the corrected background wrap of `Scrolling.PanRight` / `Scrolling.PanLeft` (see Findings), the offsets stay in `[-w, w]` and abutting copies stay abutting; the source's own wrap breaks the seam on the first wrap (`Scrolling.AsWrittenBreaksSeam`). |

## Left out

- Rendering and timing are not modelled: `draw`, `draw_score`, `screen.blit`, `pygame.display`, `clock.tick`, `print`, and image and font loading.
- Event polling is not modelled. Each tick's key state and quit event arrive as the `Input` booleans.
- The image cycles (`imageList.CircularLinkedList`, with `set_current` and `update_current`) are not part of this model. Their source is not available. The model keeps which cycle is on display (`Facing`) and when both cycles advance (`AnimationStep`).
- The level specifications (`LEVELS_SPEC`) and the entity classes are not part of this model. Entities are a rectangle plus `is_fixed`. Their `update` and `collision_detected` hooks are no-ops, so `Level.update` and `Level.draw` are left out.
- pygame's `Group.add` ignores a sprite object that is already in the group. The model treats every entry of a level specification as a distinct entity.
- pygame's overlap test (`spritecollide` / `colliderect`) is the `overlaps` parameter and is not defined.
- `current_level_index` is read once, at octopus.py:193, to pick the first level from `level_list`; it is never changed after its default at octopus.py:153. `GameLoop.StartWorld` takes that chosen level as its `level` parameter, and the other levels of `level_list` are left out.
- `level_limit`, `end_level`, `finished` and the module-level `score` are left out. They are set but never read by the logic.
- The float-derived values `int(.1*w)`, `int(.9*w)` and `int(.15*w)` are integer parameters: `Window.leftEdge`, `Window.rightEdge` and `NewOctopus`'s `startX`.
- pygame stores `Rect` coordinates as C integers. The model uses unbounded integers.
- GameLoop.EdgeWrap: the background offsets use the corrected wrap `Scrolling.PanRight` / `Scrolling.PanLeft` (see Findings), not the source's snap to `∓w`. Player and world movement follow the source exactly.
- GameLoop.Tick: its background offsets follow the corrected wrap `Scrolling.PanRight` / `Scrolling.PanLeft`, not the source's snap to `∓w` at octopus.py:227-239, so its seam and range facts are properties of the fix; for the source's wrap only the range holds (`Scrolling.PanRightAsWritten`, `Scrolling.PanLeftAsWritten`) and the seam breaks (`Scrolling.AsWrittenBreaksSeam`, `Scrolling.AsWrittenLeftBreaksSeam`). The range and seam facts also assume `0 <= speed[0] <= w`; the source never changes `speed[0]` from 15, and the model does not pin it to 15.
- Group iteration order: the model takes a pygame group to iterate its sprites in insertion order. pygame iterates `list(self.spritedict)`, which keeps insertion order only on Python 3.7 and later; `LevelWorld.LastWall`'s "last" platform depends on this.

## Findings

| source | as written | input that shows it | evidently intended | confidence | as-written member | corrected member |
|---|---|---|---|---|---|---|
| octopus.py:225-230 | An offset that passes `w` is set to `-w`, which drops the overshoot. | `w = 800`, speed 15, offsets `(0, 800)` at the left threshold give `(15, -800)`. Columns 0 to 14 are painted by neither copy. | Wrap by a full period `2w`, so the two copies keep abutting and the background tiles seamlessly. | medium; not executed | Scrolling.PanRightAsWritten | Scrolling.PanRight |
| octopus.py:234-239 | An offset that passes `-w` is set to `w`, which drops the overshoot. | `w = 800`, speed 15, offsets `(-800, 0)` at the right threshold give `(800, -15)`. Columns 785 to 799 are painted by neither copy. | Wrap by a full period `2w`. | medium; not executed | Scrolling.PanLeftAsWritten | Scrolling.PanLeft |
