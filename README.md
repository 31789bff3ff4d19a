# Butterfly game session, modelled in Dafny

The butterfly game is a one-screen "flappy" game. A butterfly falls under
gravity and flaps upwards on a tap or the space bar. Pairs of flowers (a top
petal and a bottom petal with a 160 px gap between them) scroll in from the
right. Each top flower that passes x = 100 scores one point. Overlapping a
flower's hitbox, or leaving the play area at the top or bottom, loses the game.
A tick that starts with a score of at least 26 freezes the game and sets the
flag that shows the anniversary message; if the same tick also collides, the
game-over screen is shown instead.

This project models the game session kept by the `ButterflyGame` component:

- `flowers.dfy` (module `Flowers`): the `Flower` record and the spawner. It
  draws the top-petal height from the random value and builds the pair.
- `lifecycle.dfy` (module `Lifecycle`): what a tick does to the flower list.
  Flowers move left by 5 and those at or beyond -100 are dropped (a map, then
  a filter). The scoring pass then marks each crossing top flower with height
  -1. It also holds the invariant that the list is a chain of whole pairs with
  ascending ids.
- `collision.dfy` (module `Collision`): the collision test. The player rect is
  checked against the area's ceiling and floor, then against each flower's box
  (80 wide, shrunk by 10 on every side, strict comparisons). `DetectCollision`
  is the loop over the flowers.
- `session.dfy` (module `Session`): the `GameSession` class. It has the fields
  of the component's state and refs and the methods `Flap`, `Reset` and `Tick`.
  `Tick` is the gate of the main-loop effect. `RunTick` is one firing of the
  interval body.

The clock (`Date.now`), the random draw (`Math.random`), the play area's client
width and height, and the bounding rects of the butterfly and the play area are
parameters of `Tick`. Numbers are exact `real`s, so gravity 0.5 is exact.

A tick reads the values from before the tick, as the interval closure does:

- the position moves by the velocity before gravity is added;
- the collision test uses the flower list from before the tick;
- the milestone uses the score from before the tick.

The list updates run in the order they are queued: append the new pair, then
move and filter, then score. A new pair has therefore already moved 5 px in the
tick that spawns it. One tick can set both `over` (collision) and `frozen`
(milestone); neither check clears the other's flag.

The model follows the code on these points, which are easy to misread:

- the position advances by the velocity from before the tick, not the one after;
- the milestone threshold is 26, although the comment above it says 10;
- a collision does not stop the rest of the tick, so the milestone check still
  runs in that tick;
- `resetGame` does not reset the id counter, so ids are never reused.

## Model

| member | source | states |
|---|---|---|
| `Flowers.TopHeight` | src/components/mainComponent.tsx:107-112 | For every random draw in [0, 1), the top petal's height lies in [10%, 50%] of the play-area height, strictly below 50% when the area has a height. It is built on `Flowers.Scale` |
| `Flowers.Scale` | src/components/mainComponent.tsx:112 | `Math.random() * span` for a draw in [0, 1) and a non-negative span lies in [0, span], strictly below span when span > 0 |
| `Flowers.SpawnPair` | src/components/mainComponent.tsx:113-129 | A spawn gives exactly two flowers, top then bottom, with ids `nextId` and `nextId + 1`, both at `left = gameWidth`. The top petal has `top = 0` and the drawn height. Top height + gap 160 + bottom height equals the area height, and the bottom petal reaches exactly to the floor |
| `Flowers.BottomPetalFits` | src/components/mainComponent.tsx:110-113 | In an area at least 320 px high, every random draw leaves the bottom petal a positive height |
| `Flowers.BottomPetalCanVanish` | src/components/mainComponent.tsx:110-113 | In an area lower than 320 px, some draw in [0, 1) gives a bottom petal with zero or negative height, because the height is not clamped |
| `Lifecycle.MoveAllAppend` | src/components/mainComponent.tsx:136-137 | The move works flower by flower: moving `a + b` gives moved `a` followed by moved `b` |
| `Lifecycle.MoveAllInjective` | src/components/mainComponent.tsx:136-137 | The move loses nothing: two lists that move to the same list were the same list |
| `Lifecycle.VisibleMembers` | src/components/mainComponent.tsx:138 | The filter keeps exactly the flowers with `left > -100` and never lengthens the list |
| `Lifecycle.VisibleAppend` | src/components/mainComponent.tsx:138 | The filter keeps relative order: filtering `a + b` gives the filtered `a` followed by the filtered `b` |
| `Lifecycle.MoveAndExpireSpec` | src/components/mainComponent.tsx:135-139 | After move-and-expire, every remaining flower is an old flower moved left by exactly 5 with nothing else changed, and has `left > -100`. An old flower survives if and only if its `left - 5 > -100` |
| `Lifecycle.MoveAndExpireAppend` | src/components/mainComponent.tsx:135-139 | Move-and-expire treats the two parts of a concatenated list separately, so relative order is kept |
| `Lifecycle.DriftOne` | src/components/mainComponent.tsx:135-139 | After n ticks, an on-screen flower is still present exactly when `left - 5n > -100`, at that position; once gone it does not come back |
| `Lifecycle.DropTick` | src/components/mainComponent.tsx:135-139 | An on-screen flower at `left` is dropped in tick ceil((left + 100) / 5): still present after the tick before, gone after that one |
| `Lifecycle.Mark` | src/components/mainComponent.tsx:143-148 | The scoring pass changes a flower only when it is a top flower with `left < 100` and height not -1. It then changes only the height, to -1 |
| `Lifecycle.MarkAllSparesOthers` | src/components/mainComponent.tsx:142-150 | The scoring pass returns bottom petals, flowers at or right of x = 100 and already-scored flowers unchanged, and never changes any flower's id, left, top or kind |
| `Lifecycle.MarkAllAppend` | src/components/mainComponent.tsx:142-150 | The scoring pass works flower by flower: scoring `a + b` gives scored `a` followed by scored `b`, in that order |
| `Lifecycle.PointsCountCrossing` | src/components/mainComponent.tsx:144-145 | The score rises by exactly the number of positions holding a top flower with `left < 100` and height not -1 |
| `Lifecycle.NoPointsAfterMark` | src/components/mainComponent.tsx:142-150 | A second scoring pass right after the first adds no points |
| `Lifecycle.MarkAllIdempotent` | src/components/mainComponent.tsx:142-150 | The scoring pass applied twice gives the same list as applied once |
| `Lifecycle.MarkAllScoresPastLine` | src/components/mainComponent.tsx:142-150 | After a scoring pass, every top flower left of x = 100 carries the scored mark |
| `Lifecycle.CrossingsAreFresh` | src/components/mainComponent.tsx:135-150 | Each flower scores only once. In a list where everything left of the line is marked, a flower that crosses after the next move was at or right of the line before it |
| `Lifecycle.PairChainIds` | src/components/mainComponent.tsx:116-129 | A chain of whole pairs has even length, strictly ascending (so unique) ids, and all ids within the chain's bounds |
| `Lifecycle.SpawnPairChain` | src/components/mainComponent.tsx:113-129 | A spawned pair is a whole pair: top then bottom, same left, consecutive ids, top hangs from the ceiling, bottom starts 160 below it |
| `Lifecycle.PairChainAppend` | src/components/mainComponent.tsx:131 | Appending a pair whose ids follow those already handed out keeps the list a chain of whole pairs |
| `Lifecycle.PairChainWiden` | src/components/mainComponent.tsx:117-124 | A chain whose ids lie within some bounds is still a chain for any wider bounds, so a counter that only grows keeps the invariant |
| `Lifecycle.PairChainMoveAndExpire` | src/components/mainComponent.tsx:135-139 | The two petals of a pair are moved and dropped together, so move-and-expire keeps the chain of whole pairs |
| `Lifecycle.PairChainMarkAll` | src/components/mainComponent.tsx:142-150 | Scoring keeps the chain of whole pairs |
| `Collision.Hitbox` | src/components/mainComponent.tsx:166-178 | A flower's hitbox is 60 wide (80 minus 2 x 10) and 20 less high than the flower |
| `Collision.DetectCollision` | src/components/mainComponent.tsx:152-189 | The loop reports a hit if and only if the player's top is above the area's top, or its bottom is below the area's bottom, or the player strictly overlaps `[left+gl+10, left+gl+70] x [top+gt+10, top+gt+height-10]` for some flower |
| `Collision.TouchingIsNoHit` | src/components/mainComponent.tsx:180-185 | A player box that only touches an edge of a hitbox does not hit the flower |
| `Collision.ShrinkSplits` | src/components/mainComponent.tsx:171-185 | Shrinking only the flower box by 10 on every side gives the same verdict as shrinking both boxes by 5 |
| `Collision.ScoredTopFlowerIsHarmless` | src/components/mainComponent.tsx:146 | A scored top flower (height -1) never changes the collision verdict: removing it from the list gives the same result |
| `Session.FallClosedForm` | src/components/mainComponent.tsx:94-95 | After n ticks without a flap, velocity = v + 0.5n and position = p + n·v + 0.25·n·(n-1), the sum of the velocities at the start of each tick |
| `Session.TwentyTicksFromRest` | src/components/mainComponent.tsx:94-95 | Twenty ticks from rest give velocity 10, with the player 95 px lower |
| `Session.TickKeepsWellFormed` | src/components/mainComponent.tsx:99-150 | Spawning, moving, expiring and scoring keep the list a chain of whole pairs with ids below the counter, and keep every top flower past the line scored |
| `Session.GameSession.constructor` | src/components/mainComponent.tsx:35-51 | A new session is idle: not started, position 250, velocity 0, score 0, no flowers, last spawn 0, id counter 0 |
| `Session.GameSession.Flap` | src/components/mainComponent.tsx:65-74 | A flap starts the game if needed. Velocity becomes -10 unless frozen, even after a loss. Nothing else changes |
| `Session.GameSession.Reset` | src/components/mainComponent.tsx:244-253 | From any state: position 250, velocity 0, no flowers, score 0, all four flags false, last spawn 0, id counter kept. Resetting an idle session changes nothing |
| `Session.GameSession.Tick` | src/components/mainComponent.tsx:89-92 | A tick changes nothing unless the game is started, not over and not frozen; otherwise it is `RunTick` |
| `Session.GameSession.RunTick` | src/components/mainComponent.tsx:92-196 | velocity' = velocity + 0.5 and position' = position + velocity, one step of the free fall `Fall` that `Session.FallClosedForm` solves. When `now - lastSpawn > 2000`, the pair is appended, lastSpawn' = now and the counter rises by 2; otherwise these stay. Flowers' = scored(move-and-expire(list)), and the score rises by that pass's points. over' = collision against the pre-tick flowers. frozen' = showMessage' = (pre-tick score >= 26) |

## Left out

- Rendering is not modelled: the JSX, the CSS classes, the start, game-over and message screens, and the twelve-picture slideshow are presentation only.
- DOM measurement is not modelled: `clientWidth`/`clientHeight` and `getBoundingClientRect` are parameters of `Tick`.
- The model assumes the play area and the butterfly are mounted. The source skips spawning and the collision test while its element references are still null; the model does not have that case.
- `Date.now` and `Math.random` are parameters. The random draw is required to lie in [0, 1), the range `Math.random` gives.
- Timer plumbing is not modelled: `setInterval`, `clearInterval`, and the effect re-subscribing whenever velocity, flowers or score change. One `Tick` call is one interval firing. It sees the state from before the tick, as the closure does when the component re-renders between firings.
- React's state batching is not modelled. The queued list updaters are applied in the order they are queued. A double call of updaters, as in development strict mode, is not modelled.
- Audio is not modelled: playing on the first flap (and ignoring a refused `play()`), pausing on game over, and rewinding on reset are calls into the browser.
- The keyboard listener is not modelled; it only calls `flap` on the space bar.
- Raindrops are not modelled. They are DOM decoration that never touches the game state.
- Floating point is not modelled: numbers are exact reals, so no rounding occurs.
- The build configuration has no logic and is not part of this model.
