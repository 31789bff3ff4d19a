/**
 The obstacle ("flower") entity of the butterfly game and the spawner that
 creates flowers in top/bottom pairs with a random gap position.
 */
module Flowers {

  /** Vertical gap, in pixels, between the top and the bottom petal of a pair. */
  const Gap: real := 160.0
  /** Milliseconds that must pass, strictly, between two spawned pairs. */
  const SpawnInterval: int := 2000

  /** One obstacle. `height` doubles as the "already scored" mark (see Lifecycle.ScoredMark). */
  datatype Flower = Flower(id: int, top: real, left: real, height: real, isTop: bool)

  /**
   The top petal's height for a random draw `rand` from [0, 1): the draw is
   scaled into [10%, 50%) of the play-area height.
   */
  function TopHeight(gameHeight: real, rand: real): (h: real)
    requires 0.0 <= gameHeight
    requires 0.0 <= rand < 1.0
    ensures 0.1 * gameHeight <= h <= 0.5 * gameHeight
    ensures 0.0 < gameHeight ==> h < 0.5 * gameHeight
  {
    var minHeight := gameHeight * 0.1;
    var maxHeight := gameHeight * 0.5;
    Scale(rand, maxHeight - minHeight) + minHeight
  }

  /** `Math.random() * span`: a fraction from [0, 1) of a non-negative span lies within [0, span], strictly below when span > 0. */
  function Scale(fraction: real, span: real): (r: real)
    requires 0.0 <= fraction < 1.0 && 0.0 <= span
    ensures 0.0 <= r <= span
    ensures 0.0 < span ==> r < span
  {
    var rest := (1.0 - fraction) * span;
    assert rest >= 0.0 && (0.0 < span ==> rest > 0.0);
    assert fraction * span == span - rest;
    fraction * span
  }

  lemma QuotientBelowOne(a: real, b: real)
    requires 0.0 <= a < b
    ensures 0.0 <= a / b < 1.0
  {
  }

  /** The bottom petal fills what the top petal and the gap leave of the play area. */
  function BottomHeight(gameHeight: real, topHeight: real): real
  {
    gameHeight - topHeight - Gap
  }

  /**
   The pair appended by one spawn: top petal first, then bottom petal, both at
   the right edge of the play area, with the consecutive ids `nextId` and
   `nextId + 1`.
   */
  function SpawnPair(nextId: int, gameWidth: real, gameHeight: real, topHeight: real): (pair: seq<Flower>)
    ensures |pair| == 2
    ensures pair[0].isTop && !pair[1].isTop
    ensures pair[0].id == nextId && pair[1].id == nextId + 1
    ensures pair[0].left == gameWidth && pair[1].left == gameWidth
    ensures pair[0].top == 0.0 && pair[0].height == topHeight
    ensures pair[0].height + Gap + pair[1].height == gameHeight
    ensures pair[1].top == pair[0].top + pair[0].height + Gap
    ensures pair[1].top + pair[1].height == gameHeight
  {
    var topFlower := Flower(nextId, 0.0, gameWidth, topHeight, true);
    var bottomFlower := Flower(nextId + 1, topHeight + Gap, gameWidth, BottomHeight(gameHeight, topHeight), false);
    [topFlower, bottomFlower]
  }

  /** A play area at least 320 pixels high always leaves room for a bottom petal. */
  lemma BottomPetalFits(gameHeight: real, rand: real)
    requires 320.0 <= gameHeight
    requires 0.0 <= rand < 1.0
    ensures BottomHeight(gameHeight, TopHeight(gameHeight, rand)) > 0.0
  {
  }

  /**
   Conversely, in a play area lower than 320 pixels some random draw leaves
   the bottom petal with no height at all (or a negative one): the spawner
   does not clamp it.
   */
  lemma BottomPetalCanVanish(gameHeight: real) returns (rand: real)
    requires 0.0 <= gameHeight < 320.0
    ensures 0.0 <= rand < 1.0
    ensures BottomHeight(gameHeight, TopHeight(gameHeight, rand)) <= 0.0
  {
    if 0.9 * gameHeight <= Gap {
      rand := 0.0;
    } else {
      // the draw that makes the bottom petal exactly zero high
      var span := 0.4 * gameHeight;
      rand := (0.9 * gameHeight - Gap) / span;
      QuotientBelowOne(0.9 * gameHeight - Gap, span);
    }
  }
}
