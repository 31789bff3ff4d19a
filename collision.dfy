/**
 The collision test of one tick: the player's box against the play area's
 edges and against each flower's forgiving hitbox.
 */
module Collision {
  import opened Flowers
  import opened Lifecycle

  /** A screen rectangle, edges in pixels, as a bounding client rect gives them. */
  datatype Rect = Rect(left: real, top: real, right: real, bottom: real)

  /** Width of every flower box. */
  const FlowerWidth: real := 80.0
  /** The hitbox is the flower box shrunk by this much on every side. */
  const Shrink: real := 10.0

  /** The flower's hitbox in screen coordinates: its box placed in the area, shrunk by Shrink. */
  function Hitbox(area: Rect, f: Flower): (box: Rect)
    ensures box.right - box.left == FlowerWidth - 2.0 * Shrink
    ensures box.bottom - box.top == f.height - 2.0 * Shrink
  {
    var fLeft := f.left + area.left;
    var fTop := f.top + area.top;
    Rect(fLeft + Shrink, fTop + Shrink, fLeft + FlowerWidth - Shrink, fTop + f.height - Shrink)
  }

  /** Strict overlap on both axes: boxes that share only an edge do not overlap. */
  predicate Overlaps(p: Rect, b: Rect)
  {
    p.right > b.left && p.left < b.right && p.bottom > b.top && p.top < b.bottom
  }

  /** The player pokes above the ceiling or below the floor of the area. */
  predicate OutOfBounds(player: Rect, area: Rect)
  {
    player.top < area.top || player.bottom > area.bottom
  }

  predicate HitsFlower(player: Rect, area: Rect, f: Flower)
  {
    Overlaps(player, Hitbox(area, f))
  }

  /** The game is lost when the player is out of bounds or overlaps any flower's hitbox. */
  predicate Collides(player: Rect, area: Rect, flowers: seq<Flower>)
  {
    OutOfBounds(player, area) || exists i :: 0 <= i < |flowers| && HitsFlower(player, area, flowers[i])
  }

  /**
   The collision pass as the tick runs it: the bounds test, then every flower
   in turn; any hit sets the flag, and no hit clears it.
   */
  method DetectCollision(player: Rect, area: Rect, flowers: seq<Flower>) returns (hit: bool)
    ensures hit <==> Collides(player, area, flowers)
  {
    hit := false;
    if player.top < area.top || player.bottom > area.bottom {
      hit := true;
    }
    var i := 0;
    while i < |flowers|
      invariant 0 <= i <= |flowers|
      invariant hit <==> OutOfBounds(player, area) || exists j :: 0 <= j < i && HitsFlower(player, area, flowers[j])
    {
      var f := flowers[i];
      var fLeft := f.left + area.left;
      var fTop := f.top + area.top;
      var fRect := Rect(fLeft + Shrink, fTop + Shrink, fLeft + FlowerWidth - Shrink, fTop + f.height - Shrink);
      if player.right > fRect.left && player.left < fRect.right && player.bottom > fRect.top && player.top < fRect.bottom {
        hit := true;
      }
      i := i + 1;
    }
  }

  /** A player box that only touches a hitbox edge does not hit the flower. */
  lemma TouchingIsNoHit(player: Rect, area: Rect, f: Flower)
    requires var box := Hitbox(area, f);
      player.right == box.left || player.left == box.right ||
      player.bottom == box.top || player.top == box.bottom
    ensures !HitsFlower(player, area, f)
  {
  }

  /**
   Shrinking only the flower box by 10 on every side is the same as shrinking
   both boxes by 5: the forgiving margin can be split between player and flower.
   */
  lemma ShrinkSplits(player: Rect, area: Rect, f: Flower)
    ensures HitsFlower(player, area, f) <==>
      Overlaps(Rect(player.left + Shrink / 2.0, player.top + Shrink / 2.0, player.right - Shrink / 2.0, player.bottom - Shrink / 2.0),
               Rect(f.left + area.left + Shrink / 2.0, f.top + area.top + Shrink / 2.0,
                    f.left + area.left + FlowerWidth - Shrink / 2.0, f.top + area.top + f.height - Shrink / 2.0))
  {
  }

  /**
   A scored top flower (height ScoredMark, hanging from the ceiling) has an
   inverted hitbox: it can only register a hit when the player is already out
   of bounds, so it never changes the verdict.
   */
  lemma ScoredTopFlowerIsHarmless(player: Rect, area: Rect, flowers: seq<Flower>, k: nat)
    requires k < |flowers| && flowers[k].top == 0.0 && flowers[k].height == ScoredMark
    ensures Collides(player, area, flowers) <==>
      Collides(player, area, flowers[..k] + flowers[k + 1..])
  {
    var rest := flowers[..k] + flowers[k + 1..];
    if !OutOfBounds(player, area) {
      assert !HitsFlower(player, area, flowers[k]);
      if j :| 0 <= j < |flowers| && HitsFlower(player, area, flowers[j]) {
        assert j != k;
        if j < k {
          assert rest[j] == flowers[j];
        } else {
          assert rest[j - 1] == flowers[j];
        }
      }
      if j :| 0 <= j < |rest| && HitsFlower(player, area, rest[j]) {
        if j < k {
          assert rest[j] == flowers[j];
        } else {
          assert rest[j] == flowers[j + 1];
        }
      }
    }
  }
}
