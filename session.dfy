/**
 The game session: the state the butterfly game keeps between interval
 firings, and the three things that change it: a flap, a tick of the main
 loop, and a reset.
 */
module Session {
  import opened Flowers
  import opened Lifecycle
  import opened Collision

  /** Added to the velocity every tick, in pixels per tick. */
  const Gravity: real := 0.5
  /** The velocity a flap sets, in pixels per tick (negative is upwards). */
  const FlapStrength: real := -10.0
  /** The player's vertical position at the start and after a reset. */
  const InitialPosition: real := 250.0
  /**
   A tick that starts with at least this score freezes the game and shows the
   message (the code's value; a nearby comment speaks of 10 points).
   */
  const Milestone: nat := 26

  /** The player's vertical motion. */
  datatype Motion = Motion(position: real, velocity: real)

  /** `n` ticks of free fall: each moves by the velocity held before the tick, then adds gravity. */
  function Fall(m: Motion, n: nat): Motion
    decreases n
  {
    if n == 0 then m
    else Fall(Motion(m.position + m.velocity, m.velocity + Gravity), n - 1)
  }

  /**
   Closed form of free fall: after `n` ticks the velocity has grown by
   Gravity * n and the position by the sum of the n velocities it started the
   ticks with.
   */
  lemma {:induction false} FallClosedForm(m: Motion, n: nat)
    decreases n
    ensures Fall(m, n).velocity == m.velocity + Gravity * (n as real)
    ensures Fall(m, n).position == m.position + (n as real) * m.velocity + 0.25 * (n as real) * ((n as real) - 1.0)
  {
    if n > 0 {
      var next := Motion(m.position + m.velocity, m.velocity + Gravity);
      FallClosedForm(next, n - 1);
      var k := (n - 1) as real;
      assert (n as real) == k + 1.0;
      assert 0.25 * (k + 1.0) * k == 0.5 * k + 0.25 * k * (k - 1.0);
      assert k * (m.velocity + 0.5) == k * m.velocity + 0.5 * k;
    }
  }

  /** Twenty ticks of free fall from rest: velocity 10, and the player has moved 95 pixels down. */
  lemma TwentyTicksFromRest(position: real)
    ensures Fall(Motion(position, 0.0), 20) == Motion(position + 95.0, 10.0)
  {
    FallClosedForm(Motion(position, 0.0), 20);
  }

  /** A new pair is due when strictly more than SpawnInterval ms passed since the last spawn. */
  predicate SpawnDue(now: int, lastSpawn: int)
  {
    now - lastSpawn > SpawnInterval
  }

  /** The flower list a tick starts moving: the old list, plus a new pair when one is due. */
  function WithSpawn(flowers: seq<Flower>, nextId: int, lastSpawn: int, now: int,
                     gameWidth: real, gameHeight: real, rand: real): seq<Flower>
    requires 0.0 <= gameHeight && 0.0 <= rand < 1.0
  {
    if SpawnDue(now, lastSpawn)
    then flowers + SpawnPair(nextId, gameWidth, gameHeight, TopHeight(gameHeight, rand))
    else flowers
  }

  /**
   What the flower list of a session always satisfies: whole pairs with
   ascending ids below the id counter, every top flower past the scoring line
   already scored.
   */
  predicate WellFormed(fs: seq<Flower>, nextId: int)
  {
    PairChain(fs, 0, nextId) && ScoredPastLine(fs)
  }

  /** The flower-list part of a tick (spawn, move and expire, score) keeps the list well formed. */
  lemma TickKeepsWellFormed(flowers: seq<Flower>, nextId: nat, lastSpawn: int, now: int,
                            gameWidth: real, gameHeight: real, rand: real)
    requires 0.0 <= gameHeight && 0.0 <= rand < 1.0
    requires WellFormed(flowers, nextId)
    ensures WellFormed(MarkAll(MoveAndExpire(WithSpawn(flowers, nextId, lastSpawn, now, gameWidth, gameHeight, rand))),
                       if SpawnDue(now, lastSpawn) then nextId + 2 else nextId)
  {
    var spawned := WithSpawn(flowers, nextId, lastSpawn, now, gameWidth, gameHeight, rand);
    var newNextId := if SpawnDue(now, lastSpawn) then nextId + 2 else nextId;
    if SpawnDue(now, lastSpawn) {
      var pair := SpawnPair(nextId, gameWidth, gameHeight, TopHeight(gameHeight, rand));
      SpawnPairChain(nextId, gameWidth, gameHeight, TopHeight(gameHeight, rand));
      PairChainAppend(flowers, pair, 0, nextId, nextId + 2);
    }
    var moved := MoveAndExpire(spawned);
    PairChainMoveAndExpire(spawned, 0, newNextId);
    PairChainMarkAll(moved, 0, newNextId);
    MarkAllScoresPastLine(moved);
  }

  class GameSession {
    var started: bool
    var over: bool
    var frozen: bool
    var showMessage: bool
    var position: real
    var velocity: real
    var score: nat
    var flowers: seq<Flower>
    var nextId: nat
    var lastSpawn: int

    /** The session invariant every operation keeps. */
    ghost predicate Valid()
      reads this
    {
      && showMessage == frozen
      && (over || frozen ==> started)
      && WellFormed(flowers, nextId)
    }

    /** The main loop only runs in this state. */
    predicate Running()
      reads this
    {
      started && !over && !frozen
    }

    /** The state of a fresh or just reset session (the id counter aside). */
    predicate Idle()
      reads this
    {
      && !started && !over && !frozen && !showMessage
      && position == InitialPosition && velocity == 0.0
      && score == 0 && flowers == [] && lastSpawn == 0
    }

    constructor ()
      ensures Valid() && Idle() && nextId == 0
    {
      started, over, frozen, showMessage := false, false, false, false;
      position, velocity := InitialPosition, 0.0;
      score, flowers, nextId, lastSpawn := 0, [], 0, 0;
    }

    /**
     A tap or the space bar: starts the game if it was not started, then sets
     the flap velocity unless the game is frozen (also after a loss).
     */
    method Flap()
      requires Valid()
      modifies this
      ensures Valid()
      ensures started
      ensures velocity == if old(frozen) then old(velocity) else FlapStrength
      ensures over == old(over) && frozen == old(frozen) && showMessage == old(showMessage)
      ensures position == old(position) && score == old(score)
      ensures flowers == old(flowers) && nextId == old(nextId) && lastSpawn == old(lastSpawn)
    {
      if !started {
        started := true;
      }
      if frozen {
        return;
      }
      velocity := FlapStrength;
    }

    /**
     Back to the start screen from any state. The id counter is not reset, so
     ids are never reused. Resetting an idle session changes nothing.
     */
    method Reset()
      requires Valid()
      modifies this
      ensures Valid() && Idle()
      ensures nextId == old(nextId)
      ensures old(Idle()) ==> unchanged(this)
    {
      assert WellFormed([], nextId);
      position := InitialPosition;
      velocity := 0.0;
      flowers := [];
      score := 0;
      over := false;
      started := false;
      frozen := false;
      showMessage := false;
      lastSpawn := 0;
    }

    /**
     One firing of the main-loop interval. `now` is the clock, `rand` the random
     draw in [0, 1), `gameWidth`/`gameHeight` the play area's client size and
     `player`/`area` the bounding rects of the butterfly and the play area as
     measured before this tick. The loop only runs while the game is running.
     */
    method Tick(now: int, gameWidth: real, gameHeight: real, rand: real, player: Rect, area: Rect)
      requires Valid()
      requires 0.0 <= gameHeight && 0.0 <= rand < 1.0
      modifies this
      ensures Valid()
      ensures !old(Running()) ==> unchanged(this)
      ensures old(Running()) ==> Ticked(now, gameWidth, gameHeight, rand, player, area)
    {
      if started && !over && !frozen {
        RunTick(now, gameWidth, gameHeight, rand, player, area);
      }
    }

    /**
     What a running tick does: the position moves by the velocity held before
     the tick and gravity is added to the velocity; a pair is spawned when one
     is due; the list is moved, expired and scored; the player is tested
     against the flowers as they were before the tick; and the score before
     the tick decides the milestone.
     */
    twostate predicate Ticked(now: int, gameWidth: real, gameHeight: real, rand: real, player: Rect, area: Rect)
      reads this
      requires 0.0 <= gameHeight && 0.0 <= rand < 1.0
    {
      var due := SpawnDue(now, old(lastSpawn));
      var spawned := WithSpawn(old(flowers), old(nextId), old(lastSpawn), now, gameWidth, gameHeight, rand);
      && velocity == old(velocity) + Gravity
      && position == old(position) + old(velocity)
      && Motion(position, velocity) == Fall(Motion(old(position), old(velocity)), 1)
      && lastSpawn == (if due then now else old(lastSpawn))
      && nextId == (if due then old(nextId) + 2 else old(nextId))
      && flowers == MarkAll(MoveAndExpire(spawned))
      && score == old(score) + Points(MoveAndExpire(spawned))
      && started
      && over == Collides(player, area, old(flowers))
      && frozen == (old(score) >= Milestone)
      && showMessage == frozen
    }

    method RunTick(now: int, gameWidth: real, gameHeight: real, rand: real, player: Rect, area: Rect)
      requires Valid() && Running()
      requires 0.0 <= gameHeight && 0.0 <= rand < 1.0
      modifies this
      ensures Valid()
      ensures Ticked(now, gameWidth, gameHeight, rand, player, area)
    {
      // spawn a pair when one is due
      var spawned, newNextId, newLastSpawn := flowers, nextId, lastSpawn;
      if SpawnDue(now, lastSpawn) {
        newLastSpawn := now;
        spawned := flowers + SpawnPair(nextId, gameWidth, gameHeight, TopHeight(gameHeight, rand));
        newNextId := nextId + 2;
      }
      assert spawned == WithSpawn(flowers, nextId, lastSpawn, now, gameWidth, gameHeight, rand);
      TickKeepsWellFormed(flowers, nextId, lastSpawn, now, gameWidth, gameHeight, rand);

      // move left and drop the off-screen flowers, then score the crossing top flowers
      var moved := MoveAndExpire(spawned);

      // collide against the flowers as they were before this tick
      var hit := DetectCollision(player, area, flowers);

      // the position moves by the velocity before this tick's gravity;
      // the milestone looks at the score before this tick
      var reached := score >= Milestone;
      assert WellFormed(MarkAll(moved), newNextId);
      position, velocity, flowers, score, nextId, lastSpawn, over, frozen, showMessage :=
        position + velocity, velocity + Gravity, MarkAll(moved), score + Points(moved), newNextId, newLastSpawn,
        hit, reached, reached;
    }
  }
}
