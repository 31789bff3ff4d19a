/**
 What one tick does to the flower list: every flower moves left and the ones
 that have left the screen are dropped (a map, then a filter), and then the
 scoring pass marks each top flower that has crossed the scoring line.
 */
module Lifecycle {
  import opened Flowers

  /** Pixels every flower moves left per tick. */
  const Speed: real := 5.0
  /** A flower whose `left` is not greater than this is off-screen and dropped. */
  const ExpiryLeft: real := -100.0
  /** A top flower whose `left` is below this has been passed by the player. */
  const ScoringLine: real := 100.0
  /** The height a scored top flower is given, so that it is not scored twice. */
  const ScoredMark: real := -1.0

  // ---------------------------------------------------------------- moving

  /** One flower moved left by `Speed`; nothing else about it changes. */
  function Shift(f: Flower): Flower
  {
    f.(left := f.left - Speed)
  }

  /** The map step: every flower shifted, in place. */
  function MoveAll(fs: seq<Flower>): seq<Flower>
  {
    seq(|fs|, i requires 0 <= i < |fs| => Shift(fs[i]))
  }

  /** Moving works flower by flower: the move of `a + b` is the move of `a` followed by the move of `b`. */
  lemma MoveAllAppend(a: seq<Flower>, b: seq<Flower>)
    ensures MoveAll(a + b) == MoveAll(a) + MoveAll(b)
  {
  }

  /** No two different lists move to the same list: the move loses nothing about a flower. */
  lemma MoveAllInjective(a: seq<Flower>, b: seq<Flower>)
    requires MoveAll(a) == MoveAll(b)
    ensures a == b
  {
    assert |a| == |b|;
    forall i | 0 <= i < |a|
      ensures a[i] == b[i]
    {
      assert MoveAll(a)[i] == Shift(a[i]) && MoveAll(b)[i] == Shift(b[i]);
      assert Shift(a[i]).left == a[i].left - Speed && Shift(b[i]).left == b[i].left - Speed;
    }
  }

  predicate OnScreen(f: Flower)
  {
    f.left > ExpiryLeft
  }

  /** The filter step: the flowers still on screen, in their order. */
  function Visible(fs: seq<Flower>): seq<Flower>
  {
    if fs == [] then []
    else (if OnScreen(fs[0]) then [fs[0]] else []) + Visible(fs[1..])
  }

  /** Move, then filter, as one tick does to the list. */
  function MoveAndExpire(fs: seq<Flower>): seq<Flower>
  {
    Visible(MoveAll(fs))
  }

  /** Filtering distributes over concatenation: relative order is kept. */
  lemma {:induction false} VisibleAppend(a: seq<Flower>, b: seq<Flower>)
    ensures Visible(a + b) == Visible(a) + Visible(b)
  {
    if a == [] {
      assert a + b == b;
    } else {
      var ab := a + b;
      assert ab != [] && ab[0] == a[0];
      assert ab[1..] == a[1..] + b;
      assert Visible(ab) == (if OnScreen(a[0]) then [a[0]] else []) + Visible(a[1..] + b);
      VisibleAppend(a[1..], b);
    }
  }

  /** The filter keeps exactly the on-screen flowers. */
  lemma {:induction false} VisibleMembers(fs: seq<Flower>)
    ensures forall f :: f in Visible(fs) <==> f in fs && OnScreen(f)
    ensures |Visible(fs)| <= |fs|
  {
    if fs != [] {
      VisibleMembers(fs[1..]);
      assert fs == [fs[0]] + fs[1..];
    }
  }

  /**
   The move-and-expire step: every flower left has moved by exactly `Speed` and
   is otherwise one of the old flowers, and every old flower survives exactly
   when its moved position is still on screen (order: MoveAndExpireAppend).
   */
  lemma MoveAndExpireSpec(fs: seq<Flower>)
    ensures |MoveAndExpire(fs)| <= |fs|
    ensures forall g :: g in MoveAndExpire(fs) ==> g.left > ExpiryLeft && g.(left := g.left + Speed) in fs
    ensures forall f :: f in fs ==> (Shift(f) in MoveAndExpire(fs) <==> f.left - Speed > ExpiryLeft)
  {
    var moved := MoveAll(fs);
    VisibleMembers(moved);
    forall g | g in MoveAndExpire(fs)
      ensures g.(left := g.left + Speed) in fs
    {
      var i :| 0 <= i < |moved| && moved[i] == g;
      assert g.(left := g.left + Speed) == fs[i];
    }
    forall f | f in fs
      ensures Shift(f) in moved
    {
      var i :| 0 <= i < |fs| && fs[i] == f;
      assert moved[i] == Shift(f);
    }
  }

  /** Moving and expiring the concatenation of two lists treats each part on its own. */
  lemma MoveAndExpireAppend(a: seq<Flower>, b: seq<Flower>)
    ensures MoveAndExpire(a + b) == MoveAndExpire(a) + MoveAndExpire(b)
  {
    assert MoveAll(a + b) == MoveAll(a) + MoveAll(b);
    VisibleAppend(MoveAll(a), MoveAll(b));
  }

  /** `n` ticks of moving and expiring. */
  function Drift(fs: seq<Flower>, n: nat): seq<Flower>
    decreases n
  {
    if n == 0 then fs else Drift(MoveAndExpire(fs), n - 1)
  }

  /**
   A single on-screen flower stays on screen for as long as `left - Speed * n`
   is greater than ExpiryLeft, moved by `Speed` per tick, and is gone for good
   afterwards.
   */
  lemma {:induction false} DriftOne(f: Flower, n: nat)
    requires OnScreen(f)
    decreases n
    ensures Drift([f], n) == if f.left - Speed * (n as real) > ExpiryLeft
                             then [f.(left := f.left - Speed * (n as real))] else []
  {
    if n > 0 {
      var g := Shift(f);
      assert MoveAll([f]) == [g];
      assert [g][1..] == [] && Visible([]) == [];
      assert Visible([g]) == (if OnScreen(g) then [g] else []) + Visible([]);
      assert MoveAndExpire([f]) == if OnScreen(g) then [g] else [];
      if OnScreen(g) {
        DriftOne(g, n - 1);
        assert g.(left := g.left - Speed * ((n - 1) as real)) == f.(left := f.left - Speed * (n as real));
      } else {
        DriftEmpty(n - 1);
      }
    }
  }

  /**
   A flower on screen at `left` is dropped in tick ceil((left + 100) / 5):
   present after the tick before, gone after that one.
   */
  lemma DropTick(f: Flower, n: nat)
    requires OnScreen(f)
    requires (n as real) - 1.0 < (f.left - ExpiryLeft) / Speed <= n as real
    ensures n > 0 && Drift([f], n) == [] && Drift([f], n - 1) != []
  {
    DriftOne(f, n);
    DriftOne(f, n - 1);
  }

  lemma {:induction false} DriftEmpty(n: nat)
    ensures Drift([], n) == []
  {
    if n > 0 {
      assert MoveAll([]) == [];
      DriftEmpty(n - 1);
    }
  }

  // --------------------------------------------------------------- scoring

  /** A top flower left of the scoring line that has not been scored yet. */
  predicate Crossing(f: Flower)
  {
    f.isTop && f.left < ScoringLine && f.height != ScoredMark
  }

  /** One flower through the scoring pass: only a crossing flower changes, and only its height. */
  function Mark(f: Flower): (g: Flower)
    ensures g.id == f.id && g.top == f.top && g.left == f.left && g.isTop == f.isTop
    ensures g.height == if Crossing(f) then ScoredMark else f.height
    ensures g != f <==> Crossing(f)
  {
    if Crossing(f) then f.(height := ScoredMark) else f
  }

  /** The map of the scoring pass: every flower marked, in place. */
  function MarkAll(fs: seq<Flower>): seq<Flower>
  {
    seq(|fs|, i requires 0 <= i < |fs| => Mark(fs[i]))
  }

  /**
   The scoring pass leaves bottom petals, flowers at or right of the scoring
   line and flowers already scored exactly as they were, and never changes a
   flower's id, position or kind.
   */
  lemma MarkAllSparesOthers(fs: seq<Flower>)
    ensures forall i :: 0 <= i < |fs| ==>
      (!fs[i].isTop || fs[i].left >= ScoringLine || fs[i].height == ScoredMark) ==> MarkAll(fs)[i] == fs[i]
    ensures forall i :: 0 <= i < |fs| ==>
      MarkAll(fs)[i].id == fs[i].id && MarkAll(fs)[i].left == fs[i].left &&
      MarkAll(fs)[i].top == fs[i].top && MarkAll(fs)[i].isTop == fs[i].isTop
  {
  }

  /** Scoring works flower by flower: the pass over `a + b` is the pass over `a` followed by the pass over `b`. */
  lemma MarkAllAppend(a: seq<Flower>, b: seq<Flower>)
    ensures MarkAll(a + b) == MarkAll(a) + MarkAll(b)
  {
  }

  /** The points the scoring pass adds: one per crossing flower. */
  function Points(fs: seq<Flower>): nat
  {
    if fs == [] then 0
    else Points(fs[..|fs| - 1]) + (if Crossing(fs[|fs| - 1]) then 1 else 0)
  }

  /** The positions of the crossing flowers. */
  ghost function CrossingAt(fs: seq<Flower>): set<nat>
  {
    set i: nat | i < |fs| && Crossing(fs[i])
  }

  /** The score rises by exactly the number of crossing flowers. */
  lemma {:induction false} PointsCountCrossing(fs: seq<Flower>)
    ensures Points(fs) == |CrossingAt(fs)|
  {
    if fs != [] {
      var n := |fs| - 1;
      var prefix := fs[..n];
      PointsCountCrossing(prefix);
      assert CrossingAt(fs) == CrossingAt(prefix) + (if Crossing(fs[n]) then {n} else {});
    }
  }

  /** A second scoring pass finds nothing left to score. */
  lemma {:induction false} NoPointsAfterMark(fs: seq<Flower>)
    ensures Points(MarkAll(fs)) == 0
  {
    if fs != [] {
      var n := |fs| - 1;
      assert MarkAll(fs)[..n] == MarkAll(fs[..n]);
      NoPointsAfterMark(fs[..n]);
    }
  }

  /** The scoring pass is idempotent: applied twice it gives the list it gives once. */
  lemma MarkAllIdempotent(fs: seq<Flower>)
    ensures MarkAll(MarkAll(fs)) == MarkAll(fs)
  {
  }

  /** After a scoring pass, every top flower left of the scoring line carries the mark. */
  predicate ScoredPastLine(fs: seq<Flower>)
  {
    forall i :: 0 <= i < |fs| && fs[i].isTop && fs[i].left < ScoringLine ==> fs[i].height == ScoredMark
  }

  lemma MarkAllScoresPastLine(fs: seq<Flower>)
    ensures ScoredPastLine(MarkAll(fs))
  {
  }

  /**
   Each flower is scored once: when the list was marked up to the scoring line,
   a flower that crosses after the next move was still at or right of the line
   before it, so no earlier pass counted it.
   */
  lemma CrossingsAreFresh(fs: seq<Flower>)
    requires ScoredPastLine(fs)
    ensures forall g :: g in MoveAndExpire(fs) && Crossing(g) ==> g.left + Speed >= ScoringLine
  {
    var moved := MoveAll(fs);
    VisibleMembers(moved);
    forall g | g in MoveAndExpire(fs) && Crossing(g)
      ensures g.left + Speed >= ScoringLine
    {
      var i :| 0 <= i < |moved| && moved[i] == g;
      assert fs[i].isTop && fs[i].height == g.height;
      assert fs[i].left == g.left + Speed;
    }
  }

  // ------------------------------------------------------------ invariants

  /**
   The shape of a spawned pair after any number of ticks: top petal then bottom
   petal, side by side, with consecutive ids, the top petal hanging from the
   ceiling and the gap below it (until the top petal is scored).
   */
  predicate PairOk(t: Flower, b: Flower)
  {
    && t.isTop && !b.isTop
    && t.left == b.left
    && b.id == t.id + 1
    && t.top == 0.0
    && (t.height == ScoredMark || b.top == t.height + Gap)
  }

  /**
   The list is a sequence of whole pairs in spawn order, with ids in [lo, hi):
   each pair's ids are above those of the pairs before it.
   */
  predicate PairChain(fs: seq<Flower>, lo: int, hi: int)
  {
    if fs == [] then true
    else |fs| >= 2 && PairOk(fs[0], fs[1]) && lo <= fs[0].id && fs[1].id < hi
         && PairChain(fs[2..], fs[1].id + 1, hi)
  }

  /** Ids strictly increase along the list: unique, in spawn order. */
  predicate IdsAscending(fs: seq<Flower>)
  {
    forall i, j :: 0 <= i < j < |fs| ==> fs[i].id < fs[j].id
  }

  /** A chain of pairs has unique ascending ids, all within its bounds. */
  lemma {:induction false} PairChainIds(fs: seq<Flower>, lo: int, hi: int)
    requires PairChain(fs, lo, hi)
    ensures |fs| % 2 == 0
    ensures IdsAscending(fs)
    ensures forall i :: 0 <= i < |fs| ==> lo <= fs[i].id < hi
  {
    if fs != [] {
      PairChainIds(fs[2..], fs[1].id + 1, hi);
      forall i, j | 0 <= i < j < |fs|
        ensures fs[i].id < fs[j].id
      {
        if 2 <= i {
          assert fs[2..][i - 2] == fs[i] && fs[2..][j - 2] == fs[j];
        } else if 2 <= j {
          assert fs[2..][j - 2] == fs[j];
        }
      }
      forall i | 2 <= i < |fs|
        ensures lo <= fs[i].id < hi
      {
        assert fs[2..][i - 2] == fs[i];
      }
    }
  }

  lemma {:induction false} PairChainWiden(fs: seq<Flower>, lo: int, hi: int, lo': int, hi': int)
    requires PairChain(fs, lo, hi) && lo' <= lo && hi <= hi'
    ensures PairChain(fs, lo', hi')
  {
    if fs != [] {
      PairChainWiden(fs[2..], fs[1].id + 1, hi, fs[1].id + 1, hi');
    }
  }

  /** Two chains whose id ranges follow each other make one chain. */
  lemma {:induction false} PairChainAppend(a: seq<Flower>, b: seq<Flower>, lo: int, mid: int, hi: int)
    requires lo <= mid <= hi
    requires PairChain(a, lo, mid) && PairChain(b, mid, hi)
    ensures PairChain(a + b, lo, hi)
  {
    if a == [] {
      assert a + b == b;
      PairChainIds(b, mid, hi);
      PairChainWiden(b, mid, hi, lo, hi);
    } else {
      assert (a + b)[2..] == a[2..] + b;
      PairChainIds(a, lo, mid);
      PairChainAppend(a[2..], b, a[1].id + 1, mid, hi);
    }
  }

  /** A freshly spawned pair is a chain holding the two ids it was given. */
  lemma SpawnPairChain(nextId: int, gameWidth: real, gameHeight: real, topHeight: real)
    ensures PairChain(SpawnPair(nextId, gameWidth, gameHeight, topHeight), nextId, nextId + 2)
  {
    var pair := SpawnPair(nextId, gameWidth, gameHeight, topHeight);
    assert pair[2..] == [];
  }

  /**
   Both petals of a pair sit at the same `left`, so a pair leaves the screen as
   a whole and the list stays a chain of whole pairs.
   */
  lemma {:induction false} PairChainMoveAndExpire(fs: seq<Flower>, lo: int, hi: int)
    requires PairChain(fs, lo, hi)
    ensures PairChain(MoveAndExpire(fs), lo, hi)
  {
    if fs != [] {
      var head, rest := fs[..2], fs[2..];
      assert fs == head + rest;
      MoveAndExpireAppend(head, rest);
      PairChainMoveAndExpire(rest, fs[1].id + 1, hi);
      var t, b := Shift(fs[0]), Shift(fs[1]);
      assert MoveAll(head) == [t, b];
      assert Visible([t, b]) == (if OnScreen(t) then [t] else []) + Visible([b]) by {
        assert [t, b][1..] == [b];
      }
      assert Visible([b]) == (if OnScreen(b) then [b] else []) by {
        assert [b][1..] == [];
      }
      if OnScreen(t) {
        assert MoveAndExpire(head)[2..] == [];
        assert PairChain(MoveAndExpire(head), lo, fs[1].id + 1);
        PairChainAppend(MoveAndExpire(head), MoveAndExpire(rest), lo, fs[1].id + 1, hi);
      } else {
        assert MoveAndExpire(head) == [];
        assert MoveAndExpire(fs) == MoveAndExpire(rest);
        PairChainWiden(MoveAndExpire(rest), fs[1].id + 1, hi, lo, hi);
      }
    }
  }

  /** The scoring pass only lowers top heights to ScoredMark: the chain survives it. */
  lemma {:induction false} PairChainMarkAll(fs: seq<Flower>, lo: int, hi: int)
    requires PairChain(fs, lo, hi)
    ensures PairChain(MarkAll(fs), lo, hi)
  {
    if fs != [] {
      assert MarkAll(fs)[2..] == MarkAll(fs[2..]);
      PairChainMarkAll(fs[2..], fs[1].id + 1, hi);
    }
  }
}
