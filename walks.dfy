/**
 * The path walk of canIntersectPath (Board.java:285-298) and of whenInCheck's block test
 * (Piece.java:133-145) AS WRITTEN.  Both loops start next to the attacker and add
 * Integer.compare(attacker, king) to each coordinate, which points AWAY from the king;
 * each stops only on reaching the king's square.  On unbounded integers that square is
 * never reached, so the walk is modelled by its first `n` squares for every `n`.
 * `Outward32` follows Java's 32-bit wrap-around instead: along a line the walk then
 * comes back round to the king after about 2^32 iterations, and from a knight, whose
 * offsets differ, it never does.
 *
 * The rest of the model uses the walk pointed towards the king (Boards.CanIntersectPath,
 * Boards.BlockWalk), which visits exactly the squares strictly between the two; the block
 * walk reports a block when the destination is one of them.
 */
module Walks {
  import opened Core
  import opened Checks

  /**
   * The coordinate the as-written loop holds in its `t`-th iteration: `t` increments of
   * Integer.compare(a, k) from `a`.
   */
  function OutwardStep(a: int, k: int, t: nat): (x: int)
    ensures x == a + t * Compare(a, k)
  {
    if a < k then a - t else if k < a then a + t else a
  }

  /** The square the as-written loop holds in its `t`-th iteration. */
  function Outward(a: Pos, k: Pos, t: nat): Pos {
    Pos(OutwardStep(a.row, k.row, t), OutwardStep(a.col, k.col, t))
  }

  /**
   * whenInCheck's `block` after the first `n` iterations of the as-written loop: no
   * on-board square visited so far differs from the destination `d`.
   */
  function OutwardBlock(a: Pos, k: Pos, d: Pos, n: nat): bool {
    if n == 0 then true
    else
      var q := Outward(a, k, n);
      OutwardBlock(a, k, d, n - 1) && !(InBounds(q.row, q.col) && q != d)
  }

  /**
   * canIntersectPath's answer once the as-written loop has run `n` iterations: one of
   * the on-board squares visited so far is among the piece's squares `qs`.
   */
  function OutwardHits(qs: seq<Pos>, a: Pos, k: Pos, n: nat): bool {
    if n == 0 then false
    else
      var q := Outward(a, k, n);
      OutwardHits(qs, a, k, n - 1) || (InBounds(q.row, q.col) && q in qs)
  }

  /**
   * On a line through two different squares the as-written walk never reaches the king's
   * square, so its exit test never holds, and it visits no square strictly between.
   */
  lemma OutwardNeverBetween(a: Pos, k: Pos, t: nat)
    requires Aligned(a.row, a.col, k.row, k.col) && a != k && t >= 1
    ensures Outward(a, k, t) != k
    ensures !OnPath(a.row, a.col, k.row, k.col, Outward(a, k, t).row, Outward(a, k, t).col)
  {
  }

  /** A hit of the as-written walk is never a square strictly between attacker and king. */
  lemma {:induction false} OutwardHitsOffPath(qs: seq<Pos>, a: Pos, k: Pos, n: nat)
    requires Aligned(a.row, a.col, k.row, k.col) && a != k
    requires forall q | q in qs :: !(q.row == k.row && q.col == k.col)
    ensures OutwardHits(qs, a, k, n) ==>
      exists t | 1 <= t <= n :: Outward(a, k, t) in qs &&
        !OnPath(a.row, a.col, k.row, k.col, Outward(a, k, t).row, Outward(a, k, t).col)
  {
    if n > 0 {
      OutwardHitsOffPath(qs, a, k, n - 1);
      if OutwardHits(qs, a, k, n) && !OutwardHits(qs, a, k, n - 1) {
        OutwardNeverBetween(a, k, n);
      }
    }
  }

  /** Every square the as-written walk visits from (0, 3) away from a king further down column 3 is off the board. */
  lemma OffBoardFromEdge(k: Coord, t: nat)
    requires 0 < k && t >= 1
    ensures !InBounds(Outward(Pos(0, 3), Pos(k, 3), t).row, Outward(Pos(0, 3), Pos(k, 3), t).col)
  {
  }

  /**
   * Attacker on (0, 3), king on (7, 3), destination (7, 7): the as-written walk keeps
   * `block` true for as long as it runs, although the move interposes on none of the
   * squares (1, 3) .. (6, 3) between them.
   */
  lemma {:induction false} FalseBlock(n: nat)
    ensures OutwardBlock(Pos(0, 3), Pos(7, 3), Pos(7, 7), n)
    ensures !Interposes(Pos(0, 3), Pos(7, 3), Pos(7, 7))
  {
    if n > 0 {
      FalseBlock(n - 1);
      OffBoardFromEdge(7, n);
    }
    assert Step(0, 7, 1) == 1;
  }

  /**
   * Attacker on (0, 3), king on (5, 3), a piece able to reach (2, 3): the as-written walk
   * never finds the square, though it lies between the two.
   */
  lemma {:induction false} MissedIntersection(n: nat)
    ensures !OutwardHits([Pos(2, 3)], Pos(0, 3), Pos(5, 3), n)
    ensures Intersects([Pos(2, 3)], Pos(0, 3), Pos(5, 3))
  {
    if n > 0 {
      MissedIntersection(n - 1);
      OffBoardFromEdge(5, n);
    }
    assert OnPath(0, 3, 5, 3, 2, 3);
  }

  /**
   * Attacker on (2, 3), king on (4, 3), destination (3, 3), the one square between: the
   * as-written walk first visits (1, 3), behind the attacker, and sets `block` false
   * although the move interposes.
   */
  lemma MissedBlock(n: nat)
    requires n >= 1
    ensures !OutwardBlock(Pos(2, 3), Pos(4, 3), Pos(3, 3), n)
    ensures Interposes(Pos(2, 3), Pos(4, 3), Pos(3, 3))
  {
    assert Outward(Pos(2, 3), Pos(4, 3), 1) == Pos(1, 3);
    BlockStaysFalse(Pos(2, 3), Pos(4, 3), Pos(3, 3), n);
  }

  /**
   * whenInCheck's block loop with only its direction turned towards the king: `block`
   * stays true unless a square between attacker and king differs from `d`.
   */
  predicate TowardBlock(a: Pos, k: Pos, d: Pos) {
    Aligned(a.row, a.col, k.row, k.col) ==>
      forall t | 0 < t < Dist(a.row, a.col, k.row, k.col) ::
        Step(a.row, k.row, t) == d.row && Step(a.col, k.col, t) == d.col
  }

  /**
   * Turning the walk round is not enough: under a check from the next square, a queen
   * on (4, 3) against a king on (5, 3), or from a knight on (5, 4) against a king on
   * (7, 3), the loop meets no square at all and reports a block for every destination,
   * while no destination lies between the two.
   */
  lemma VacuousBlock(d: Pos)
    ensures TowardBlock(Pos(4, 3), Pos(5, 3), d) && !Interposes(Pos(4, 3), Pos(5, 3), d)
    ensures TowardBlock(Pos(5, 4), Pos(7, 3), d) && !Interposes(Pos(5, 4), Pos(7, 3), d)
  {
  }

  /** Once the as-written walk visits an on-board square other than `d`, `block` stays false. */
  lemma {:induction false} BlockStaysFalse(a: Pos, k: Pos, d: Pos, n: nat)
    requires n >= 1 && InBounds(Outward(a, k, 1).row, Outward(a, k, 1).col) && Outward(a, k, 1) != d
    ensures !OutwardBlock(a, k, d, n)
  {
    if n > 1 {
      BlockStaysFalse(a, k, d, n - 1);
    }
  }

  /** The number of values of Java's 32-bit `int`. */
  const INT_RANGE: int := 0x1_0000_0000

  /** A Java `int` sum reduced to the 32-bit two's-complement range. */
  function Int32(x: int): (y: int)
    ensures -0x8000_0000 <= y < 0x8000_0000 && (x - y) % INT_RANGE == 0
  {
    (x + 0x8000_0000) % INT_RANGE - 0x8000_0000
  }

  /**
   * The square the as-written loop holds in its `t`-th iteration in Java, whose `row` and
   * `col` wrap around at 32 bits.
   */
  function Outward32(a: Pos, k: Pos, t: nat): Pos {
    Pos(Int32(a.row + t * Compare(a.row, k.row)), Int32(a.col + t * Compare(a.col, k.col)))
  }

  /** A wrapped coordinate of the as-written walk meets the king's only after `t + |a - k|` is a multiple of 2^32. */
  lemma WrappedMeets(a: int, k: int, t: nat)
    requires 0 <= a < BOARD_WIDTH && 0 <= k < BOARD_WIDTH && a != k
    requires Int32(a + t * Compare(a, k)) == k
    ensures (t + Abs(a - k)) % INT_RANGE == 0
  {
    var x := a + t * Compare(a, k);
    assert (x - k) % INT_RANGE == 0;
    if a < k {
      assert x - k == -(t + Abs(a - k));
      var q := (x - k) / INT_RANGE;
      assert t + Abs(a - k) == INT_RANGE * -q;
    } else {
      assert x - k == t + Abs(a - k);
    }
  }

  /**
   * An attacker off every line through the king, with both offsets non-zero (a knight):
   * the as-written walk never reaches the king's square, not even once its counters wrap
   * around, so the loop of whenInCheck and of canIntersectPath never ends.
   */
  lemma WrappedWalkEndless(a: Pos, k: Pos, t: nat)
    requires InBounds(a.row, a.col) && InBounds(k.row, k.col)
    requires a.row != k.row && a.col != k.col && Abs(a.row - k.row) != Abs(a.col - k.col)
    ensures Outward32(a, k, t) != k
  {
    if Outward32(a, k, t) == k {
      WrappedMeets(a.row, k.row, t);
      WrappedMeets(a.col, k.col, t);
      SameResidue(t + Abs(a.row - k.row), t + Abs(a.col - k.col));
    }
  }

  /** Two multiples of 2^32 less than 2^32 apart are equal. */
  lemma SameResidue(p: int, q: int)
    requires p % INT_RANGE == 0 && q % INT_RANGE == 0 && -INT_RANGE < p - q < INT_RANGE
    ensures p == q
  {
    var i, j := p / INT_RANGE, q / INT_RANGE;
    assert p - q == INT_RANGE * (i - j);
  }

  /** The knight on (5, 4) that checks the king on (7, 3): the as-written walk never ends. */
  lemma KnightCheckEndless(t: nat)
    ensures Outward32(Pos(5, 4), Pos(7, 3), t) != Pos(7, 3)
    ensures !Aligned(5, 4, 7, 3)
  {
    WrappedWalkEndless(Pos(5, 4), Pos(7, 3), t);
  }

  /** whenInCheck's `block` after the first `n` iterations of the as-written loop in Java's 32-bit arithmetic. */
  function OutwardBlock32(a: Pos, k: Pos, d: Pos, n: nat): bool {
    if n == 0 then true
    else
      var q := Outward32(a, k, n);
      OutwardBlock32(a, k, d, n - 1) && !(InBounds(q.row, q.col) && q != d)
  }

  /** Counting down from row 0 in 32 bits, the first row back on the board is row 7. */
  lemma WrappedOffBoard(t: nat)
    requires 1 <= t < INT_RANGE - 7
    ensures Outward32(Pos(0, 3), Pos(7, 3), t).row < 0 || BOARD_WIDTH <= Outward32(Pos(0, 3), Pos(7, 3), t).row
  {
    assert Outward32(Pos(0, 3), Pos(7, 3), t).row == Int32(-(t as int));
  }

  /**
   * The same attacker, king and destination in Java's 32-bit arithmetic: the loop runs
   * 2^32 - 8 iterations over squares off the board, keeping `block` true, and then stops
   * on the king's square, so whenInCheck does report the false block.
   */
  lemma {:induction false} FalseBlock32(n: nat)
    requires n < INT_RANGE - 7
    ensures OutwardBlock32(Pos(0, 3), Pos(7, 3), Pos(7, 7), n)
    ensures n >= 1 ==> Outward32(Pos(0, 3), Pos(7, 3), n) != Pos(7, 3)
    ensures Outward32(Pos(0, 3), Pos(7, 3), INT_RANGE - 7) == Pos(7, 3)
  {
    if n > 0 {
      FalseBlock32(n - 1);
      WrappedOffBoard(n);
    }
    assert Outward32(Pos(0, 3), Pos(7, 3), INT_RANGE - 7).row == Int32(7 - INT_RANGE);
  }
}
