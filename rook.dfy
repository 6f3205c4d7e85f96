/** Rook.moveValidity (Rook.java:34-80): a straight slide over empty squares. */
module RookRules {
  import opened Core

  /**
   * Exactly one coordinate changes, no occupied square lies strictly between, and the
   * capture rule holds.  The source indexes the board before testing bounds, so the
   * destination must be on the board (Rook.java:76).
   */
  predicate RookMove(v: View, white: bool, or: int, oc: int, nr: int, nc: int)
    requires WellFormed(v) && InBounds(or, oc) && InBounds(nr, nc)
  {
    Straight(or, oc, nr, nc) && PathClear(v, or, oc, nr, nc) && CaptureOk(v, white, nr, nc)
  }

  /** Unless exactly one of row and col changes, the move is refused (Rook.java:39-41). */
  lemma RookRefusesNonStraight(v: View, white: bool, or: int, oc: int, nr: int, nc: int)
    requires WellFormed(v) && InBounds(or, oc) && InBounds(nr, nc)
    requires (or == nr) == (oc == nc)
    ensures !RookMove(v, white, or, oc, nr, nc)
  {
  }

  /** A row move over an occupied square of that row is refused; a column move likewise. */
  lemma RookBlocked(v: View, white: bool, or: int, oc: int, nr: int, nc: int, r: int, c: int)
    requires WellFormed(v) && InBounds(or, oc) && InBounds(nr, nc) && InBounds(r, c)
    requires (or == nr && r == or && Min(oc, nc) < c < Max(oc, nc)) ||
             (oc == nc && c == oc && Min(or, nr) < r < Max(or, nr))
    requires Occupied(v, r, c)
    ensures !RookMove(v, white, or, oc, nr, nc)
  {
    if Straight(or, oc, nr, nc) {
      var k := if or == nr then Abs(c - oc) else Abs(r - or);
      assert 0 < k < Dist(or, oc, nr, nc) && Step(or, nr, k) == r && Step(oc, nc, k) == c;
    }
  }

  lemma RookRefusesFriendly(v: View, white: bool, or: int, oc: int, nr: int, nc: int)
    requires WellFormed(v) && InBounds(or, oc) && InBounds(nr, nc)
    requires v[nr][nc].Holds? && v[nr][nc].man.white == white
    ensures !RookMove(v, white, or, oc, nr, nc)
  {
  }
}
