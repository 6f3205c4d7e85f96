/** Queen.moveValidity (Queen.java:35-114): a straight or diagonal slide over empty squares. */
module QueenRules {
  import opened Core
  import RookRules
  import BishopRules

  /**
   * The capture rule holds and the move is either straight or diagonal with a clear
   * path.  The final capture test indexes the board, so the destination must be on it
   * (Queen.java:113).
   */
  predicate QueenMove(v: View, white: bool, or: int, oc: int, nr: int, nc: int)
    requires WellFormed(v) && InBounds(or, oc) && InBounds(nr, nc)
  {
    CaptureOk(v, white, nr, nc) &&
    ((Straight(or, oc, nr, nc) && PathClear(v, or, oc, nr, nc)) ||
     (Diagonal(or, oc, nr, nc) && PathClear(v, or, oc, nr, nc)))
  }

  /** The queen moves exactly as a rook or a bishop would from the same square (Queen.java:8-9). */
  lemma QueenIsRookOrBishop(v: View, white: bool, or: int, oc: int, nr: int, nc: int)
    requires WellFormed(v) && InBounds(or, oc) && InBounds(nr, nc)
    ensures QueenMove(v, white, or, oc, nr, nc) <==>
      RookRules.RookMove(v, white, or, oc, nr, nc) || BishopRules.BishopMove(v, white, or, oc, nr, nc)
  {
  }

  /** Only straight or diagonal moves are accepted (Queen.java:37-38, 113). */
  lemma QueenShape(v: View, white: bool, or: int, oc: int, nr: int, nc: int)
    requires WellFormed(v) && InBounds(or, oc) && InBounds(nr, nc)
    requires QueenMove(v, white, or, oc, nr, nc)
    ensures Straight(or, oc, nr, nc) || Diagonal(or, oc, nr, nc)
  {
  }

  /** An occupied square strictly between origin and destination blocks the move. */
  lemma QueenBlocked(v: View, white: bool, or: int, oc: int, nr: int, nc: int, k: int)
    requires WellFormed(v) && InBounds(or, oc) && InBounds(nr, nc) && Aligned(or, oc, nr, nc)
    requires 0 < k < Dist(or, oc, nr, nc)
    requires InBounds(Step(or, nr, k), Step(oc, nc, k)) && Occupied(v, Step(or, nr, k), Step(oc, nc, k))
    ensures !QueenMove(v, white, or, oc, nr, nc)
  {
  }

  lemma QueenRefusesFriendly(v: View, white: bool, or: int, oc: int, nr: int, nc: int)
    requires WellFormed(v) && InBounds(or, oc) && InBounds(nr, nc)
    requires v[nr][nc].Holds? && v[nr][nc].man.white == white
    ensures !QueenMove(v, white, or, oc, nr, nc)
  {
  }
}
