/** Knight.moveValidity (Knight.java:33-44): an L-shaped jump subject to the capture rule. */
module KnightRules {
  import opened Core

  predicate KnightShape(or: int, oc: int, nr: int, nc: int) {
    (Abs(nr - or) == 2 && Abs(nc - oc) == 1) || (Abs(nr - or) == 1 && Abs(nc - oc) == 2)
  }

  /**
   * Off-board destinations are accepted without reading the board; on-board ones
   * need the L shape and a square that does not hold a friendly piece.
   */
  predicate KnightMove(v: View, white: bool, or: int, oc: int, nr: int, nc: int)
    requires WellFormed(v)
  {
    InBounds(nr, nc) ==> KnightShape(or, oc, nr, nc) && CaptureOk(v, white, nr, nc)
  }

  /** The origin and every square holding a friendly piece are refused. */
  lemma KnightRefusesFriendly(v: View, white: bool, or: int, oc: int, nr: int, nc: int)
    requires WellFormed(v) && InBounds(nr, nc)
    requires (nr == or && nc == oc) || (v[nr][nc].Holds? && v[nr][nc].man.white == white)
    ensures !KnightMove(v, white, or, oc, nr, nc)
  {
  }

  /** The verdict depends on no square other than the destination. */
  lemma KnightReadsOnlyDestination(v: View, w: View, white: bool, or: int, oc: int, nr: int, nc: int)
    requires WellFormed(v) && WellFormed(w)
    requires InBounds(nr, nc) ==> v[nr][nc] == w[nr][nc]
    ensures KnightMove(v, white, or, oc, nr, nc) == KnightMove(w, white, or, oc, nr, nc)
  {
  }

  /** An on-board L-shaped jump to an empty square or onto an enemy piece is accepted. */
  lemma KnightAcceptsJump(v: View, white: bool, or: int, oc: int, nr: int, nc: int)
    requires WellFormed(v) && InBounds(nr, nc) && KnightShape(or, oc, nr, nc)
    requires v[nr][nc].Empty? || v[nr][nc].man.white != white
    ensures KnightMove(v, white, or, oc, nr, nc)
  {
  }

  /** Off the board the answer is yes whatever the board holds. */
  lemma KnightOffBoard(v: View, white: bool, or: int, oc: int, nr: int, nc: int)
    requires WellFormed(v) && !InBounds(nr, nc)
    ensures KnightMove(v, white, or, oc, nr, nc)
  {
  }
}
