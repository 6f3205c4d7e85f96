/** Bishop.moveValidity (Bishop.java:34-82): a diagonal slide over empty squares. */
module BishopRules {
  import opened Core

  /**
   * Off-board destinations are accepted; on-board ones need equal distance along
   * both coordinates, no occupied square strictly between, and the capture rule.
   */
  predicate BishopMove(v: View, white: bool, or: int, oc: int, nr: int, nc: int)
    requires WellFormed(v) && InBounds(or, oc)
  {
    InBounds(nr, nc) ==>
      Diagonal(or, oc, nr, nc) && PathClear(v, or, oc, nr, nc) && CaptureOk(v, white, nr, nc)
  }

  /** A move whose row and column distances differ is refused (Bishop.java:38-40). */
  lemma BishopRefusesOffDiagonal(v: View, white: bool, or: int, oc: int, nr: int, nc: int)
    requires WellFormed(v) && InBounds(or, oc) && InBounds(nr, nc)
    requires Abs(nr - or) != Abs(nc - oc)
    ensures !BishopMove(v, white, or, oc, nr, nc)
  {
  }

  /** An occupied square strictly between origin and destination blocks the move. */
  lemma BishopBlocked(v: View, white: bool, or: int, oc: int, nr: int, nc: int, k: int)
    requires WellFormed(v) && InBounds(or, oc) && InBounds(nr, nc) && Diagonal(or, oc, nr, nc)
    requires 0 < k < Dist(or, oc, nr, nc)
    requires InBounds(Step(or, nr, k), Step(oc, nc, k)) && Occupied(v, Step(or, nr, k), Step(oc, nc, k))
    ensures !BishopMove(v, white, or, oc, nr, nc)
  {
  }

  /** The square of a friendly piece, the bishop's own occupied origin included, is refused. */
  lemma BishopRefusesFriendly(v: View, white: bool, or: int, oc: int, nr: int, nc: int)
    requires WellFormed(v) && InBounds(or, oc) && InBounds(nr, nc)
    requires v[nr][nc].Holds? && v[nr][nc].man.white == white
    ensures !BishopMove(v, white, or, oc, nr, nc)
  {
  }

  /** A clear diagonal ending on an empty or enemy square is accepted. */
  lemma BishopAcceptsClearDiagonal(v: View, white: bool, or: int, oc: int, nr: int, nc: int)
    requires WellFormed(v) && InBounds(or, oc) && InBounds(nr, nc) && Diagonal(or, oc, nr, nc)
    requires forall k | 0 < k < Dist(or, oc, nr, nc) ::
      InBounds(Step(or, nr, k), Step(oc, nc, k)) && !Occupied(v, Step(or, nr, k), Step(oc, nc, k))
    requires v[nr][nc].Empty? || v[nr][nc].man.white != white
    ensures BishopMove(v, white, or, oc, nr, nc)
  {
  }

  lemma BishopOffBoard(v: View, white: bool, or: int, oc: int, nr: int, nc: int)
    requires WellFormed(v) && InBounds(or, oc) && !InBounds(nr, nc)
    ensures BishopMove(v, white, or, oc, nr, nc)
  {
  }
}
