/** Pawn.moveValidity (Pawn.java:42-72): forward steps, the first double step, and diagonal captures. */
module PawnRules {
  import opened Core

  /** A white pawn advances towards column 0, a black one towards column 7 (Pawn.java:46-49). */
  function Dir(pawnWhite: bool): int {
    if pawnWhite then -1 else 1
  }

  predicate SingleStepShape(m: PieceInfo, or: int, oc: int, nr: int, nc: int) {
    nr == or && nc == oc + Dir(m.pawnWhite)
  }

  predicate DoubleStepShape(m: PieceInfo, or: int, oc: int, nr: int, nc: int) {
    m.firstMove && nr == or && nc == oc + 2 * Dir(m.pawnWhite)
  }

  predicate CaptureShape(m: PieceInfo, or: int, oc: int, nr: int, nc: int) {
    nc == oc + Dir(m.pawnWhite) && Abs(nc - oc) == 1 && Abs(nr - or) == 1
  }

  /**
   * The three accepted shapes: one empty square ahead; on the first move two empty
   * squares ahead; one square diagonally ahead holding an enemy piece or equal to
   * the previously moved piece's en-passant square.
   */
  predicate PawnMove(v: View, m: PieceInfo, ctx: Ctx, or: int, oc: int, nr: int, nc: int)
    requires WellFormed(v) && InBounds(or, oc)
  {
    InBounds(nr, nc) &&
    ((SingleStepShape(m, or, oc, nr, nc) && !Occupied(v, nr, nc)) ||
     (DoubleStepShape(m, or, oc, nr, nc) && !Occupied(v, nr, nc) && !Occupied(v, nr, nc - Dir(m.pawnWhite))) ||
     (CaptureShape(m, or, oc, nr, nc) &&
      ((Occupied(v, nr, nc) && CaptureOk(v, m.white, nr, nc)) || ctx.prevEp == Some(Pos(nr, nc)))))
  }

  /**
   * Evaluating a first-move double step records the square one step ahead of the
   * origin as the en-passant square, whether or not the move is accepted (Pawn.java:55-60).
   */
  predicate EpWritten(m: PieceInfo, or: int, oc: int, nr: int, nc: int) {
    InBounds(nr, nc) && DoubleStepShape(m, or, oc, nr, nc)
  }

  function EpTarget(m: PieceInfo, or: int, oc: int): Pos {
    Pos(or, oc + Dir(m.pawnWhite))
  }

  lemma SingleStepIff(v: View, m: PieceInfo, ctx: Ctx, or: int, oc: int, nr: int, nc: int)
    requires WellFormed(v) && InBounds(or, oc) && InBounds(nr, nc) && SingleStepShape(m, or, oc, nr, nc)
    ensures PawnMove(v, m, ctx, or, oc, nr, nc) <==> v[nr][nc].Empty?
  {
  }

  lemma DoubleStepIff(v: View, m: PieceInfo, ctx: Ctx, or: int, oc: int, nr: int, nc: int)
    requires WellFormed(v) && InBounds(or, oc) && InBounds(nr, nc)
    requires nr == or && nc == oc + 2 * Dir(m.pawnWhite)
    ensures PawnMove(v, m, ctx, or, oc, nr, nc) <==>
      m.firstMove && v[nr][nc].Empty? && v[or][oc + Dir(m.pawnWhite)].Empty?
  {
  }

  lemma CaptureIff(v: View, m: PieceInfo, ctx: Ctx, or: int, oc: int, nr: int, nc: int)
    requires WellFormed(v) && InBounds(or, oc) && InBounds(nr, nc)
    requires nc == oc + Dir(m.pawnWhite) && Abs(nr - or) == 1
    ensures PawnMove(v, m, ctx, or, oc, nr, nc) <==>
      (v[nr][nc].Holds? && v[nr][nc].man.white != m.white) || ctx.prevEp == Some(Pos(nr, nc))
  {
  }

  /** Off-board destinations, and every backward, sideways or longer shape, are refused. */
  lemma PawnOtherShapesRefused(v: View, m: PieceInfo, ctx: Ctx, or: int, oc: int, nr: int, nc: int)
    requires WellFormed(v) && InBounds(or, oc)
    requires !InBounds(nr, nc) || !(nc == oc + Dir(m.pawnWhite) || nc == oc + 2 * Dir(m.pawnWhite))
    ensures !PawnMove(v, m, ctx, or, oc, nr, nc)
  {
  }

  /** The recorded square lies between origin and double-step destination, so it is on the board. */
  lemma EpTargetOnBoard(m: PieceInfo, or: int, oc: int, nr: int, nc: int)
    requires InBounds(or, oc) && EpWritten(m, or, oc, nr, nc)
    ensures InBounds(EpTarget(m, or, oc).row, EpTarget(m, or, oc).col)
  {
  }
}
