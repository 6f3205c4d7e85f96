/** King.moveValidity and King.canCastle (King.java:36-93). */
module KingRules {
  import opened Core

  /** No square strictly between the two rows is occupied, scanning along the origin's column. */
  predicate RowClear(v: View, or: int, oc: int, nr: int)
    requires WellFormed(v) && InBounds(or, oc) && 0 <= nr < BOARD_WIDTH
  {
    forall r | Min(or, nr) < r < Max(or, nr) :: !Occupied(v, r, oc)
  }

  /** The check flag of the king's own colour, as the board caches it. */
  predicate OwnFlag(m: PieceInfo, ctx: Ctx) {
    if m.white then ctx.wInCheck else ctx.bInCheck
  }

  /**
   * King.canCastle: the destination holds a Rook of the king's colour, neither piece
   * has moved, the king's colour is not flagged in check, and the squares strictly
   * between the two rows, at the king's column, are empty.
   */
  predicate CanCastle(v: View, m: PieceInfo, ctx: Ctx, or: int, oc: int, nr: int, nc: int)
    requires WellFormed(v) && InBounds(or, oc) && InBounds(nr, nc)
  {
    Occupied(v, nr, nc) &&
    v[nr][nc].man.kind == Rook && v[nr][nc].man.white == m.white &&
    m.firstMove && v[nr][nc].man.firstMove && !OwnFlag(m, ctx) &&
    RowClear(v, or, oc, nr)
  }

  /** One step vertically, horizontally or diagonally (King.java:44-46). */
  predicate KingStep(or: int, oc: int, nr: int, nc: int) {
    (Abs(nr - or) == 1 && nc == oc) || (Abs(nc - oc) == 1 && nr == or) ||
    (Abs(nr - or) == 1 && Abs(nc - oc) == 1)
  }

  /**
   * King.moveValidity: a castle, or one step onto a square that passes the capture
   * rule.  The source reads the destination square first, so it must be on the board
   * (King.java:38).
   */
  predicate KingMove(v: View, m: PieceInfo, ctx: Ctx, or: int, oc: int, nr: int, nc: int)
    requires WellFormed(v) && InBounds(or, oc) && InBounds(nr, nc)
  {
    CanCastle(v, m, ctx, or, oc, nr, nc) || (KingStep(or, oc, nr, nc) && CaptureOk(v, m.white, nr, nc))
  }

  /** The three one-step shapes are exactly the squares at Chebyshev distance one. */
  lemma KingStepIsDistanceOne(or: int, oc: int, nr: int, nc: int)
    ensures KingStep(or, oc, nr, nc) <==> Dist(or, oc, nr, nc) == 1
  {
  }

  /** Without a castle the king goes one square, never onto a friendly piece. */
  lemma KingMoveWithoutCastle(v: View, m: PieceInfo, ctx: Ctx, or: int, oc: int, nr: int, nc: int)
    requires WellFormed(v) && InBounds(or, oc) && InBounds(nr, nc)
    requires !CanCastle(v, m, ctx, or, oc, nr, nc)
    ensures KingMove(v, m, ctx, or, oc, nr, nc) <==> Dist(or, oc, nr, nc) == 1 && CaptureOk(v, m.white, nr, nc)
  {
    KingStepIsDistanceOne(or, oc, nr, nc);
  }

  /** A castle is accepted at any distance (King.java:40-42). */
  lemma CastleAcceptedAnywhere(v: View, m: PieceInfo, ctx: Ctx, or: int, oc: int, nr: int, nc: int)
    requires WellFormed(v) && InBounds(or, oc) && InBounds(nr, nc)
    requires CanCastle(v, m, ctx, or, oc, nr, nc)
    ensures KingMove(v, m, ctx, or, oc, nr, nc)
  {
  }

  /** What a successful castle check guarantees (King.java:62-91). */
  lemma CastleFacts(v: View, m: PieceInfo, ctx: Ctx, or: int, oc: int, nr: int, nc: int)
    requires WellFormed(v) && InBounds(or, oc) && InBounds(nr, nc)
    requires CanCastle(v, m, ctx, or, oc, nr, nc)
    ensures v[nr][nc] == Holds(Man(m.white, Rook, true)) && m.firstMove && !OwnFlag(m, ctx)
    ensures forall r | Min(or, nr) < r < Max(or, nr) :: v[r][oc].Empty?
  {
    forall r | Min(or, nr) < r < Max(or, nr) ensures v[r][oc].Empty? {
      assert !Occupied(v, r, oc);
    }
  }

  /** An empty destination is never a castle (King.java:62-64). */
  lemma NoCastleOntoEmpty(v: View, m: PieceInfo, ctx: Ctx, or: int, oc: int, nr: int, nc: int)
    requires WellFormed(v) && InBounds(or, oc) && InBounds(nr, nc) && v[nr][nc].Empty?
    ensures !CanCastle(v, m, ctx, or, oc, nr, nc)
  {
  }

  /** The castle test reads only the flag of the king's own colour. */
  lemma CastleIgnoresOtherFlag(v: View, m: PieceInfo, ctx: Ctx, ctx': Ctx, or: int, oc: int, nr: int, nc: int)
    requires WellFormed(v) && InBounds(or, oc) && InBounds(nr, nc)
    requires OwnFlag(m, ctx) == OwnFlag(m, ctx')
    ensures KingMove(v, m, ctx, or, oc, nr, nc) == KingMove(v, m, ctx', or, oc, nr, nc)
  {
  }
}
