/**
 * Move validity dispatched on the piece's subclass, and the row-major scan that
 * Piece.setValidSquares performs over the 64 squares (Piece.java:78-88).
 */
module Moves {
  import opened Core
  import KnightRules
  import BishopRules
  import RookRules
  import QueenRules
  import KingRules
  import PawnRules

  /** Rook, Queen and King read the destination square before any bounds test. */
  predicate ReadsDestinationFirst(k: Kind) {
    k == Rook || k == Queen || k == King
  }

  /** Piece.moveValidity as overridden by each subclass. */
  predicate MoveRule(v: View, p: PieceInfo, ctx: Ctx, or: int, oc: int, nr: int, nc: int)
    requires WellFormed(v) && InBounds(or, oc)
    requires ReadsDestinationFirst(p.kind) ==> InBounds(nr, nc)
  {
    match p.kind
    case Pawn => PawnRules.PawnMove(v, p, ctx, or, oc, nr, nc)
    case Knight => KnightRules.KnightMove(v, p.white, or, oc, nr, nc)
    case Bishop => BishopRules.BishopMove(v, p.white, or, oc, nr, nc)
    case Rook => RookRules.RookMove(v, p.white, or, oc, nr, nc)
    case Queen => QueenRules.QueenMove(v, p.white, or, oc, nr, nc)
    case King => KingRules.KingMove(v, p, ctx, or, oc, nr, nc)
  }

  /** Only a King consults the check flags, and only the one of its own colour. */
  lemma RuleIgnoresOtherFlag(v: View, p: PieceInfo, ctx: Ctx, ctx': Ctx, or: int, oc: int, nr: int, nc: int)
    requires WellFormed(v) && InBounds(or, oc) && InBounds(nr, nc)
    requires ctx.prevEp == ctx'.prevEp && KingRules.OwnFlag(p, ctx) == KingRules.OwnFlag(p, ctx')
    ensures MoveRule(v, p, ctx, or, oc, nr, nc) == MoveRule(v, p, ctx', or, oc, nr, nc)
  {
  }

  /**
   * On the board it reads, no piece but a King accepts a square its own colour holds,
   * unless that square is a pawn's en-passant square (the King accepts its own rook
   * when castling, King.java:40-42).
   */
  lemma OwnSquareRefused(v: View, p: PieceInfo, ctx: Ctx, or: int, oc: int, nr: int, nc: int)
    requires WellFormed(v) && InBounds(or, oc) && InBounds(nr, nc)
    requires p.kind != King && (p.kind == Pawn ==> ctx.prevEp != Some(Pos(nr, nc)))
    requires v[nr][nc].Holds? && v[nr][nc].man.white == p.white
    ensures !MoveRule(v, p, ctx, or, oc, nr, nc)
  {
    match p.kind
    case Pawn =>
    case Knight => KnightRules.KnightRefusesFriendly(v, p.white, or, oc, nr, nc);
    case Bishop => BishopRules.BishopRefusesFriendly(v, p.white, or, oc, nr, nc);
    case Rook => RookRules.RookRefusesFriendly(v, p.white, or, oc, nr, nc);
    case Queen => QueenRules.QueenRefusesFriendly(v, p.white, or, oc, nr, nc);
  }

  /** Position of a square in the order the loops of setValidSquares visit it. */
  function Index(q: Pos): int {
    q.row * BOARD_WIDTH + q.col
  }

  function At(k: int): Pos {
    Pos(k / BOARD_WIDTH, k % BOARD_WIDTH)
  }

  predicate Accepts(v: View, p: PieceInfo, ctx: Ctx, k: int)
    requires WellFormed(v) && InBounds(p.row, p.col) && 0 <= k < 64
  {
    MoveRule(v, p, ctx, p.row, p.col, k / BOARD_WIDTH, k % BOARD_WIDTH)
  }

  /** The squares among the first `n` in row-major order that the piece may move to. */
  function Scan(v: View, p: PieceInfo, ctx: Ctx, n: nat): seq<Pos>
    requires WellFormed(v) && InBounds(p.row, p.col) && n <= 64
  {
    if n == 0 then []
    else Scan(v, p, ctx, n - 1) + (if Accepts(v, p, ctx, n - 1) then [At(n - 1)] else [])
  }

  /** One more square of the scan. */
  lemma ScanNext(v: View, p: PieceInfo, ctx: Ctx, n: nat)
    requires WellFormed(v) && InBounds(p.row, p.col) && n < 64
    ensures Scan(v, p, ctx, n + 1) == Scan(v, p, ctx, n) +
      (if MoveRule(v, p, ctx, p.row, p.col, At(n).row, At(n).col) then [At(n)] else [])
  {
  }

  /** The list setValidSquares leaves in `validSquares`. */
  function ValidList(v: View, p: PieceInfo, ctx: Ctx): seq<Pos>
    requires WellFormed(v) && InBounds(p.row, p.col)
  {
    Scan(v, p, ctx, 64)
  }

  /** Scan holds exactly the accepted squares before `n`, each once, in row-major order. */
  lemma {:induction false} ScanSpec(v: View, p: PieceInfo, ctx: Ctx, n: nat)
    requires WellFormed(v) && InBounds(p.row, p.col) && n <= 64
    ensures forall q :: q in Scan(v, p, ctx, n) <==>
      InBounds(q.row, q.col) && Index(q) < n && MoveRule(v, p, ctx, p.row, p.col, q.row, q.col)
    ensures forall i, j | 0 <= i < j < |Scan(v, p, ctx, n)| ::
      Index(Scan(v, p, ctx, n)[i]) < Index(Scan(v, p, ctx, n)[j])
  {
    if n > 0 {
      ScanSpec(v, p, ctx, n - 1);
      var s := Scan(v, p, ctx, n - 1);
      assert forall q :: q in s ==> Index(q) < n - 1;
      var k := n - 1;
      assert InBounds(At(k).row, At(k).col) && Index(At(k)) == k;
      forall q: Pos | InBounds(q.row, q.col) && Index(q) == k
        ensures q == At(k)
      {
      }
    }
  }

  /**
   * After setValidSquares, `validSquares` holds exactly the squares of the board the
   * piece may move to, in row-major order and without repetition.
   */
  lemma ValidListSpec(v: View, p: PieceInfo, ctx: Ctx)
    requires WellFormed(v) && InBounds(p.row, p.col)
    ensures forall q :: q in ValidList(v, p, ctx) <==>
      InBounds(q.row, q.col) && MoveRule(v, p, ctx, p.row, p.col, q.row, q.col)
    ensures forall i, j | 0 <= i < j < |ValidList(v, p, ctx)| ::
      Index(ValidList(v, p, ctx)[i]) < Index(ValidList(v, p, ctx)[j])
  {
    ScanSpec(v, p, ctx, 64);
  }

  /**
   * Whether the scan overwrites the pawn's en-passant square: it evaluates every
   * square, so it records one exactly when the first-move double step is on the board.
   */
  predicate ScanWritesEp(p: PieceInfo) {
    p.kind == Pawn && p.firstMove && InBounds(p.row, p.col + 2 * PawnRules.Dir(p.pawnWhite))
  }
}
