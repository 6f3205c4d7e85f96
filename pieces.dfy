/**
 * The two mutable entities of the board: a Square (MySquare.java), which holds an
 * occupant reference and an occupied flag, and a Piece (Piece.java and its six
 * subclasses), which caches its coordinates, first-move flag, the squares it may
 * move to, and for a pawn the en-passant square.  They reference each other, so
 * they share one module.
 */
module Pieces {
  import opened Core
  import KnightRules
  import BishopRules
  import RookRules
  import QueenRules
  import KingRules
  import PawnRules
  import opened Moves

  /** `(int) (x / SQUARE_WIDTH)` on a pixel coordinate: Java's cast truncates toward zero. */
  function PixelToIndex(x: int): int {
    if x >= 0 then x / SQUARE_WIDTH else -((-x) / SQUARE_WIDTH)
  }

  /** setX/setY followed by the cast recover the index that movePiece scaled (Piece.java:62-65, 232-243). */
  lemma PixelRoundTrip(i: int)
    ensures PixelToIndex(i * SQUARE_WIDTH) == i
  {
    if i < 0 {
      assert -(i * SQUARE_WIDTH) == (-i) * SQUARE_WIDTH;
    }
  }

  class Square {
    const row: Coord
    const col: Coord
    var occupying: Piece?
    var isOccupied: bool

    /** MySquare.java:27-36, without the rectangle. */
    constructor (row: Coord, col: Coord, isOccupied: bool)
      ensures this.row == row && this.col == col
      ensures this.isOccupied == isOccupied && occupying == null
    {
      this.row := row;
      this.col := col;
      this.isOccupied := isOccupied;
      this.occupying := null;
    }

    /**
     * MySquare.setOccupying: with a square argument, this square becomes occupied by
     * `p` and `p` takes that square's coordinates; with null, nothing changes.
     */
    method SetOccupying(p: Piece, clicked: Square?)
      modifies this`isOccupied, this`occupying, p`oldRow, p`oldCol
      ensures clicked == null ==> isOccupied == old(isOccupied) && occupying == old(occupying)
      ensures clicked == null ==> p.oldRow == old(p.oldRow) && p.oldCol == old(p.oldCol)
      ensures clicked != null ==> isOccupied && occupying == p
      ensures clicked != null ==> p.oldRow == clicked.row && p.oldCol == clicked.col
    {
      if clicked != null {
        isOccupied := true;
        occupying := p;
        p.SetX(clicked.row * SQUARE_WIDTH);
        p.SetY(clicked.col * SQUARE_WIDTH);
        PixelRoundTrip(clicked.row);
        PixelRoundTrip(clicked.col);
      }
    }

    /** MySquare.setEmpty: unoccupied, no occupant, whatever the square held before. */
    method SetEmpty()
      modifies this`isOccupied, this`occupying
      ensures !isOccupied && occupying == null
    {
      isOccupied := false;
      occupying := null;
    }

    /** MySquare.removeOccupying: the same logical effect as SetEmpty (the image removal is not modelled). */
    method RemoveOccupying()
      modifies this`isOccupied, this`occupying
      ensures !isOccupied && occupying == null
    {
      occupying := null;
      isOccupied := false;
    }

    function GetIsOccupied(): bool
      reads this`isOccupied
    {
      isOccupied
    }

    /** MySquare.setIsOccupied: raises the flag and leaves the occupant alone. */
    method SetIsOccupied()
      modifies this`isOccupied
      ensures isOccupied
    {
      isOccupied := true;
    }

    /** MySquare.getOccupying: no occupant is reported while the flag is down. */
    function GetOccupying(): (r: Piece?)
      reads this`isOccupied, this`occupying
      ensures !isOccupied ==> r == null
      ensures isOccupied ==> r == occupying
    {
      if isOccupied then occupying else null
    }
  }

  class Piece {
    var isWhite: bool
    const pawnWhite: bool
    const kind: Kind
    var isFirstMove: bool
    var oldRow: Coord
    var oldCol: Coord
    var validSquares: seq<Square>
    var epSquare: Square?

    /** Piece.java:36-45 and the subclass constructors (Pawn.java:27-32). */
    constructor (kind: Kind, oldRow: Coord, oldCol: Coord, isWhite: bool)
      ensures this.kind == kind && this.oldRow == oldRow && this.oldCol == oldCol
      ensures this.isWhite == isWhite && this.pawnWhite == isWhite
      ensures isFirstMove && validSquares == [] && epSquare == null
    {
      this.kind := kind;
      this.oldRow := oldRow;
      this.oldCol := oldCol;
      this.isWhite := isWhite;
      this.pawnWhite := isWhite;
      this.isFirstMove := true;
      this.validSquares := [];
      this.epSquare := null;
    }

    /** What a move query reads of this piece. */
    function Info(): PieceInfo
      reads this`isWhite, this`isFirstMove, this`oldRow, this`oldCol
    {
      PieceInfo(kind, isWhite, pawnWhite, isFirstMove, oldRow, oldCol)
    }

    function GetColor(): string
      reads this`isWhite
    {
      ColorName(isWhite)
    }

    function GetType(): string {
      TypeName(kind)
    }

    method SetColor(white: bool)
      modifies this`isWhite
      ensures isWhite == white
    {
      isWhite := white;
    }

    function IfFirstMove(): bool
      reads this`isFirstMove
    {
      isFirstMove
    }

    method SetFirstMove(b: bool)
      modifies this`isFirstMove
      ensures isFirstMove == b
    {
      isFirstMove := b;
    }

    /** Only a Pawn overrides getEPSquare; every other piece reports none (Piece.java:202-204, Pawn.java:79-84). */
    function GetEPSquare(): (r: Square?)
      reads this`epSquare
      ensures kind != Pawn ==> r == null
      ensures kind == Pawn ==> r == epSquare
    {
      if kind == Pawn then epSquare else null
    }

    method SetX(x: int)
      requires 0 <= x < BOARD_WIDTH * SQUARE_WIDTH
      modifies this`oldRow
      ensures oldRow == PixelToIndex(x)
    {
      oldRow := PixelToIndex(x);
    }

    method SetY(y: int)
      requires 0 <= y < BOARD_WIDTH * SQUARE_WIDTH
      modifies this`oldCol
      ensures oldCol == PixelToIndex(y)
    {
      oldCol := PixelToIndex(y);
    }

    /** Piece.movePiece: the piece's coordinates become the square's. */
    method MovePiece(sq: Square)
      modifies this`oldRow, this`oldCol
      ensures oldRow == sq.row && oldCol == sq.col
    {
      SetX(sq.row * SQUARE_WIDTH);
      SetY(sq.col * SQUARE_WIDTH);
      PixelRoundTrip(sq.row);
      PixelRoundTrip(sq.col);
    }

    /**
     * Bishop.moveValidity: after the shape test, one scan per quadrant (the source's
     * four loops), then the capture rule.
     */
    method BishopValidity(g: array2<Square>, ghost v: View, or: int, oc: int, nr: int, nc: int) returns (check: bool)
      requires GridOk(g) && v == ViewOf(g) && InBounds(or, oc)
      ensures GridOk(g) && v == ViewOf(g)
      ensures check == BishopRules.BishopMove(v, isWhite, or, oc, nr, nc)
    {
      check := true;
      if InBounds(nr, nc) {
        if Abs(nr - or) != Abs(nc - oc) {
          return false;
        }
        if Min(oc, nc) == oc && Min(or, nr) == or {
          var clear := ScanPath(g, v, or, oc, nr, nc, 1, 1);
          if !clear {
            check := false;
          }
        }
        if Min(oc, nc) == nc && Min(or, nr) == or {
          var clear := ScanPath(g, v, or, oc, nr, nc, 1, -1);
          if !clear {
            check := false;
          }
        }
        if Min(oc, nc) == oc && Min(or, nr) == nr {
          var clear := ScanPath(g, v, or, oc, nr, nc, -1, 1);
          if !clear {
            check := false;
          }
        }
        if Min(oc, nc) == nc && Min(or, nr) == nr {
          var clear := ScanPath(g, v, or, oc, nr, nc, -1, -1);
          if !clear {
            check := false;
          }
        }
        CaptureIff(g, this, nr, nc);
        if !CaptureValidity(g, nr, nc) {
          check := false;
        }
      }
    }

    /** Rook.moveValidity: the shape test, the scan along the row or the column, the capture rule. */
    method RookValidity(g: array2<Square>, ghost v: View, or: int, oc: int, nr: int, nc: int) returns (r: bool)
      requires GridOk(g) && v == ViewOf(g) && InBounds(or, oc) && InBounds(nr, nc)
      ensures GridOk(g) && v == ViewOf(g)
      ensures r == RookRules.RookMove(v, isWhite, or, oc, nr, nc)
    {
      var check := true;
      var inBounds := 0 <= nr < BOARD_WIDTH && 0 <= nc < BOARD_WIDTH;
      if (or != nr || oc == nc) && (or == nr || oc != nc) {
        check := false;
      }
      if or == nr {
        if Min(oc, nc) == oc {
          var clear := ScanPath(g, v, or, oc, nr, nc, 0, 1);
          if !clear {
            check := false;
          }
        }
        if Min(oc, nc) == nc {
          var clear := ScanPath(g, v, or, oc, nr, nc, 0, -1);
          if !clear {
            check := false;
          }
        }
      }
      if oc == nc {
        if Min(or, nr) == or {
          var clear := ScanPath(g, v, or, oc, nr, nc, 1, 0);
          if !clear {
            check := false;
          }
        }
        if Min(or, nr) == nr {
          var clear := ScanPath(g, v, or, oc, nr, nc, -1, 0);
          if !clear {
            check := false;
          }
        }
      }
      CaptureIff(g, this, nr, nc);
      if !CaptureValidity(g, nr, nc) {
        check := false;
      }
      r := inBounds && check;
    }

    /**
     * Queen.moveValidity: the rook scans clear `straight`, the bishop scans clear
     * `diagonal`, and the result is the capture rule and either flag.
     */
    method QueenValidity(g: array2<Square>, ghost v: View, or: int, oc: int, nr: int, nc: int) returns (r: bool)
      requires GridOk(g) && v == ViewOf(g) && InBounds(or, oc) && InBounds(nr, nc)
      ensures GridOk(g) && v == ViewOf(g)
      ensures r == QueenRules.QueenMove(v, isWhite, or, oc, nr, nc)
    {
      var straight := (or == nr && oc != nc) || (or != nr && oc == nc);
      var diagonal := Abs(nr - or) == Abs(nc - oc);
      if 0 <= nr < BOARD_WIDTH && 0 <= nc < BOARD_WIDTH {
        if straight {
          if or == nr {
            if Min(oc, nc) == oc {
              var clear := ScanPath(g, v, or, oc, nr, nc, 0, 1);
              if !clear {
                straight := false;
              }
            }
            if Min(oc, nc) == nc {
              var clear := ScanPath(g, v, or, oc, nr, nc, 0, -1);
              if !clear {
                straight := false;
              }
            }
          }
          if oc == nc {
            if Min(or, nr) == or {
              var clear := ScanPath(g, v, or, oc, nr, nc, 1, 0);
              if !clear {
                straight := false;
              }
            }
            if Min(or, nr) == nr {
              var clear := ScanPath(g, v, or, oc, nr, nc, -1, 0);
              if !clear {
                straight := false;
              }
            }
          }
        }
        if diagonal {
          if Min(oc, nc) == oc && Min(or, nr) == or {
            var clear := ScanPath(g, v, or, oc, nr, nc, 1, 1);
            if !clear {
              diagonal := false;
            }
          }
          if Min(oc, nc) == nc && Min(or, nr) == or {
            var clear := ScanPath(g, v, or, oc, nr, nc, 1, -1);
            if !clear {
              diagonal := false;
            }
          }
          if Min(oc, nc) == oc && Min(or, nr) == nr {
            var clear := ScanPath(g, v, or, oc, nr, nc, -1, 1);
            if !clear {
              diagonal := false;
            }
          }
          if Min(oc, nc) == nc && Min(or, nr) == nr {
            var clear := ScanPath(g, v, or, oc, nr, nc, -1, -1);
            if !clear {
              diagonal := false;
            }
          }
        }
      }
      CaptureIff(g, this, nr, nc);
      r := CaptureValidity(g, nr, nc) && (diagonal || straight);
    }

    /**
     * King.canCastle, and false for every other kind (the base Piece.canCastle).  The
     * flag consulted is the board's cached check flag of the king's colour.
     */
    method CanCastle(g: array2<Square>, ghost v: View, wIn: bool, bIn: bool, or: int, oc: int, nr: int, nc: int)
      returns (r: bool)
      requires GridOk(g) && v == ViewOf(g) && InBounds(or, oc) && InBounds(nr, nc)
      ensures GridOk(g) && v == ViewOf(g)
      ensures r == (kind == King && KingRules.CanCastle(v, Info(), Ctx(wIn, bIn, None), or, oc, nr, nc))
    {
      if kind != King {
        return false;
      }
      OccupiedIff(g, nr, nc);
      if !g[nr, nc].GetIsOccupied() {
        return false;
      }
      var rook := g[nr, nc].GetOccupying();
      assert v[nr][nc] == Holds(Man(rook.isWhite, rook.kind, rook.isFirstMove));
      ColorNameInjective(isWhite, rook.isWhite);
      var kAndR := rook.kind == Rook;
      var sameColor := GetColor() == rook.GetColor();
      var first := IfFirstMove() && rook.IfFirstMove();
      var notInCheck := false;
      if GetColor() == WHITE {
        notInCheck := !wIn;
      } else {
        notInCheck := !bIn;
      }
      if kAndR && sameColor && first && notInCheck {
        r := CastlePathClear(g, v, or, oc, nr);
        return;
      }
      return false;
    }

    /** King.moveValidity: a castle, or one step onto a square the capture rule admits. */
    method KingValidity(g: array2<Square>, ghost v: View, wIn: bool, bIn: bool, or: int, oc: int, nr: int, nc: int)
      returns (r: bool)
      requires GridOk(g) && v == ViewOf(g) && InBounds(or, oc) && InBounds(nr, nc) && kind == King
      ensures GridOk(g) && v == ViewOf(g)
      ensures r == KingRules.KingMove(v, Info(), Ctx(wIn, bIn, None), or, oc, nr, nc)
    {
      var castle := CanCastle(g, v, wIn, bIn, or, oc, nr, nc);
      if castle {
        return true;
      }
      var inbounds := nr < BOARD_WIDTH && nc < BOARD_WIDTH;
      var vertical := Abs(nr - or) == 1 && nc == oc;
      var horizontal := Abs(nc - oc) == 1 && nr == or;
      var diagonal := Abs(nr - or) == 1 && Abs(nc - oc) == 1;
      CaptureIff(g, this, nr, nc);
      var capture := CaptureValidity(g, nr, nc);
      r := inbounds && capture && (vertical || horizontal || diagonal);
    }

    /**
     * Pawn.moveValidity (Pawn.java:42-72).  Evaluating a first-move double step records
     * the square passed over as this pawn's en-passant square; a diagonal step is
     * accepted onto an enemy piece or onto the previously moved piece's en-passant square.
     */
    method PawnValidity(g: array2<Square>, ghost v: View, prev: Piece?, ghost ep: Option<Pos>,
                        or: int, oc: int, nr: int, nc: int) returns (check: bool)
      requires GridOk(g) && v == ViewOf(g) && InBounds(or, oc) && kind == Pawn
      requires Settled(prev) && ep == EpOf(g, prev)
      modifies this`epSquare
      ensures check == PawnRules.PawnMove(v, Info(), Ctx(false, false, ep), or, oc, nr, nc)
      ensures PawnRules.EpWritten(Info(), or, oc, nr, nc) ==>
        InBounds(or, oc + PawnRules.Dir(pawnWhite)) && epSquare == g[or, oc + PawnRules.Dir(pawnWhite)]
      ensures !PawnRules.EpWritten(Info(), or, oc, nr, nc) ==> epSquare == old(epSquare)
      ensures GridOk(g) && v == ViewOf(g)
      ensures Settled(prev) && ep == EpOf(g, prev)
    {
      check := PawnAccepts(g, v, prev, ep, or, oc, nr, nc);
      var direction := 1;
      if pawnWhite {
        direction := -1;
      }
      if 0 <= nr < BOARD_WIDTH && 0 <= nc < BOARD_WIDTH && IfFirstMove() && nr == or && nc == oc + 2 * direction {
        assert prev != this;
        epSquare := g[or, oc + direction];
      }
    }

    /**
     * The three tests of Pawn.moveValidity, without its write of the en-passant square,
     * which none of them reads (the previous piece is not this pawn).
     */
    method PawnAccepts(g: array2<Square>, ghost v: View, prev: Piece?, ghost ep: Option<Pos>,
                       or: int, oc: int, nr: int, nc: int) returns (check: bool)
      requires GridOk(g) && v == ViewOf(g) && InBounds(or, oc) && kind == Pawn
      requires Settled(prev) && ep == EpOf(g, prev)
      ensures check == PawnRules.PawnMove(v, Info(), Ctx(false, false, ep), or, oc, nr, nc)
      ensures GridOk(g) && v == ViewOf(g) && Settled(prev) && ep == EpOf(g, prev)
    {
      var inbounds := 0 <= nr < BOARD_WIDTH && 0 <= nc < BOARD_WIDTH;
      if inbounds {
        OccupiedIff(g, nr, nc);
        CaptureIff(g, this, nr, nc);
        if InBounds(nr, nc - PawnRules.Dir(pawnWhite)) {
          OccupiedIff(g, nr, nc - PawnRules.Dir(pawnWhite));
        }
        assert g[nr, nc] in Cells(g);
        if prev != null && prev.GetEPSquare() != null && prev.GetEPSquare() in Cells(g) {
          SquareIdentity(g, prev.GetEPSquare(), nr, nc);
        }
      }
      check := false;
      var direction := 1;
      if pawnWhite {
        direction := -1;
      }
      if inbounds {
        if nr == or && nc == oc + direction {
          check := !g[nr, nc].GetIsOccupied();
        }
        if !check && IfFirstMove() && nr == or && nc == oc + 2 * direction {
          check := !g[nr, nc].GetIsOccupied() && !g[nr, nc - direction].GetIsOccupied();
        }
        if nc == oc + direction && Abs(nc - oc) == 1 && Abs(nr - or) == 1 {
          if (g[nr, nc].GetIsOccupied() && CaptureValidity(g, nr, nc)) ||
             (prev != null && prev.GetEPSquare() != null && prev.GetEPSquare() == g[nr, nc])
          {
            check := true;
          }
        }
      }
    }

    /** Piece.moveValidity as each subclass overrides it. */
    method MoveValidity(g: array2<Square>, ghost v: View, wIn: bool, bIn: bool, prev: Piece?, ghost ctx: Ctx,
                        or: int, oc: int, nr: int, nc: int) returns (r: bool)
      requires GridOk(g) && v == ViewOf(g) && InBounds(or, oc) && Settled(prev)
      requires ctx == Ctx(wIn, bIn, EpOf(g, prev))
      requires ReadsDestinationFirst(kind) ==> InBounds(nr, nc)
      modifies this`epSquare
      ensures r == MoveRule(v, Info(), ctx, or, oc, nr, nc)
      ensures kind == Pawn && PawnRules.EpWritten(Info(), or, oc, nr, nc) ==>
        InBounds(or, oc + PawnRules.Dir(pawnWhite)) && epSquare == g[or, oc + PawnRules.Dir(pawnWhite)]
      ensures !(kind == Pawn && PawnRules.EpWritten(Info(), or, oc, nr, nc)) ==> epSquare == old(epSquare)
      ensures GridOk(g) && v == ViewOf(g) && Settled(prev) && ctx == Ctx(wIn, bIn, EpOf(g, prev))
    {
      match kind
      case Pawn =>
        r := PawnValidity(g, v, prev, ctx.prevEp, or, oc, nr, nc);
      case Knight =>
        if InBounds(nr, nc) {
          CaptureIff(g, this, nr, nc);
        }
        r := !InBounds(nr, nc) || (KnightRules.KnightShape(or, oc, nr, nc) && CaptureValidity(g, nr, nc));
      case Bishop =>
        r := BishopValidity(g, v, or, oc, nr, nc);
      case Rook =>
        r := RookValidity(g, v, or, oc, nr, nc);
      case Queen =>
        r := QueenValidity(g, v, or, oc, nr, nc);
      case King =>
        r := KingValidity(g, v, wIn, bIn, or, oc, nr, nc);
    }

    /**
     * Piece.setValidSquares: every square of the board, row by row, that the piece
     * may move to from its own coordinates, as square objects of the board.  A pawn on
     * its first move records its en-passant square along the way; the board itself is
     * left as it was.
     */
    method SetValidSquares(g: array2<Square>, wIn: bool, bIn: bool, prev: Piece?)
      requires GridOk(g) && Settled(prev)
      modifies this`validSquares, this`epSquare
      ensures SquaresAt(g, validSquares, ValidList(ViewOf(g), Info(), Ctx(wIn, bIn, EpOf(g, prev))))
      ensures ScanWritesEp(Info()) ==>
        InBounds(oldRow, oldCol + PawnRules.Dir(pawnWhite)) && epSquare == g[oldRow, oldCol + PawnRules.Dir(pawnWhite)]
      ensures !ScanWritesEp(Info()) ==> epSquare == old(epSquare)
      ensures ViewOf(g) == old(ViewOf(g)) && EpOf(g, prev) == old(EpOf(g, prev))
    {
      ghost var v := ViewOf(g);
      ghost var info := Info();
      ghost var ctx := Ctx(wIn, bIn, EpOf(g, prev));
      var squares := ScanBoard(g, wIn, bIn, prev, v, info, ctx);
      validSquares := squares;
    }

    /** The two loops of setValidSquares, over the rows and then the columns of the board. */
    method ScanBoard(g: array2<Square>, wIn: bool, bIn: bool, prev: Piece?, ghost v: View, ghost info: PieceInfo, ghost ctx: Ctx)
      returns (squares: seq<Square>)
      requires Scanned(g, wIn, bIn, prev, v, info, ctx, [], 0, epSquare)
      modifies this`epSquare
      ensures Scanned(g, wIn, bIn, prev, v, info, ctx, squares, 64, old(epSquare))
    {
      squares := [];
      for i := 0 to BOARD_WIDTH
        invariant Scanned(g, wIn, bIn, prev, v, info, ctx, squares, i * BOARD_WIDTH, old(epSquare))
      {
        squares := ScanRow(g, wIn, bIn, prev, i, squares, v, info, ctx, old(epSquare));
      }
    }

    /**
     * The state of the loops of setValidSquares after the first `n` squares: the board,
     * this piece's coordinates and flags, and the previous piece's en-passant square
     * are as at the start; `squares` holds the accepted squares so far; the
     * en-passant square is recorded once its double step has been visited.
     */
    ghost predicate Scanned(g: array2<Square>, wIn: bool, bIn: bool, prev: Piece?, v: View, info: PieceInfo, ctx: Ctx,
                            squares: seq<Square>, n: int, ep0: Square?)
      reads this, g, Cells(g), Occupants(g), prev
    {
      GridOk(g) && Settled(prev) && 0 <= n <= 64 &&
      v == ViewOf(g) && info == Info() && ctx == Ctx(wIn, bIn, EpOf(g, prev)) &&
      SquaresAt(g, squares, Scan(v, info, ctx, n)) && EpAfter(g, n, ep0)
    }

    /** The inner loop of setValidSquares: the squares of row `i`, in column order. */
    method ScanRow(g: array2<Square>, wIn: bool, bIn: bool, prev: Piece?, i: int, squares: seq<Square>,
                   ghost v: View, ghost info: PieceInfo, ghost ctx: Ctx, ghost ep0: Square?)
      returns (squares': seq<Square>)
      requires 0 <= i < BOARD_WIDTH && Scanned(g, wIn, bIn, prev, v, info, ctx, squares, i * BOARD_WIDTH, ep0)
      modifies this`epSquare
      ensures Scanned(g, wIn, bIn, prev, v, info, ctx, squares', (i + 1) * BOARD_WIDTH, ep0)
    {
      squares' := squares;
      ghost var n := i * BOARD_WIDTH;
      for j := 0 to BOARD_WIDTH
        invariant n == i * BOARD_WIDTH + j
        invariant Scanned(g, wIn, bIn, prev, v, info, ctx, squares', n, ep0)
      {
        squares' := ScanSquare(g, wIn, bIn, prev, i, j, squares', v, info, ctx, n, ep0);
        n := n + 1;
      }
    }

    /** The square the scan has recorded as en-passant square once it has visited the first `n` squares. */
    ghost predicate EpAfter(g: array2<Square>, n: int, ep0: Square?)
      requires Dims(g)
      reads this, g
    {
      var w := Index(Pos(oldRow, oldCol + 2 * PawnRules.Dir(pawnWhite)));
      if ScanWritesEp(Info()) && w < n then epSquare == g[oldRow, oldCol + PawnRules.Dir(pawnWhite)]
      else epSquare == ep0
    }

    /** The body of the loops of setValidSquares: square (i, j) is appended when the move there is valid. */
    method ScanSquare(g: array2<Square>, wIn: bool, bIn: bool, prev: Piece?, i: int, j: int, squares: seq<Square>,
                      ghost v: View, ghost info: PieceInfo, ghost ctx: Ctx, ghost n: int, ghost ep0: Square?)
      returns (squares': seq<Square>)
      requires InBounds(i, j) && n == i * BOARD_WIDTH + j
      requires Scanned(g, wIn, bIn, prev, v, info, ctx, squares, n, ep0)
      modifies this`epSquare
      ensures Scanned(g, wIn, bIn, prev, v, info, ctx, squares', n + 1, ep0)
    {
      IndexSplit(i, j);
      ScanNext(v, info, ctx, n);
      SquaresAtAppend(g, squares, Scan(v, info, ctx, n), i, j, MoveRule(v, info, ctx, oldRow, oldCol, i, j));
      var ok := MoveValidity(g, v, wIn, bIn, prev, ctx, oldRow, oldCol, i, j);
      if ok {
        squares' := squares + [g[i, j]];
      } else {
        squares' := squares;
      }
    }

    /** Piece.captureValidity, read off the square objects (Piece.java:94-107). */
    function CaptureValidity(g: array2<Square>, r: int, c: int): bool
      requires GridOk(g) && InBounds(r, c)
      reads this`isWhite, g, Cells(g)`isOccupied, Cells(g)`occupying, OccupantOf(g[r, c])`isWhite
    {
      !(g[r, c].GetIsOccupied() && g[r, c].GetOccupying().isWhite == isWhite)
    }
  }

  /** removeOccupying (or setEmpty) on square (r, c) of the board: the view shows that square empty. */
  method Vacate(g: array2<Square>, ghost v: View, r: Coord, c: Coord)
    requires GridOk(g) && v == ViewOf(g)
    modifies g[r, c]`isOccupied, g[r, c]`occupying
    ensures GridOk(g) && ViewOf(g) == Put(v, Pos(r, c), Empty)
    ensures g[r, c].occupying == null
  {
    g[r, c].RemoveOccupying();
    forall i, j | 0 <= i < BOARD_WIDTH && 0 <= j < BOARD_WIDTH
      ensures ViewOf(g)[i][j] == Put(v, Pos(r, c), Empty)[i][j]
    {
      if i != r || j != c {
        assert g[i, j] != g[r, c];
      }
    }
    SameView(ViewOf(g), Put(v, Pos(r, c), Empty));
  }

  /** setEmpty on square (r, c) of the board: the view shows that square empty. */
  method Clear(g: array2<Square>, ghost v: View, r: Coord, c: Coord)
    requires GridOk(g) && v == ViewOf(g)
    modifies g[r, c]`isOccupied, g[r, c]`occupying
    ensures GridOk(g) && ViewOf(g) == Put(v, Pos(r, c), Empty)
    ensures g[r, c].occupying == null
  {
    g[r, c].SetEmpty();
    forall i, j | 0 <= i < BOARD_WIDTH && 0 <= j < BOARD_WIDTH
      ensures ViewOf(g)[i][j] == Put(v, Pos(r, c), Empty)[i][j]
    {
      if i != r || j != c {
        assert g[i, j] != g[r, c];
      }
    }
    SameView(ViewOf(g), Put(v, Pos(r, c), Empty));
  }

  /**
   * setOccupying(p, board[r][c]) on square (r, c): the square shows `p`, and `p` takes the
   * square's coordinates.
   */
  method Occupy(g: array2<Square>, ghost v: View, r: Coord, c: Coord, p: Piece)
    requires GridOk(g) && v == ViewOf(g)
    modifies g[r, c]`isOccupied, g[r, c]`occupying, p`oldRow, p`oldCol
    ensures GridOk(g) && ViewOf(g) == Put(v, Pos(r, c), Holds(Man(p.isWhite, p.kind, p.isFirstMove)))
    ensures g[r, c].occupying == p && p.oldRow == r && p.oldCol == c
  {
    g[r, c].SetOccupying(p, g[r, c]);
    forall i, j | 0 <= i < BOARD_WIDTH && 0 <= j < BOARD_WIDTH
      ensures ViewOf(g)[i][j] == Put(v, Pos(r, c), Holds(Man(p.isWhite, p.kind, p.isFirstMove)))[i][j]
    {
      if i != r || j != c {
        assert g[i, j] != g[r, c];
      }
    }
    SameView(ViewOf(g), Put(v, Pos(r, c), Holds(Man(p.isWhite, p.kind, p.isFirstMove))));
  }

  /**
   * setOccupying(p, board[r][c]) followed by p.movePiece(board[r][c]): the square shows
   * `p`, and `p` stands on (r, c).
   */
  method Place(g: array2<Square>, ghost v: View, r: Coord, c: Coord, p: Piece)
    requires GridOk(g) && v == ViewOf(g)
    modifies g[r, c]`isOccupied, g[r, c]`occupying, p`oldRow, p`oldCol
    ensures GridOk(g) && ViewOf(g) == Put(v, Pos(r, c), Holds(Man(p.isWhite, p.kind, p.isFirstMove)))
    ensures g[r, c].occupying == p && p.oldRow == r && p.oldCol == c
  {
    Occupy(g, v, r, c, p);
    ghost var w := ViewOf(g);
    p.MovePiece(g[r, c]);
    SameView(ViewOf(g), w);
  }

  /** setIsOccupied on a square that already has an occupant changes nothing the view shows. */
  method Reflag(g: array2<Square>, ghost v: View, r: Coord, c: Coord)
    requires GridOk(g) && v == ViewOf(g) && g[r, c].occupying != null
    modifies g[r, c]`isOccupied
    ensures GridOk(g) && ViewOf(g) == v
  {
    g[r, c].SetIsOccupied();
    forall i, j | 0 <= i < BOARD_WIDTH && 0 <= j < BOARD_WIDTH
      ensures ViewOf(g)[i][j] == v[i][j]
    {
      if i != r || j != c {
        assert g[i, j] != g[r, c];
      }
    }
    SameView(ViewOf(g), v);
  }

  /** The pieces of a list, as a set. */
  function PieceSet(ps: seq<Piece>): set<Piece> {
    set p | p in ps
  }

  /** What the move rules read of each piece of a list. */
  function InfosOf(ps: seq<Piece>): (r: seq<PieceInfo>)
    reads PieceSet(ps)`isWhite, PieceSet(ps)`isFirstMove, PieceSet(ps)`oldRow, PieceSet(ps)`oldCol
    ensures |r| == |ps| && forall k | 0 <= k < |ps| :: r[k] == ps[k].Info()
    ensures forall k | 0 <= k < |ps| :: InBounds(r[k].row, r[k].col)
  {
    if |ps| == 0 then []
    else
      assert PieceSet(ps[..|ps| - 1]) <= PieceSet(ps);
      InfosOf(ps[..|ps| - 1]) + [ps[|ps| - 1].Info()]
  }

  /** Snapshots taken piece by piece are the snapshot of the list. */
  lemma InfosAgree(ps: seq<Piece>, infos: seq<PieceInfo>)
    requires |infos| == |ps| && forall j | 0 <= j < |ps| :: infos[j] == ps[j].Info()
    ensures InfosOf(ps) == infos
  {
  }

  /** Every piece of the list is the occupant of the square at its own coordinates. */
  predicate Standing(g: array2<Square>, ps: seq<Piece>)
    requires Dims(g)
    reads g, Cells(g)`occupying, PieceSet(ps)`oldRow, PieceSet(ps)`oldCol
  {
    forall k | 0 <= k < |ps| :: g[ps[k].oldRow, ps[k].oldCol].occupying == ps[k]
  }

  /** The coordinates of a piece that may be missing. */
  function KingPos(k: Piece?): Option<Pos>
    reads Opt(k)`oldRow, Opt(k)`oldCol
  {
    if k == null then None else Some(Pos(k.oldRow, k.oldCol))
  }

  /** The snapshot of a piece that may be missing. */
  function InfoOf(k: Piece?): Option<PieceInfo>
    reads Opt(k)`isWhite, Opt(k)`isFirstMove, Opt(k)`oldRow, Opt(k)`oldCol
  {
    if k == null then None else Some(k.Info())
  }

  /** A nullable piece as a set of at most one piece. */
  function Opt(p: Piece?): set<Piece> {
    if p == null then {} else {p}
  }

  /**
   * The en-passant square a move query reads off the previously moved piece.  Square
   * objects are compared by identity, so a square of another board (one replaced by a
   * restart) matches no square of this one.
   */
  function EpOf(g: array2<Square>, prev: Piece?): Option<Pos>
    reads g, Opt(prev)`epSquare
  {
    if prev == null || prev.GetEPSquare() == null || prev.GetEPSquare() !in Cells(g) then None
    else Some(Pos(prev.GetEPSquare().row, prev.GetEPSquare().col))
  }

  /** The previously moved piece has made its first move, so scans never write its en-passant square. */
  predicate Settled(prev: Piece?)
    reads Opt(prev)`isFirstMove
  {
    prev == null || !prev.isFirstMove
  }

  lemma ColorNameInjective(a: bool, b: bool)
    ensures ColorName(a) == ColorName(b) <==> a == b
    ensures ColorName(a) == WHITE <==> a
  {
    assert WHITE[0] != BLACK[0];
  }

  lemma OccupiedIff(g: array2<Square>, r: int, c: int)
    requires GridOk(g) && InBounds(r, c)
    ensures g[r, c].isOccupied <==> Occupied(ViewOf(g), r, c)
  {
  }

  lemma CaptureIff(g: array2<Square>, p: Piece, r: int, c: int)
    requires GridOk(g) && InBounds(r, c)
    ensures p.CaptureValidity(g, r, c) <==> CaptureOk(ViewOf(g), p.isWhite, r, c)
  {
  }

  /**
   * The scan loop of the sliding pieces (Bishop.java:41-76, Rook.java:43-75,
   * Queen.java:40-111): walk from the origin by (dr, dc) and report whether every
   * square strictly before the destination is unoccupied.  Each caller passes the
   * direction of its quadrant.
   */
  method ScanPath(g: array2<Square>, ghost v: View, or: int, oc: int, nr: int, nc: int, dr: int, dc: int)
    returns (clear: bool)
    requires GridOk(g) && v == ViewOf(g) && InBounds(or, oc) && InBounds(nr, nc) && Aligned(or, oc, nr, nc)
    requires Dist(or, oc, nr, nc) == 0 || (dr == Compare(nr, or) && dc == Compare(nc, oc))
    ensures GridOk(g) && v == ViewOf(g)
    ensures clear == PathClear(v, or, oc, nr, nc)
  {
    clear := true;
    var row, col := or, oc;
    var t := 1;
    while t < Dist(or, oc, nr, nc)
      invariant 1 <= t && (Dist(or, oc, nr, nc) > 0 ==> t <= Dist(or, oc, nr, nc))
      invariant row == Step(or, nr, t - 1) && col == Step(oc, nc, t - 1)
      invariant clear == FlagsClear(g, or, oc, nr, nc, t)
      invariant GridOk(g) && v == ViewOf(g)
      decreases Dist(or, oc, nr, nc) - t
    {
      row, col := row + dr, col + dc;
      FlagsClearNext(g, or, oc, nr, nc, t);
      if g[row, col].GetIsOccupied() {
        clear := false;
      }
      t := t + 1;
    }
    FlagsClearIff(g, or, oc, nr, nc, t);
  }

  /**
   * The two loops of King.canCastle (King.java:70-89): walk from the king's row
   * towards the rook's, along the king's column, and fail on the first occupied square.
   */
  method CastlePathClear(g: array2<Square>, ghost v: View, or: int, oc: int, nr: int) returns (clear: bool)
    requires GridOk(g) && v == ViewOf(g) && InBounds(or, oc) && 0 <= nr < BOARD_WIDTH
    ensures GridOk(g) && v == ViewOf(g)
    ensures clear == KingRules.RowClear(v, or, oc, nr)
  {
    if Min(or, nr) == or {
      var row := or + 1;
      while row < nr
        invariant or < row <= Max(nr, or + 1)
        invariant GridOk(g) && v == ViewOf(g)
        invariant forall q | or < q < row :: !Occupied(v, q, oc)
      {
        OccupiedIff(g, row, oc);
        if g[row, oc].GetIsOccupied() {
          return false;
        }
        row := row + 1;
      }
    }
    if Min(or, nr) == nr {
      var row := or - 1;
      while row > nr
        invariant Min(nr, or - 1) <= row < or
        invariant GridOk(g) && v == ViewOf(g)
        invariant forall q | row < q < or :: !Occupied(v, q, oc)
      {
        OccupiedIff(g, row, oc);
        if g[row, oc].GetIsOccupied() {
          return false;
        }
        row := row - 1;
      }
    }
    return true;
  }

  /** ClearBefore read off the square flags. */
  predicate FlagsClear(g: array2<Square>, or: int, oc: int, nr: int, nc: int, t: int)
    requires Dims(g) && InBounds(or, oc) && InBounds(nr, nc) && Aligned(or, oc, nr, nc)
    reads g, Cells(g)
  {
    forall k | 0 < k < t && k < Dist(or, oc, nr, nc) ::
      BetweenInBounds(or, oc, nr, nc, k);
      !g[Step(or, nr, k), Step(oc, nc, k)].isOccupied
  }

  lemma FlagsClearNext(g: array2<Square>, or: int, oc: int, nr: int, nc: int, t: int)
    requires Dims(g) && InBounds(or, oc) && InBounds(nr, nc) && Aligned(or, oc, nr, nc)
    requires 0 < t < Dist(or, oc, nr, nc)
    ensures InBounds(Step(or, nr, t), Step(oc, nc, t))
    ensures FlagsClear(g, or, oc, nr, nc, t + 1) <==>
      FlagsClear(g, or, oc, nr, nc, t) && !g[Step(or, nr, t), Step(oc, nc, t)].isOccupied
  {
    BetweenInBounds(or, oc, nr, nc, t);
  }

  lemma FlagsClearIff(g: array2<Square>, or: int, oc: int, nr: int, nc: int, t: int)
    requires GridOk(g) && InBounds(or, oc) && InBounds(nr, nc) && Aligned(or, oc, nr, nc)
    ensures FlagsClear(g, or, oc, nr, nc, t) <==> ClearBefore(ViewOf(g), or, oc, nr, nc, t)
  {
    forall k | 0 < k < t && k < Dist(or, oc, nr, nc)
      ensures InBounds(Step(or, nr, k), Step(oc, nc, k))
      ensures g[Step(or, nr, k), Step(oc, nc, k)].isOccupied <==> Occupied(ViewOf(g), Step(or, nr, k), Step(oc, nc, k))
    {
      BetweenInBounds(or, oc, nr, nc, k);
      OccupiedIff(g, Step(or, nr, k), Step(oc, nc, k));
    }
  }

  /** `squares` are the square objects of the board at the coordinates `ps`, in order. */
  predicate SquaresAt(g: array2<Square>, squares: seq<Square>, ps: seq<Pos>)
    requires Dims(g)
    reads g
  {
    |squares| == |ps| &&
    forall k | 0 <= k < |ps| :: InBounds(ps[k].row, ps[k].col) && squares[k] == g[ps[k].row, ps[k].col]
  }

  lemma SquaresAtAppend(g: array2<Square>, squares: seq<Square>, ps: seq<Pos>, i: int, j: int, ok: bool)
    requires Dims(g) && SquaresAt(g, squares, ps) && InBounds(i, j)
    ensures SquaresAt(g, squares + (if ok then [g[i, j]] else []), ps + (if ok then [Pos(i, j)] else []))
  {
  }

  lemma IndexSplit(i: int, j: int)
    requires 0 <= i < BOARD_WIDTH && 0 <= j < BOARD_WIDTH
    ensures At(i * BOARD_WIDTH + j) == Pos(i, j) && Index(Pos(i, j)) == i * BOARD_WIDTH + j
  {
  }

  /** Squares of the board are told apart by their coordinates. */
  lemma SquareIdentity(g: array2<Square>, s: Square, r: int, c: int)
    requires GridOk(g) && s in Cells(g) && InBounds(r, c)
    ensures s == g[r, c] <==> s.row == r && s.col == c
  {
    var i, j :| 0 <= i < g.Length0 && 0 <= j < g.Length1 && g[i, j] == s;
  }

  predicate Dims(g: array2<Square>) {
    g.Length0 == BOARD_WIDTH && g.Length1 == BOARD_WIDTH
  }

  function Cells(g: array2<Square>): set<Square>
    reads g
  {
    set i, j | 0 <= i < g.Length0 && 0 <= j < g.Length1 :: g[i, j]
  }

  function Occupants(g: array2<Square>): set<Piece>
    reads g, Cells(g)`occupying
  {
    set i, j | 0 <= i < g.Length0 && 0 <= j < g.Length1 && g[i, j].occupying != null :: g[i, j].occupying
  }

  /**
   * The board array holds the square of each coordinate, and a square is flagged
   * occupied exactly when it has an occupant.
   */
  predicate GridOk(g: array2<Square>)
    reads g, Cells(g)`isOccupied, Cells(g)`occupying
  {
    Dims(g) &&
    forall i, j | 0 <= i < BOARD_WIDTH && 0 <= j < BOARD_WIDTH ::
      g[i, j].row == i && g[i, j].col == j && (g[i, j].isOccupied <==> g[i, j].occupying != null)
  }

  /** The occupant of a square, as a set of at most one piece. */
  function OccupantOf(s: Square): set<Piece>
    reads s`occupying
  {
    if s.occupying == null then {} else {s.occupying}
  }

  /** What the board shows of a piece standing on a square. */
  function ManOf(p: Piece): Man
    reads p`isWhite, p`isFirstMove
  {
    Man(p.isWhite, p.kind, p.isFirstMove)
  }

  function CellOf(s: Square): Cell
    reads s`isOccupied, s`occupying, OccupantOf(s)`isWhite, OccupantOf(s)`isFirstMove
  {
    if s.isOccupied && s.occupying != null then
      Holds(Man(s.occupying.isWhite, s.occupying.kind, s.occupying.isFirstMove))
    else Empty
  }

  /** The board as the move rules see it. */
  function ViewOf(g: array2<Square>): (v: View)
    requires Dims(g)
    reads g, Cells(g)`isOccupied, Cells(g)`occupying, Occupants(g)`isWhite, Occupants(g)`isFirstMove
    ensures WellFormed(v)
    ensures forall i, j {:trigger v[i][j]} | 0 <= i < BOARD_WIDTH && 0 <= j < BOARD_WIDTH :: v[i][j] == CellOf(g[i, j])
  {
    var rows := RowsOf(g, BOARD_WIDTH);
    assert forall i | 0 <= i < BOARD_WIDTH :: |rows[i]| == BOARD_WIDTH && rows[i] == RowOf(g, i, BOARD_WIDTH);
    rows
  }

  /** The first `n` rows of the view. */
  function RowsOf(g: array2<Square>, n: int): (rows: seq<seq<Cell>>)
    requires Dims(g) && 0 <= n <= BOARD_WIDTH
    reads g, Cells(g)`isOccupied, Cells(g)`occupying, Occupants(g)`isWhite, Occupants(g)`isFirstMove
    ensures |rows| == n
    ensures forall i | 0 <= i < n :: rows[i] == RowOf(g, i, BOARD_WIDTH)
  {
    if n == 0 then [] else RowsOf(g, n - 1) + [RowOf(g, n - 1, BOARD_WIDTH)]
  }

  /** The first `n` cells of row `i` of the view. */
  function RowOf(g: array2<Square>, i: int, n: int): (row: seq<Cell>)
    requires Dims(g) && 0 <= i < BOARD_WIDTH && 0 <= n <= BOARD_WIDTH
    reads g, Cells(g)`isOccupied, Cells(g)`occupying, Occupants(g)`isWhite, Occupants(g)`isFirstMove
    ensures |row| == n && forall j | 0 <= j < n :: row[j] == CellOf(g[i, j])
  {
    if n == 0 then [] else RowOf(g, i, n - 1) + [CellOf(g[i, n - 1])]
  }

  /** Every occupant of the board is one of `pool`. */
  ghost predicate Within(g: array2<Square>, pool: set<Piece>)
    requires Dims(g)
    reads g, Cells(g)`occupying
  {
    forall r, c | 0 <= r < BOARD_WIDTH && 0 <= c < BOARD_WIDTH :: g[r, c].occupying != null ==> g[r, c].occupying in pool
  }

  /** What a square records of its occupant: the piece, and the square the piece records as its own. */
  datatype Occupancy = Vacant | Sitting(man: Piece, row: int, col: int)

  type Seats = seq<seq<Occupancy>>

  predicate Shaped(l: Seats) {
    |l| == BOARD_WIDTH && forall r | 0 <= r < BOARD_WIDTH :: |l[r]| == BOARD_WIDTH
  }

  ghost function SeatOf(s: Square): Occupancy
    reads s`occupying, OccupantOf(s)`oldRow, OccupantOf(s)`oldCol
  {
    if s.occupying == null then Vacant else Sitting(s.occupying, s.occupying.oldRow, s.occupying.oldCol)
  }

  /** The occupants of the board, square by square, with the positions they record. */
  ghost function Lay(g: array2<Square>): (l: Seats)
    requires Dims(g)
    reads g, Cells(g)`occupying, Occupants(g)`oldRow, Occupants(g)`oldCol
    ensures Shaped(l)
  {
    var rows := LayRows(g, BOARD_WIDTH);
    assert forall r | 0 <= r < BOARD_WIDTH :: |rows[r]| == BOARD_WIDTH && rows[r] == LayRow(g, r, BOARD_WIDTH);
    rows
  }

  /** Square by square, the layout records each square's occupant and the position it records. */
  lemma LayAt(g: array2<Square>)
    requires Dims(g)
    ensures forall r, c {:trigger Lay(g)[r][c]} | 0 <= r < BOARD_WIDTH && 0 <= c < BOARD_WIDTH ::
      Lay(g)[r][c] == if g[r, c].occupying == null then Vacant
                      else Sitting(g[r, c].occupying, g[r, c].occupying.oldRow, g[r, c].occupying.oldCol)
  {
    assert forall r | 0 <= r < BOARD_WIDTH :: Lay(g)[r] == LayRow(g, r, BOARD_WIDTH);
  }

  /** The first `n` rows of the layout. */
  ghost function LayRows(g: array2<Square>, n: int): (rows: seq<seq<Occupancy>>)
    requires Dims(g) && 0 <= n <= BOARD_WIDTH
    reads g, Cells(g)`occupying, Occupants(g)`oldRow, Occupants(g)`oldCol
    ensures |rows| == n
    ensures forall r | 0 <= r < n :: rows[r] == LayRow(g, r, BOARD_WIDTH)
  {
    if n == 0 then [] else LayRows(g, n - 1) + [LayRow(g, n - 1, BOARD_WIDTH)]
  }

  /** The first `n` squares of row `r` of the layout. */
  ghost function LayRow(g: array2<Square>, r: int, n: int): (row: seq<Occupancy>)
    requires Dims(g) && 0 <= r < BOARD_WIDTH && 0 <= n <= BOARD_WIDTH
    reads g, Cells(g)`occupying, Occupants(g)`oldRow, Occupants(g)`oldCol
    ensures |row| == n && forall c | 0 <= c < n :: row[c] == SeatOf(g[r, c])
  {
    if n == 0 then [] else LayRow(g, r, n - 1) + [SeatOf(g[r, n - 1])]
  }

  /** Seats `l` with square `s` recording `x`. */
  function PutSeat(l: Seats, s: Pos, x: Occupancy): (m: Seats)
    requires Shaped(l) && InBounds(s.row, s.col)
    ensures Shaped(m)
  {
    l[s.row := l[s.row][s.col := x]]
  }

  /** Every occupant records the square it stands on as its position. */
  predicate SeatedOn(l: Seats)
    requires Shaped(l)
  {
    forall r, c | 0 <= r < BOARD_WIDTH && 0 <= c < BOARD_WIDTH && l[r][c].Sitting? :: l[r][c].row == r && l[r][c].col == c
  }

  /** `p` is null or stands on no square of `l`. */
  predicate Absent(l: Seats, p: Piece?)
    requires Shaped(l)
  {
    p == null || forall r, c | 0 <= r < BOARD_WIDTH && 0 <= c < BOARD_WIDTH :: l[r][c].Vacant? || l[r][c].man != p
  }

  /** The board is seated exactly when every occupant records the square it stands on. */
  lemma SeatedAt(g: array2<Square>)
    requires Dims(g)
    ensures Seated(g) <==> forall r, c | 0 <= r < BOARD_WIDTH && 0 <= c < BOARD_WIDTH && g[r, c].occupying != null ::
      g[r, c].occupying.oldRow == r && g[r, c].occupying.oldCol == c
  {
    LayAt(g);
    var l: Seats := Lay(g);
    assert forall r, c | 0 <= r < BOARD_WIDTH && 0 <= c < BOARD_WIDTH ::
      (l[r][c].Sitting? <==> g[r, c].occupying != null);
  }

  /** A piece standing on two squares records the same position on both. */
  predicate Consistent(l: Seats)
    requires Shaped(l)
  {
    forall r, c, r', c' | 0 <= r < BOARD_WIDTH && 0 <= c < BOARD_WIDTH && 0 <= r' < BOARD_WIDTH && 0 <= c' < BOARD_WIDTH &&
      l[r][c].Sitting? && l[r'][c'].Sitting? && l[r][c].man == l[r'][c'].man ::
      l[r][c].row == l[r'][c'].row && l[r][c].col == l[r'][c'].col
  }

  /** The board's layout is consistent: a piece records one position. */
  lemma LayConsistent(g: array2<Square>)
    requires Dims(g)
    ensures Consistent(Lay(g))
  {
    LayAt(g);
  }

  /** Two layouts that agree on every square are equal. */
  lemma SameLay(l: Seats, m: Seats)
    requires Shaped(l) && Shaped(m)
    requires forall r, c | 0 <= r < BOARD_WIDTH && 0 <= c < BOARD_WIDTH :: l[r][c] == m[r][c]
    ensures l == m
  {
    forall r | 0 <= r < BOARD_WIDTH
      ensures l[r] == m[r]
    {
      assert forall c | 0 <= c < BOARD_WIDTH :: l[r][c] == m[r][c];
    }
  }

  /** Every occupant of the board records its own square as its position. */
  ghost predicate Seated(g: array2<Square>)
    requires Dims(g)
    reads g, Cells(g)`occupying, Occupants(g)`oldRow, Occupants(g)`oldCol
  {
    SeatedOn(Lay(g))
  }

  /** After one square is emptied or given an occupant of `pool`, the board is still within `pool`. */
  lemma ReseatWithin(g: array2<Square>, s: Pos, pool: set<Piece>)
    requires Dims(g) && InBounds(s.row, s.col) && (g[s.row, s.col].occupying != null ==> g[s.row, s.col].occupying in pool)
    requires forall r, c | 0 <= r < BOARD_WIDTH && 0 <= c < BOARD_WIDTH && (r != s.row || c != s.col) ::
      g[r, c].occupying != null ==> g[r, c].occupying in pool
    ensures Within(g, pool)
  {
  }

  /** The board is within the set of its own occupants. */
  lemma WithinOccupants(g: array2<Square>)
    requires Dims(g)
    ensures Within(g, Occupants(g))
  {
    forall r, c | 0 <= r < BOARD_WIDTH && 0 <= c < BOARD_WIDTH && g[r, c].occupying != null
      ensures g[r, c].occupying in Occupants(g)
    {
      assert 0 <= r < g.Length0 && 0 <= c < g.Length1;
    }
  }
}
