/**
 * The heap side of silly mode (Game.java:434-769): sillyShift and shiftBoard pick a
 * direction and shift the board, then generateLowerHierarchyPiece and
 * transformRandomPieceInWrappedCol / Row replace one piece on the wrap line.  The
 * draws of Math.random are parameters.
 */
module Transforms {
  import opened Core
  import opened Pieces
  import opened Boards
  import opened Silly
  import opened Shifts
  import opened Commits

  /**
   * generateLowerHierarchyPiece (Game.java:667-700): a new piece of the other colour
   * whose kind the draw `u` selects below that of `higher`; a pawn makes a pawn.
   */
  method GenerateLowerHierarchyPiece(higher: Piece, u: Unit) returns (lower: Piece)
    requires UnitOk(u)
    ensures fresh(lower) && lower.kind == Demoted(higher.kind, u)
    ensures lower.isWhite == !higher.isWhite && lower.pawnWhite == lower.isWhite && lower.isFirstMove
  {
    ColorNameInjective(higher.isWhite, true);
    var isWhite := higher.GetColor() == WHITE;
    lower := new Piece(Pawn, 0, 0, !isWhite);
    var random := LH;
    if higher.GetType() == TypeName(Rook) {
      random := LH_ROOK;
    } else if higher.GetType() == TypeName(Bishop) {
      random := LH_BISHOP;
    } else if higher.GetType() == TypeName(Knight) {
      random := LH_KNIGHT;
    } else if higher.GetType() == TypeName(Pawn) {
      random := 0;
    }
    var n := Scale(u, random);
    if n == 0 {
      lower := new Piece(Pawn, 0, 0, !isWhite);
    } else if n == 1 {
      lower := new Piece(Knight, 0, 0, !isWhite);
    } else if n == 2 {
      lower := new Piece(Bishop, 0, 0, !isWhite);
    } else if n == 3 {
      lower := new Piece(Rook, 0, 0, !isWhite);
    }
  }

  /** The square of index `k` of line `i`, on the board. */
  function SquareOn(g: array2<Square>, col: bool, i: Coord, k: Coord): Square
    requires Dims(g)
    reads g
  {
    if col then g[k, i] else g[i, k]
  }

  /**
   * The candidate loop of transformRandomPieceInWrappedCol / Row (Game.java:709-716,
   * 744-751): the indices of the squares of line `i` that hold a piece other than a
   * king, in increasing order.
   */
  method CollectCandidates(g: array2<Square>, col: bool, i: Coord, ghost v: View) returns (ks: seq<nat>)
    requires GridOk(g) && v == ViewOf(g)
    ensures ks == Candidates(LineOf(v, col, i), BOARD_WIDTH)
    ensures GridOk(g) && v == ViewOf(g)
  {
    ks := [];
    for k := 0 to BOARD_WIDTH
      invariant ks == Candidates(LineOf(v, col, i), k)
    {
      var s := SquareOn(g, col, i, k);
      assert LineOf(v, col, i)[k] == CellOf(s);
      if s.GetIsOccupied() {
        if s.GetOccupying().GetType() != TypeName(King) {
          ks := ks + [k];
        }
      }
    }
  }

  /** `getPieces(whitePlayer).add(p)`: the board shows the same. */
  method AppendWhite(b: Board, p: Piece, ghost v: View, ghost pool: set<Piece>)
    requires GridOk(b.grid) && v == ViewOf(b.grid) && Within(b.grid, pool)
    modifies b`whitePieces
    ensures GridOk(b.grid) && ViewOf(b.grid) == v && Within(b.grid, pool)
    ensures b.whitePieces == old(b.whitePieces) + [p]
    ensures b.Pool() == old(b.Pool()) + {p}
  {
    b.whitePieces := b.whitePieces + [p];
    SameView(ViewOf(b.grid), v);
  }

  /**
   * The square (r, c) emptied and, in a column, its piece `sp` taken off its list
   * (Game.java:722-723; a row does not delist, Game.java:757).
   */
  method Unmake(b: Board, col: bool, r: Coord, c: Coord, sp: Piece, ghost v: View, ghost pool: set<Piece>)
    requires GridOk(b.grid) && v == ViewOf(b.grid) && Within(b.grid, pool)
    modifies b.grid[r, c]`isOccupied, b.grid[r, c]`occupying, b`whitePieces, b`blackPieces
    ensures GridOk(b.grid) && Within(b.grid, pool)
    ensures ViewOf(b.grid) == Put(v, Pos(r, c), Empty)
    ensures b.whitePieces == if col && sp.isWhite then RemoveFirst(old(b.whitePieces), sp) else old(b.whitePieces)
    ensures b.blackPieces == if col && !sp.isWhite then RemoveFirst(old(b.blackPieces), sp) else old(b.blackPieces)
    ensures b.Pool() <= old(b.Pool())
  {
    Unseat(b.grid, v, r, c, pool);
    if col {
      Delist(b, sp, Put(v, Pos(r, c), Empty), pool);
    }
  }

  /**
   * generateLowerHierarchyPiece(sp) and setColor (Game.java:724-725, 758-759): the new
   * piece has the kind `lower` draws and the colour opposite to `sp`.
   */
  method Draw(g: array2<Square>, sp: Piece, lower: Unit, ghost v: View, ghost pool: set<Piece>) returns (lp: Piece)
    requires GridOk(g) && v == ViewOf(g) && Within(g, pool) && UnitOk(lower)
    ensures fresh(lp) && ManOf(lp) == Man(!sp.isWhite, Demoted(sp.kind, lower), true)
    ensures GridOk(g) && v == ViewOf(g) && Within(g, pool)
  {
    lp := GenerateLowerHierarchyPiece(sp, lower);
    ColorNameInjective(sp.isWhite, true);
    lp.SetColor(!(sp.GetColor() == WHITE));
    SameView(ViewOf(g), v);
  }

  /** CollectCandidates, which changes nothing: the board stays as seated as it was. */
  method CandidatesSeated(g: array2<Square>, col: bool, i: Coord, ghost v: View) returns (ks: seq<nat>)
    requires GridOk(g) && v == ViewOf(g)
    ensures ks == Candidates(LineOf(v, col, i), BOARD_WIDTH)
    ensures GridOk(g) && v == ViewOf(g)
    ensures old(Seated(g)) ==> Seated(g)
  {
    SeatedAt(g);
    ks := CollectCandidates(g, col, i, v);
    SeatedAt(g);
  }

  /**
   * ReplaceAt, seen from the rest of the board: every other square keeps its occupant and
   * every occupant its coordinates, so a board whose occupants record their own squares
   * keeps that property.
   */
  method ReseatAt(b: Board, col: bool, r: Coord, c: Coord, lower: Unit, ghost v: View, ghost pool: set<Piece>)
    returns (lp: Piece)
    requires GridOk(b.grid) && v == ViewOf(b.grid) && Within(b.grid, pool) && UnitOk(lower)
    requires b.grid[r, c].isOccupied
    modifies b.grid[r, c]`isOccupied, b.grid[r, c]`occupying, b`whitePieces, b`blackPieces
    ensures fresh(lp) && GridOk(b.grid) && Within(b.grid, pool + {lp})
    ensures v[r][c].Holds? && ViewOf(b.grid) == Put(v, Pos(r, c), DemotedCell(v[r][c].man, lower))
    ensures b.Pool() <= old(b.Pool()) + {lp}
    ensures old(Seated(b.grid)) ==> Seated(b.grid)
  {
    var g := b.grid;
    SeatedAt(g);
    assert forall i, j | 0 <= i < BOARD_WIDTH && 0 <= j < BOARD_WIDTH && (i != r || j != c) :: g[i, j] != g[r, c];
    lp := ReplaceAt(b, col, r, c, lower, v, pool);
    SeatedAt(g);
  }

  /**
   * The replacement of the piece on square (r, c) of line `i` (Game.java:720-734 for a
   * column, 755-767 for a row), entered when the square is flagged occupied: the square
   * shows the demoted piece drawn by `lower`, the new piece `lp`.
   */
  method ReplaceAt(b: Board, col: bool, r: Coord, c: Coord, lower: Unit, ghost v: View, ghost pool: set<Piece>)
    returns (lp: Piece)
    requires GridOk(b.grid) && v == ViewOf(b.grid) && Within(b.grid, pool) && UnitOk(lower)
    requires b.grid[r, c].isOccupied
    modifies b.grid[r, c]`isOccupied, b.grid[r, c]`occupying, b`whitePieces, b`blackPieces
    ensures fresh(lp) && GridOk(b.grid) && Within(b.grid, pool + {lp})
    ensures v[r][c].Holds? && ViewOf(b.grid) == Put(v, Pos(r, c), DemotedCell(v[r][c].man, lower))
    ensures b.Pool() <= old(b.Pool()) + {lp}
    ensures b.grid[r, c].occupying == lp && lp.oldRow == r && lp.oldCol == c
  {
    var sp := b.grid[r, c].GetOccupying();
    assert v[r][c] == Holds(ManOf(sp));
    Unmake(b, col, r, c, sp, v, pool);
    lp := Draw(b.grid, sp, lower, Put(v, Pos(r, c), Empty), pool);
    Remake(b, col, r, c, lp, Put(v, Pos(r, c), Empty), pool);
    PutPut(v, Pos(r, c), Empty, Holds(ManOf(lp)));
  }

  /**
   * The second half (Game.java:726-732 for a column, 760-766 for a row): a white new
   * piece joins the white list, and it is set onto the square (r, c), which a column
   * also flags occupied.
   */
  method Remake(b: Board, col: bool, r: Coord, c: Coord, lp: Piece, ghost v: View, ghost pool: set<Piece>)
    requires GridOk(b.grid) && v == ViewOf(b.grid) && Within(b.grid, pool)
    modifies b.grid[r, c]`isOccupied, b.grid[r, c]`occupying, b`whitePieces, lp`oldRow, lp`oldCol
    ensures GridOk(b.grid) && Within(b.grid, pool + {lp})
    ensures ViewOf(b.grid) == Put(v, Pos(r, c), Holds(ManOf(lp)))
    ensures b.whitePieces == old(b.whitePieces) + (if lp.isWhite then [lp] else [])
    ensures b.Pool() <= old(b.Pool()) + {lp}
    ensures b.grid[r, c].occupying == lp && lp.oldRow == r && lp.oldCol == c
  {
    var g := b.grid;
    ColorNameInjective(lp.isWhite, true);
    if lp.GetColor() == WHITE {
      AppendWhite(b, lp, v, pool);
    }
    Seat(g, v, r, c, lp, pool + {lp});
    ghost var v2 := Put(v, Pos(r, c), Holds(ManOf(lp)));
    if col {
      Raise(g, v2, r, c, pool + {lp});
    }
    Repiece(g, v2, lp, r, c, pool + {lp});
  }

  /**
   * transformRandomPieceInWrappedCol(i) when `col`, transformRandomPieceInWrappedRow(i)
   * otherwise (Game.java:708-769): the candidate `pick` selects is replaced by its
   * demoted piece, drawn by `lower`; without candidates nothing changes.  `made` is the
   * new piece, absent exactly when there was no candidate.
   */
  method TransformLine(b: Board, col: bool, i: Coord, pick: Unit, lower: Unit, ghost v: View, ghost pool: set<Piece>)
    returns (ghost made: set<Piece>)
    requires GridOk(b.grid) && v == ViewOf(b.grid) && Within(b.grid, pool) && UnitOk(pick) && UnitOk(lower)
    modifies Cells(b.grid)`isOccupied, Cells(b.grid)`occupying, b`whitePieces, b`blackPieces
    ensures GridOk(b.grid) && ViewOf(b.grid) == Transformed(v, col, i, pick, lower)
    ensures fresh(made) && |made| <= 1 && Within(b.grid, pool + made)
    ensures b.Pool() <= old(b.Pool()) + made
    ensures Candidates(LineOf(v, col, i), BOARD_WIDTH) == [] ==>
      made == {} && b.whitePieces == old(b.whitePieces) && b.blackPieces == old(b.blackPieces)
    ensures old(Seated(b.grid)) ==> Seated(b.grid)
  {
    var g := b.grid;
    made := {};
    var ks := CandidatesSeated(g, col, i, v);
    if |ks| > 0 {
      CandidatesSpec(LineOf(v, col, i), BOARD_WIDTH);
      var randomIndex := Scale(pick, |ks|);
      var k := ks[randomIndex];
      var s := LineSquare(col, i, k);
      assert SquareOn(g, col, i, k) == g[s.row, s.col];
      if g[s.row, s.col].GetIsOccupied() {
        var lp := ReseatAt(b, col, s.row, s.col, lower, v, pool);
        made := {lp};
      }
    }
  }

  /**
   * sillyShift(captured) (Game.java:434-438): after the capture of anything but a pawn
   * the board is shifted in the direction `dir` selects and the wrap line transformed;
   * a captured pawn changes nothing.
   */
  method SillyShift(b: Board, captured: Piece, dir: Unit, pick: Unit, lower: Unit, ghost v: View, ghost pool: set<Piece>)
    returns (ghost made: set<Piece>)
    requires GridOk(b.grid) && v == ViewOf(b.grid) && Within(b.grid, pool)
    requires UnitOk(dir) && UnitOk(pick) && UnitOk(lower)
    modifies Cells(b.grid)`isOccupied, Cells(b.grid)`occupying, b`whitePieces, b`blackPieces, pool`oldRow, pool`oldCol
    ensures GridOk(b.grid) && fresh(made) && Within(b.grid, pool + made)
    ensures b.Pool() <= old(b.Pool()) + made
    ensures captured.kind == Pawn ==> ViewOf(b.grid) == v && made == {} && b.Pool() == old(b.Pool())
    ensures captured.kind != Pawn ==>
      var d := DirectionOf(dir);
      ViewOf(b.grid) == Transformed(Shifted(v, d), Vertical(d), WrapLine(d), pick, lower)
    ensures old(Seated(b.grid)) ==> Seated(b.grid)
  {
    made := {};
    if captured.GetType() != TypeName(Pawn) {
      made := ShiftBoard(b, dir, pick, lower, v, pool);
    }
  }

  /**
   * shiftBoard (Game.java:444-460) with shiftUp, shiftDown, shiftLeft or shiftRight:
   * every line shifts one square, then the line that received the wrapped pieces, a
   * column after shiftUp or shiftDown and a row after shiftLeft or shiftRight, is
   * transformed.
   */
  method ShiftBoard(b: Board, dir: Unit, pick: Unit, lower: Unit, ghost v: View, ghost pool: set<Piece>)
    returns (ghost made: set<Piece>)
    requires GridOk(b.grid) && v == ViewOf(b.grid) && Within(b.grid, pool)
    requires UnitOk(dir) && UnitOk(pick) && UnitOk(lower)
    modifies Cells(b.grid)`isOccupied, Cells(b.grid)`occupying, b`whitePieces, b`blackPieces, pool`oldRow, pool`oldCol
    ensures GridOk(b.grid) && fresh(made) && Within(b.grid, pool + made)
    ensures b.Pool() <= old(b.Pool()) + made
    ensures var d := DirectionOf(dir);
      ViewOf(b.grid) == Transformed(Shifted(v, d), Vertical(d), WrapLine(d), pick, lower)
    ensures old(Seated(b.grid)) ==> Seated(b.grid)
  {
    var direction := Scale(dir, DIRECTIONS);
    var d := if direction == 0 then Up else if direction == 1 then Down else if direction == 2 then Left else Right;
    ShiftAll(b.grid, d, v, pool);
    made := TransformLine(b, Vertical(d), WrapLine(d), pick, lower, Shifted(v, d), pool);
  }
}
