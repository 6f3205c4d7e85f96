/**
 * The heap side of Board's constructor: the square objects of setupBoardLayout and the
 * piece objects of setupWhitePieces / setupBlackPieces (Board.java:304-447), without
 * the colours, images and click handlers.
 */
module Setups {
  import opened Core
  import opened Checks
  import opened Pieces
  import opened Layout

  /**
   * The array the constructor allocates, as setupBoardLayout fills it (Board.java:33,
   * 304-321): a new unoccupied square for every coordinate.
   */
  method SetupBoardLayout() returns (g: array2<Square>)
    ensures fresh(g) && GridOk(g) && ViewOf(g) == Blank()
    ensures forall i, j | 0 <= i < BOARD_WIDTH && 0 <= j < BOARD_WIDTH :: fresh(g[i, j])
  {
    var rows: seq<seq<Square>> := [];
    for i := 0 to BOARD_WIDTH
      invariant |rows| == i
      invariant forall a | 0 <= a < i :: |rows[a]| == BOARD_WIDTH
      invariant forall a, b | 0 <= a < i && 0 <= b < BOARD_WIDTH ::
        fresh(rows[a][b]) && rows[a][b].row == a && rows[a][b].col == b && !rows[a][b].isOccupied && rows[a][b].occupying == null
    {
      var row: seq<Square> := [];
      for j := 0 to BOARD_WIDTH
        invariant |row| == j
        invariant forall a, b | 0 <= a < i && 0 <= b < BOARD_WIDTH ::
          rows[a][b].row == a && rows[a][b].col == b && !rows[a][b].isOccupied && rows[a][b].occupying == null
        invariant forall b | 0 <= b < j ::
          fresh(row[b]) && row[b].row == i && row[b].col == b && !row[b].isOccupied && row[b].occupying == null
      {
        var s := new Square(i, j, false);
        row := row + [s];
      }
      rows := rows + [row];
    }
    g := new Square[BOARD_WIDTH, BOARD_WIDTH]((i, j) requires 0 <= i < BOARD_WIDTH && 0 <= j < BOARD_WIDTH => rows[i][j]);
    SameView(ViewOf(g), Blank());
  }

  /**
   * The squares and pieces of Board's constructor (Board.java:41-43): setupBoardLayout,
   * setupWhitePieces, setupBlackPieces.
   */
  method SetupBoard() returns (g: array2<Square>, ws: seq<Piece>, bs: seq<Piece>)
    ensures fresh(g) && Initial(g, ws, bs)
  {
    g := SetupBoardLayout();
    ws := SetupPieces(g, true, [], [], Blank());
    WhiteLeavesBlackHome();
    bs := SetupPieces(g, false, ws, Setup(true), Arrange(Blank(), Setup(true)));
    InfosAgree(ws, Setup(true));
    InfosAgree(bs, Setup(false));
    SetupPlaced(false);
    ArrangeAppend(Blank(), Setup(true), Setup(false));
    OpeningLayout();
  }

  /**
   * The opening state: the board shows the opening position, each list holds its
   * colour's pieces in creation order, and every piece is on its own square.
   */
  ghost predicate Initial(g: array2<Square>, ws: seq<Piece>, bs: seq<Piece>)
    reads g, Cells(g)`isOccupied, Cells(g)`occupying, Occupants(g)`isWhite, Occupants(g)`isFirstMove
    reads PieceSet(ws)`isWhite, PieceSet(ws)`isFirstMove, PieceSet(ws)`oldRow, PieceSet(ws)`oldCol
    reads PieceSet(bs)`isWhite, PieceSet(bs)`isFirstMove, PieceSet(bs)`oldRow, PieceSet(bs)`oldCol
  {
    GridOk(g) && ViewOf(g) == Opening() &&
    InfosOf(ws) == Setup(true) && InfosOf(bs) == Setup(false) &&
    Standing(g, ws) && Standing(g, bs)
  }

  /**
   * One stanza of the setup methods: a new piece of `kind` is set onto square (r, c),
   * which was empty.  The pieces placed earlier, `others` and those of the list being
   * built, `ps`, keep their squares.
   */
  method AddPiece(g: array2<Square>, kind: Kind, r: Coord, c: Coord, white: bool,
                  ghost v: View, ghost others: seq<Piece>, ghost oinfos: seq<PieceInfo>, ghost ps: seq<Piece>, ghost infos: seq<PieceInfo>)
    returns (p: Piece)
    requires GridOk(g) && v == ViewOf(g) && v[r][c] == Empty
    requires Standing(g, others) && Standing(g, ps) && Keeps(others, oinfos)
    requires |ps| < |infos| && infos[|ps|] == Fresh(kind, white, r, c)
    requires forall k | 0 <= k < |ps| :: ps[k].Info() == infos[k]
    modifies g[r, c]`isOccupied, g[r, c]`occupying
    ensures GridOk(g) && ViewOf(g) == Put(v, Pos(r, c), CellOfInfo(Fresh(kind, white, r, c)))
    ensures Standing(g, others) && Standing(g, ps + [p]) && Keeps(others, oinfos)
    ensures forall k | 0 <= k < |ps| + 1 :: (ps + [p])[k].Info() == infos[k]
  {
    p := new Piece(kind, r, c, white);
    SameView(ViewOf(g), v);
    Occupy(g, v, r, c, p);
    forall k | 0 <= k < |others|
      ensures g[others[k].oldRow, others[k].oldCol].occupying == others[k]
    {
      assert g[others[k].oldRow, others[k].oldCol] != g[r, c];
    }
    forall k | 0 <= k < |ps + [p]|
      ensures g[(ps + [p])[k].oldRow, (ps + [p])[k].oldCol].occupying == (ps + [p])[k]
    {
      if k < |ps| {
        assert (ps + [p])[k] == ps[k] && g[ps[k].oldRow, ps[k].oldCol] != g[r, c];
      }
    }
  }

  /**
   * The state of a setup method after the first |ps| pieces of its colour: they are the
   * list so far, each on its own square, and the board shows them over `v0`.
   */
  ghost predicate Built(g: array2<Square>, white: bool, others: seq<Piece>, oinfos: seq<PieceInfo>, v0: View, ps: seq<Piece>)
    reads g, Cells(g)`isOccupied, Cells(g)`occupying, Occupants(g)`isWhite, Occupants(g)`isFirstMove
    reads PieceSet(others)`isWhite, PieceSet(others)`isFirstMove, PieceSet(others)`oldRow, PieceSet(others)`oldCol
    reads PieceSet(ps)`isWhite, PieceSet(ps)`isFirstMove, PieceSet(ps)`oldRow, PieceSet(ps)`oldCol
  {
    WellFormed(v0) && Cleared(v0, white) && |ps| <= |Setup(white)| &&
    Placed(Setup(white)[..|ps|]) && GridOk(g) && ViewOf(g) == Arrange(v0, Setup(white)[..|ps|]) &&
    (forall k | 0 <= k < |ps| :: ps[k].Info() == Setup(white)[k]) &&
    Standing(g, others) && Standing(g, ps) && Keeps(others, oinfos)
  }

  /** The pieces of a list still have the snapshots `infos`. */
  ghost predicate Keeps(ps: seq<Piece>, infos: seq<PieceInfo>)
    reads PieceSet(ps)`isWhite, PieceSet(ps)`isFirstMove, PieceSet(ps)`oldRow, PieceSet(ps)`oldCol
  {
    |infos| == |ps| && forall k | 0 <= k < |ps| :: ps[k].Info() == infos[k]
  }

  /** The next stanza of a setup method: the piece (kind, r, c) is the next of its colour's list. */
  method SetupStep(g: array2<Square>, kind: Kind, r: Coord, c: Coord, white: bool,
                   ghost others: seq<Piece>, ghost oinfos: seq<PieceInfo>, ghost v0: View, ps: seq<Piece>)
    returns (ps': seq<Piece>)
    requires Built(g, white, others, oinfos, v0, ps)
    requires |ps| < |Setup(white)| && Setup(white)[|ps|] == Fresh(kind, white, r, c)
    modifies g[r, c]`isOccupied, g[r, c]`occupying
    ensures Built(g, white, others, oinfos, v0, ps') && |ps'| == |ps| + 1 && Cells(g) == old(Cells(g))
  {
    SetupNext(v0, white, |ps|);
    ghost var v := ViewOf(g);
    var p := AddPiece(g, kind, r, c, white, v, others, oinfos, ps, Setup(white));
    ps' := ps + [p];
  }

  /**
   * setupWhitePieces / setupBlackPieces (Board.java:328-447): the pawn loop, then the
   * knights, rooks, bishops, king and queen, each appended to the list and set onto
   * its square.
   */
  method SetupPieces(g: array2<Square>, white: bool, ghost others: seq<Piece>, ghost oinfos: seq<PieceInfo>, ghost v0: View)
    returns (ps: seq<Piece>)
    requires GridOk(g) && WellFormed(v0) && ViewOf(g) == v0 && Cleared(v0, white) && Standing(g, others) && Keeps(others, oinfos)
    modifies Cells(g)`isOccupied, Cells(g)`occupying
    ensures Placed(Setup(white)) && GridOk(g) && ViewOf(g) == Arrange(v0, Setup(white))
    ensures |ps| == |Setup(white)| && forall k | 0 <= k < |ps| :: ps[k].Info() == Setup(white)[k]
    ensures Standing(g, others) && Standing(g, ps) && Keeps(others, oinfos)
  {
    ps := SetupPawns(g, white, others, oinfos, v0);
    ps := SetupBackRank(g, white, others, oinfos, v0, ps);
    SetupWhole(white);
  }

  /** The pawn loop of a setup method (Board.java:329-335, 393-399): pawn i on square (i, pawn column). */
  method SetupPawns(g: array2<Square>, white: bool, ghost others: seq<Piece>, ghost oinfos: seq<PieceInfo>, ghost v0: View)
    returns (ps: seq<Piece>)
    requires GridOk(g) && WellFormed(v0) && ViewOf(g) == v0 && Cleared(v0, white) && Standing(g, others) && Keeps(others, oinfos)
    modifies Cells(g)`isOccupied, Cells(g)`occupying
    ensures Built(g, white, others, oinfos, v0, ps) && |ps| == 8
  {
    SetupOrder(white);
    ps := [];
    assert Setup(white)[..0] == [];
    for i := 0 to BOARD_WIDTH
      invariant Built(g, white, others, oinfos, v0, ps) && |ps| == i
    {
      ps := SetupStep(g, Pawn, i, PawnCol(white), white, others, oinfos, v0, ps);
    }
  }

  /** The knights, rooks, bishops, king and queen of a setup method (Board.java:336-384, 398-446). */
  method SetupBackRank(g: array2<Square>, white: bool, ghost others: seq<Piece>, ghost oinfos: seq<PieceInfo>, ghost v0: View, ps0: seq<Piece>)
    returns (ps: seq<Piece>)
    requires Built(g, white, others, oinfos, v0, ps0) && |ps0| == 8
    modifies Cells(g)`isOccupied, Cells(g)`occupying
    ensures Built(g, white, others, oinfos, v0, ps) && |ps| == 16
  {
    SetupOrder(white);
    ps := ps0;
    var c := HomeCol(white);
    ps := SetupStep(g, Knight, 1, c, white, others, oinfos, v0, ps);
    ps := SetupStep(g, Knight, 6, c, white, others, oinfos, v0, ps);
    ps := SetupStep(g, Rook, 0, c, white, others, oinfos, v0, ps);
    ps := SetupStep(g, Rook, 7, c, white, others, oinfos, v0, ps);
    ps := SetupStep(g, Bishop, 2, c, white, others, oinfos, v0, ps);
    ps := SetupStep(g, Bishop, 5, c, white, others, oinfos, v0, ps);
    ps := SetupStep(g, King, if white then 3 else 4, c, white, others, oinfos, v0, ps);
    ps := SetupStep(g, Queen, if white then 4 else 3, c, white, others, oinfos, v0, ps);
  }
}
