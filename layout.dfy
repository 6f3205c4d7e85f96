/**
 * The opening position Board's constructor builds (Board.java:31-44, 328-447): the
 * order in which setupWhitePieces and setupBlackPieces create the sixteen pieces of
 * each colour, the board they leave behind, and the facts the rest of the game
 * relies on (one king per colour on its home square, every piece on a square of
 * its own, a position that is point-symmetric with the colours swapped).
 */
module Layout {
  import opened Core
  import opened Checks

  /** The column of a colour's pawns: white on 6, black on 1. */
  function PawnCol(white: bool): Coord {
    if white then 6 else 1
  }

  /** The column of a colour's other pieces: white on 7, black on 0. */
  function HomeCol(white: bool): Coord {
    if white then 7 else 0
  }

  /** The kind of each home-column piece, by row, as the text of the setup methods places them. */
  function HomeKind(white: bool, r: int): Kind {
    if r == 0 || r == 7 then Rook
    else if r == 1 || r == 6 then Knight
    else if r == 2 || r == 5 then Bishop
    else if r == 3 then (if white then King else Queen)
    else if r == 4 then (if white then Queen else King)
    else Pawn
  }

  /** A fresh piece snapshot: its own colour, its first move still to come. */
  function Fresh(kind: Kind, white: bool, r: int, c: int): PieceInfo {
    PieceInfo(kind, white, white, true, r, c)
  }

  /**
   * The pieces of one colour in list order: the eight pawns, then two knights, two
   * rooks, two bishops, the king and the queen.
   */
  function Setup(white: bool): seq<PieceInfo> {
    Pawns(white) + BackRank(white)
  }

  /** The pawns, pawn i on square (i, pawn column). */
  function Pawns(white: bool): seq<PieceInfo> {
    seq(8, i => Fresh(Pawn, white, i, PawnCol(white)))
  }

  /** The home-column pieces in the order the setup methods create them. */
  function BackRank(white: bool): seq<PieceInfo> {
    var c := HomeCol(white);
    [Fresh(Knight, white, 1, c), Fresh(Knight, white, 6, c),
     Fresh(Rook, white, 0, c), Fresh(Rook, white, 7, c),
     Fresh(Bishop, white, 2, c), Fresh(Bishop, white, 5, c),
     Fresh(King, white, if white then 3 else 4, c),
     Fresh(Queen, white, if white then 4 else 3, c)]
  }

  /** The board before any piece is placed (setupBoardLayout: every square unoccupied). */
  function Blank(): (v: View)
    ensures WellFormed(v) && forall i, j | 0 <= i < BOARD_WIDTH && 0 <= j < BOARD_WIDTH :: v[i][j] == Empty
  {
    seq(BOARD_WIDTH, i => seq(BOARD_WIDTH, j => Empty))
  }

  /** The view after each piece of `ps`, in order, is set onto its own square. */
  function Arrange(v: View, ps: seq<PieceInfo>): View
    requires WellFormed(v) && Placed(ps)
    ensures WellFormed(Arrange(v, ps))
  {
    if |ps| == 0 then v
    else Put(Arrange(v, ps[..|ps| - 1]), PosOf(ps[|ps| - 1]), CellOfInfo(ps[|ps| - 1]))
  }

  /** Setting one more piece is one more write to the view. */
  lemma ArrangeSnoc(v: View, ps: seq<PieceInfo>, p: PieceInfo)
    requires WellFormed(v) && Placed(ps) && InBounds(p.row, p.col)
    ensures Placed(ps + [p])
    ensures Arrange(v, ps + [p]) == Put(Arrange(v, ps), PosOf(p), CellOfInfo(p))
  {
    assert (ps + [p])[..|ps|] == ps;
  }

  /** The list of a colour entry by entry, in the order the setup methods create the pieces. */
  lemma SetupOrder(white: bool)
    ensures |Setup(white)| == 16
    ensures forall i | 0 <= i < 8 :: Setup(white)[i] == Fresh(Pawn, white, i, PawnCol(white))
    ensures var s, c := Setup(white), HomeCol(white);
      s[8] == Fresh(Knight, white, 1, c) && s[9] == Fresh(Knight, white, 6, c) &&
      s[10] == Fresh(Rook, white, 0, c) && s[11] == Fresh(Rook, white, 7, c) &&
      s[12] == Fresh(Bishop, white, 2, c) && s[13] == Fresh(Bishop, white, 5, c) &&
      s[14] == Fresh(King, white, if white then 3 else 4, c) &&
      s[15] == Fresh(Queen, white, if white then 4 else 3, c)
  {
  }

  lemma SetupWhole(white: bool)
    ensures Setup(white)[..16] == Setup(white)
  {
  }

  /** The home squares of a colour are empty. */
  predicate Cleared(v: View, white: bool)
    requires WellFormed(v)
  {
    forall i | 0 <= i < BOARD_WIDTH :: v[i][PawnCol(white)] == Empty && v[i][HomeCol(white)] == Empty
  }

  /**
   * Placing the pieces of a colour in list order on a board whose home squares are
   * empty: the square of the next piece is still empty, and placing it is one more write.
   */
  lemma SetupNext(v: View, white: bool, n: nat)
    requires WellFormed(v) && Cleared(v, white) && n < |Setup(white)|
    ensures Placed(Setup(white)[..n]) && Placed(Setup(white)[..n + 1])
    ensures InBounds(Setup(white)[n].row, Setup(white)[n].col)
    ensures Arrange(v, Setup(white)[..n])[Setup(white)[n].row][Setup(white)[n].col] == Empty
    ensures Arrange(v, Setup(white)[..n + 1]) ==
      Put(Arrange(v, Setup(white)[..n]), PosOf(Setup(white)[n]), CellOfInfo(Setup(white)[n]))
  {
    var s := Setup(white);
    SetupPlaced(white);
    assert s[..n + 1] == s[..n] + [s[n]];
    ArrangeSnoc(v, s[..n], s[n]);
    assert Apart(s[..n]);
    ArrangeCell(v, s[..n], s[n].row, s[n].col);
    forall k | 0 <= k < n
      ensures PosOf(s[..n][k]) != PosOf(s[n])
    {
      assert s[..n][k] == s[k];
    }
  }

  /** Placing `a` and then `b` is placing `a + b`. */
  lemma {:induction false} ArrangeAppend(v: View, a: seq<PieceInfo>, b: seq<PieceInfo>)
    requires WellFormed(v) && Placed(a) && Placed(b)
    ensures Placed(a + b) && Arrange(Arrange(v, a), b) == Arrange(v, a + b)
  {
    if |b| > 0 {
      var b' := b[..|b| - 1];
      assert Placed(b');
      ArrangeAppend(v, a, b');
      assert (a + b)[..|a + b| - 1] == a + b';
    } else {
      assert a + b == a;
    }
  }

  /** The white pieces leave the home squares of black empty. */
  lemma WhiteLeavesBlackHome()
    ensures Placed(Setup(true)) && Cleared(Arrange(Blank(), Setup(true)), false)
  {
    SetupPlaced(true);
    forall i | 0 <= i < BOARD_WIDTH
      ensures Arrange(Blank(), Setup(true))[i][1] == Empty && Arrange(Blank(), Setup(true))[i][0] == Empty
    {
      ArrangeCell(Blank(), Setup(true), i, 1);
      ArrangeCell(Blank(), Setup(true), i, 0);
    }
  }

  /** What the opening position shows on square (r, c), written as a table. */
  function HomeCell(r: int, c: int): Cell {
    if c == 6 || c == 1 then Holds(Man(c == 6, Pawn, true))
    else if c == 7 || c == 0 then Holds(Man(c == 7, HomeKind(c == 7, r), true))
    else Empty
  }

  /** The opening position as a view. */
  function Opening(): (v: View)
    ensures WellFormed(v)
  {
    seq(BOARD_WIDTH, i => seq(BOARD_WIDTH, j => HomeCell(i, j)))
  }

  /** No two pieces of a list share a square. */
  predicate Apart(ps: seq<PieceInfo>) {
    forall i, j | 0 <= i < j < |ps| :: PosOf(ps[i]) != PosOf(ps[j])
  }

  /** Each colour has exactly one king, and it is the fifteenth piece of its list. */
  lemma SetupKing(white: bool)
    ensures |Setup(white)| == 16
    ensures forall k | 0 <= k < 16 :: Setup(white)[k].kind == King <==> k == 14
    ensures PosOf(Setup(white)[14]) == if white then Pos(3, 7) else Pos(4, 0)
  {
  }

  /** Every piece starts on the board, unmoved, in its own colour, on a square of its own. */
  lemma SetupPlaced(white: bool)
    ensures Placed(Setup(white)) && Apart(Setup(white))
    ensures forall k | 0 <= k < |Setup(white)| ::
      Setup(white)[k].white == white && Setup(white)[k].pawnWhite == white && Setup(white)[k].firstMove
  {
  }

  /** The white pieces and the black pieces stand on disjoint squares. */
  lemma SetupApart()
    ensures Placed(Setup(true) + Setup(false)) && Apart(Setup(true) + Setup(false))
  {
    var s := Setup(true) + Setup(false);
    forall i, j | 0 <= i < j < |s|
      ensures PosOf(s[i]) != PosOf(s[j])
    {
      if j >= 16 && i < 16 {
        assert s[i] == Setup(true)[i] && s[j] == Setup(false)[j - 16];
        assert s[i].col >= 6 && s[j].col <= 1;
      } else if i >= 16 {
        assert s[i] == Setup(false)[i - 16] && s[j] == Setup(false)[j - 16];
      }
    }
  }

  /**
   * Setting pieces that stand on squares of their own leaves each square as the piece
   * standing on it shows it, and every other square as it was.
   */
  lemma {:induction false} ArrangeCell(v: View, ps: seq<PieceInfo>, r: int, c: int)
    requires WellFormed(v) && Placed(ps) && Apart(ps) && InBounds(r, c)
    ensures (exists k | 0 <= k < |ps| :: PosOf(ps[k]) == Pos(r, c)) ||
            Arrange(v, ps)[r][c] == v[r][c]
    ensures forall k | 0 <= k < |ps| :: PosOf(ps[k]) == Pos(r, c) ==> Arrange(v, ps)[r][c] == CellOfInfo(ps[k])
  {
    if |ps| > 0 {
      var init := ps[..|ps| - 1];
      assert Placed(init) && Apart(init);
      ArrangeCell(v, init, r, c);
      forall k | 0 <= k < |init| && PosOf(init[k]) == Pos(r, c)
        ensures PosOf(ps[|ps| - 1]) != Pos(r, c)
      {
        assert init[k] == ps[k];
      }
    }
  }

  /**
   * Board's constructor places the white pieces and then the black pieces, in list
   * order, on the empty board; the result is the opening position of the table.
   */
  lemma OpeningLayout()
    ensures Placed(Setup(true)) && Placed(Setup(true) + Setup(false))
    ensures Arrange(Blank(), Setup(true) + Setup(false)) == Opening()
  {
    var s := Setup(true) + Setup(false);
    SetupApart();
    forall r, c | 0 <= r < BOARD_WIDTH && 0 <= c < BOARD_WIDTH
      ensures Arrange(Blank(), s)[r][c] == Opening()[r][c]
    {
      ArrangeCell(Blank(), s, r, c);
      if c == 6 {
        assert PosOf(s[r]) == Pos(r, c);
      } else if c == 1 {
        assert PosOf(s[16 + r]) == Pos(r, c);
      } else if c == 7 || c == 0 {
        var k := (if c == 7 then 0 else 16) + 8 + HomeIndex(c == 7, r);
        assert PosOf(s[k]) == Pos(r, c);
      }
    }
    SameView(Arrange(Blank(), s), Opening());
  }

  /** Where in the back-rank part of a list the piece of row `r` comes. */
  function HomeIndex(white: bool, r: int): int {
    if r == 1 then 0 else if r == 6 then 1 else if r == 0 then 2 else if r == 7 then 3
    else if r == 2 then 4 else if r == 5 then 5
    else if r == 3 then (if white then 6 else 7) else (if white then 7 else 6)
  }

  /** The same man in the other colour. */
  function Swapped(c: Cell): Cell {
    if c.Empty? then Empty else Holds(Man(!c.man.white, c.man.kind, c.man.firstMove))
  }

  /**
   * The opening position is point-symmetric: the square opposite (r, c) holds the
   * same man in the other colour.  In particular the kings face each other, as do
   * the queens.
   */
  lemma OpeningSymmetric()
    ensures forall r, c | 0 <= r < BOARD_WIDTH && 0 <= c < BOARD_WIDTH :: Mirrored(Opening(), r, c)
  {
  }

  /** Square (r, c) and its opposite hold the same man in opposite colours. */
  predicate Mirrored(v: View, r: int, c: int)
    requires WellFormed(v) && InBounds(r, c)
  {
    v[7 - r][7 - c] == Swapped(v[r][c])
  }
}
