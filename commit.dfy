/**
 * The two special commits of handleSquareClick: castling (Game.java:307-349), which
 * relocates a king and the piece on the clicked square, and enPassant
 * (Game.java:278-299), which takes the previously moved pawn.  Each is stated on the
 * board view and the piece lists, and carried out on the squares by a method proved
 * against that statement.  An array index outside the board throws in the source;
 * here the method stops at that point and reports it.
 */
module Commits {
  import opened Core
  import opened Pieces
  import opened Boards
  import PawnRules

  // ---------------------------------------------------------------- castling

  /** What castling did: nothing on an empty square; refused; relocated both pieces; or threw half-way. */
  datatype Outcome = Untouched | Refused | Done | Aborted

  /** castling set `castle` and started to move the pieces. */
  predicate Fired(out: Outcome) {
    out == Done || out == Aborted
  }

  /**
   * The castle flag after castling, from its old value `castle0`: set when castling
   * fires, cleared when the clicked square is occupied and the test fails
   * (Game.java:320-321, 344-346), kept on an empty square.
   */
  function CastleFlag(castle0: bool, out: Outcome): (castle: bool)
    ensures Fired(out) ==> castle
    ensures out == Refused ==> !castle
    ensures out == Untouched ==> castle == castle0
  {
    if out == Refused then false else castle0 || Fired(out)
  }

  /**
   * The test of Game.java:308-321 for the selected piece `king` and the occupant
   * `rook` of the clicked square: both of kind King (the source compares the "rook"
   * with KING as well), of one colour, both before their first move, and the current
   * player's check flag `inCheck` clear.
   */
  predicate Fires(king: Man, rook: Man, inCheck: bool) {
    !inCheck && king.kind == King && rook.kind == King && king.white == rook.white && king.firstMove && rook.firstMove
  }

  /**
   * The rows the rook and the king go to (Game.java:328-342): one and two rows past the
   * origin row `or` when `Math.min(or, nr) == or`, else one and two rows before it.
   */
  function RookRow(or: int, nr: int): int {
    if or <= nr then or + 1 else or - 1
  }

  function KingRow(or: int, nr: int): int {
    if or <= nr then or + 2 else or - 2
  }

  /**
   * castling on the view `v`, for the selected piece showing `king` on (or, oc) and the
   * clicked square (nr, nc): the view it leaves and what it did.  When it fires, both
   * squares are emptied, then the rook and the king are set onto column `oc` of the
   * rows RookRow and KingRow; a row off the board throws before its piece is set.
   */
  function Castled(v: View, king: Man, or: Coord, oc: Coord, nr: Coord, nc: Coord, inCheck: bool): (r: (View, Outcome))
    requires WellFormed(v)
    ensures WellFormed(r.0)
  {
    if v[nr][nc].Empty? then (v, Untouched)
    else if !Fires(king, v[nr][nc].man, inCheck) then (v, Refused)
    else
      var cleared := Put(Put(v, Pos(or, oc), Empty), Pos(nr, nc), Empty);
      var rr, kr := RookRow(or, nr), KingRow(or, nr);
      if !InBounds(rr, oc) then (cleared, Aborted)
      else
        var withRook := Put(cleared, Pos(rr, oc), v[nr][nc]);
        if !InBounds(kr, oc) then (withRook, Aborted)
        else (Put(withRook, Pos(kr, oc), Holds(king)), Done)
  }

  /**
   * The list of the castling colour afterwards: the rook and then the king are removed
   * (removePieceLogically); a completed castling appends the king and then the rook.
   */
  function CastledList(ps: seq<Piece>, rook: Piece, king: Piece, done: bool): seq<Piece> {
    RemoveFirst(RemoveFirst(ps, rook), king) + (if done then [king, rook] else [])
  }

  /**
   * castling fires exactly on an occupied square whose occupant passes the test, and it
   * throws exactly when the king's row leaves the board: row 6 or 7 moving up the rows,
   * row 1 moving down.
   */
  lemma CastleOutcome(v: View, king: Man, or: Coord, oc: Coord, nr: Coord, nc: Coord, inCheck: bool)
    requires WellFormed(v)
    ensures var out := Castled(v, king, or, oc, nr, nc, inCheck).1;
      (Fired(out) <==> v[nr][nc].Holds? && Fires(king, v[nr][nc].man, inCheck)) &&
      (out == Aborted <==> Fired(out) && (if or <= nr then or >= BOARD_WIDTH - 2 else or == 1))
  {
  }

  /**
   * A completed castling puts the king two rows from its origin, towards the clicked
   * square, and the rook on the row the king passed over; both in the king's column,
   * with both the origin and the clicked square emptied unless one of the pieces landed
   * there.
   */
  lemma CastleCrossed(v: View, king: Man, or: Coord, oc: Coord, nr: Coord, nc: Coord, inCheck: bool)
    requires WellFormed(v) && Castled(v, king, or, oc, nr, nc, inCheck).1 == Done
    ensures var w := Castled(v, king, or, oc, nr, nc, inCheck).0;
      var rr, kr := RookRow(or, nr), KingRow(or, nr);
      Abs(kr - or) == 2 && rr == (or + kr) / 2 && (nr != or ==> (kr - or) * (nr - or) > 0) &&
      w[kr][oc] == Holds(king) && w[rr][oc] == v[nr][nc] &&
      (Pos(or, oc) != Pos(rr, oc) && Pos(or, oc) != Pos(kr, oc) ==> w[or][oc] == Empty) &&
      (Pos(nr, nc) != Pos(rr, oc) && Pos(nr, nc) != Pos(kr, oc) ==> w[nr][nc] == Empty)
  {
  }

  /** A completed castling of two different pieces of the list keeps the same pieces in it. */
  lemma CastledListKeeps(ps: seq<Piece>, rook: Piece, king: Piece)
    requires rook != king && rook in ps && king in ps
    ensures multiset(CastledList(ps, rook, king, true)) == multiset(ps)
  {
    RemoveFirstMultiset(ps, rook);
    RemoveFirstMultiset(RemoveFirst(ps, rook), king);
    assert king in multiset(ps) - multiset{rook};
  }

  /** The list of colour `white`. */
  function ListOf(b: Board, white: bool): seq<Piece>
    reads b`whitePieces, b`blackPieces
  {
    if white then b.whitePieces else b.blackPieces
  }

  /** removeOccupying on (r, c): the square shows empty, and the board stays within `pool`. */
  method Unseat(g: array2<Square>, ghost v: View, r: Coord, c: Coord, ghost pool: set<Piece>)
    requires GridOk(g) && v == ViewOf(g) && Within(g, pool)
    modifies g[r, c]`isOccupied, g[r, c]`occupying
    ensures GridOk(g) && ViewOf(g) == Put(v, Pos(r, c), Empty) && Within(g, pool)
  {
    Vacate(g, v, r, c);
    assert forall i, j | 0 <= i < BOARD_WIDTH && 0 <= j < BOARD_WIDTH && (i != r || j != c) :: g[i, j] != g[r, c];
    ReseatWithin(g, Pos(r, c), pool);
  }

  /** setOccupying(p, board[r][c]) for a piece of `pool`: the square shows `p`, which takes its coordinates. */
  method Seat(g: array2<Square>, ghost v: View, r: Coord, c: Coord, p: Piece, ghost pool: set<Piece>)
    requires GridOk(g) && v == ViewOf(g) && Within(g, pool) && p in pool
    modifies g[r, c]`isOccupied, g[r, c]`occupying, p`oldRow, p`oldCol
    ensures GridOk(g) && ViewOf(g) == Put(v, Pos(r, c), Holds(ManOf(p))) && Within(g, pool)
    ensures g[r, c].occupying == p && p.oldRow == r && p.oldCol == c
  {
    Occupy(g, v, r, c, p);
    assert forall i, j | 0 <= i < BOARD_WIDTH && 0 <= j < BOARD_WIDTH && (i != r || j != c) :: g[i, j] != g[r, c];
    ReseatWithin(g, Pos(r, c), pool);
  }

  /** movePiece(board[r][c]): the piece takes the square's coordinates; the board shows the same. */
  method Repiece(g: array2<Square>, ghost v: View, p: Piece, r: Coord, c: Coord, ghost pool: set<Piece>)
    requires GridOk(g) && v == ViewOf(g) && Within(g, pool)
    modifies p`oldRow, p`oldCol
    ensures GridOk(g) && ViewOf(g) == v && Within(g, pool)
    ensures p.oldRow == r && p.oldCol == c
  {
    p.MovePiece(g[r, c]);
    SameView(ViewOf(g), v);
  }

  /** setIsOccupied on a square with an occupant: the board shows the same. */
  method Raise(g: array2<Square>, ghost v: View, r: Coord, c: Coord, ghost pool: set<Piece>)
    requires GridOk(g) && v == ViewOf(g) && Within(g, pool) && g[r, c].occupying != null
    modifies g[r, c]`isOccupied
    ensures GridOk(g) && ViewOf(g) == v && Within(g, pool)
  {
    Reflag(g, v, r, c);
  }

  /** removePieceLogically(p): the board shows the same. */
  method Delist(b: Board, p: Piece, ghost v: View, ghost pool: set<Piece>)
    requires GridOk(b.grid) && v == ViewOf(b.grid) && Within(b.grid, pool)
    modifies b`whitePieces, b`blackPieces
    ensures GridOk(b.grid) && ViewOf(b.grid) == v && Within(b.grid, pool)
    ensures ListOf(b, p.isWhite) == RemoveFirst(old(ListOf(b, p.isWhite)), p)
    ensures ListOf(b, !p.isWhite) == old(ListOf(b, !p.isWhite))
    ensures b.Pool() <= old(b.Pool())
  {
    b.RemovePieceLogically(p);
    SameView(ViewOf(b.grid), v);
  }

  /** addPieceLogically(p): the board shows the same. */
  method Enlist(b: Board, p: Piece, ghost v: View, ghost pool: set<Piece>)
    requires GridOk(b.grid) && v == ViewOf(b.grid) && Within(b.grid, pool)
    modifies b`whitePieces, b`blackPieces
    ensures GridOk(b.grid) && ViewOf(b.grid) == v && Within(b.grid, pool)
    ensures ListOf(b, p.isWhite) == old(ListOf(b, p.isWhite)) + [p]
    ensures ListOf(b, !p.isWhite) == old(ListOf(b, !p.isWhite))
    ensures b.Pool() == old(b.Pool()) + {p}
  {
    b.AddPieceLogically(p);
    SameView(ViewOf(b.grid), v);
  }

  /**
   * The first stanza of a firing castling (Game.java:322-326): the origin and the
   * clicked square are emptied, and the rook and then the king leave the list of their
   * colour.
   */
  method CastleClear(b: Board, or: Coord, oc: Coord, nr: Coord, nc: Coord, rook: Piece, king: Piece,
                     ghost v: View, ghost pool: set<Piece>)
    requires GridOk(b.grid) && v == ViewOf(b.grid) && Within(b.grid, pool) && rook.isWhite == king.isWhite
    modifies b.grid[or, oc]`isOccupied, b.grid[or, oc]`occupying, b.grid[nr, nc]`isOccupied, b.grid[nr, nc]`occupying
    modifies b`whitePieces, b`blackPieces
    ensures GridOk(b.grid) && Within(b.grid, pool)
    ensures ViewOf(b.grid) == Put(Put(v, Pos(or, oc), Empty), Pos(nr, nc), Empty)
    ensures ListOf(b, king.isWhite) == RemoveFirst(RemoveFirst(old(ListOf(b, king.isWhite)), rook), king)
    ensures ListOf(b, !king.isWhite) == old(ListOf(b, !king.isWhite))
    ensures b.Pool() <= old(b.Pool())
  {
    Unseat(b.grid, v, or, oc, pool);
    ghost var w := Put(Put(v, Pos(or, oc), Empty), Pos(nr, nc), Empty);
    Unseat(b.grid, Put(v, Pos(or, oc), Empty), nr, nc, pool);
    Delist(b, rook, w, pool);
    Delist(b, king, w, pool);
  }

  /**
   * The second stanza of a completed castling (Game.java:328-342): the rook and the king
   * are set onto their rows of column `oc` and take those coordinates.
   */
  method CastleSet(g: array2<Square>, rr: Coord, kr: Coord, oc: Coord, rook: Piece, king: Piece,
                   ghost rm: Man, ghost km: Man, ghost v: View, ghost pool: set<Piece>)
    requires GridOk(g) && v == ViewOf(g) && Within(g, pool) && rook in pool && king in pool && rr != kr
    requires rm == ManOf(rook) && km == ManOf(king)
    modifies g[rr, oc]`isOccupied, g[rr, oc]`occupying, g[kr, oc]`isOccupied, g[kr, oc]`occupying
    modifies rook`oldRow, rook`oldCol, king`oldRow, king`oldCol
    ensures GridOk(g) && Within(g, pool)
    ensures ViewOf(g) == Put(Put(v, Pos(rr, oc), Holds(rm)), Pos(kr, oc), Holds(km))
    ensures king.oldRow == kr && king.oldCol == oc
    ensures rook != king ==> rook.oldRow == rr && rook.oldCol == oc
  {
    Seat(g, v, rr, oc, rook, pool);
    ghost var withRook := Put(v, Pos(rr, oc), Holds(rm));
    Seat(g, withRook, kr, oc, king, pool);
    ghost var placed := Put(withRook, Pos(kr, oc), Holds(km));
    Repiece(g, placed, rook, rr, oc, pool);
    Repiece(g, placed, king, kr, oc, pool);
    assert g[rr, oc] != g[kr, oc];
    Raise(g, placed, rr, oc, pool);
    Raise(g, placed, kr, oc, pool);
  }

  /** The last stanza (Game.java:343-344): the king and then the rook rejoin the list of their colour. */
  method CastleEnlist(b: Board, rook: Piece, king: Piece, ghost v: View, ghost pool: set<Piece>)
    requires GridOk(b.grid) && v == ViewOf(b.grid) && Within(b.grid, pool) && rook.isWhite == king.isWhite
    modifies b`whitePieces, b`blackPieces
    ensures GridOk(b.grid) && ViewOf(b.grid) == v && Within(b.grid, pool)
    ensures ListOf(b, king.isWhite) == old(ListOf(b, king.isWhite)) + [king, rook]
    ensures ListOf(b, !king.isWhite) == old(ListOf(b, !king.isWhite))
    ensures b.Pool() == old(b.Pool()) + {king, rook}
  {
    Enlist(b, king, v, pool);
    Enlist(b, rook, v, pool);
  }

  /**
   * A firing castling (Game.java:321-344) for the selected piece `king` at (or, oc) and
   * the occupant `rook` of (nr, nc).
   */
  method CastleFire(b: Board, or: Coord, oc: Coord, nr: Coord, nc: Coord, rook: Piece, king: Piece,
                    ghost km: Man, ghost inCheck: bool, ghost v: View, ghost pool: set<Piece>)
    returns (out: Outcome)
    requires GridOk(b.grid) && v == ViewOf(b.grid) && Within(b.grid, pool) && rook in pool && king in pool
    requires km == ManOf(king) && v[nr][nc] == Holds(ManOf(rook)) && Fires(km, ManOf(rook), inCheck)
    modifies Cells(b.grid)`isOccupied, Cells(b.grid)`occupying, b`whitePieces, b`blackPieces
    modifies rook`oldRow, rook`oldCol, king`oldRow, king`oldCol
    ensures GridOk(b.grid) && Within(b.grid, pool) && Fired(out)
    ensures (ViewOf(b.grid), out) == Castled(v, km, or, oc, nr, nc, inCheck)
    ensures ListOf(b, king.isWhite) == CastledList(old(ListOf(b, king.isWhite)), rook, king, out == Done)
    ensures ListOf(b, !king.isWhite) == old(ListOf(b, !king.isWhite))
    ensures out == Done ==> king.oldRow == KingRow(or, nr) && king.oldCol == oc
    ensures out == Done && rook != king ==> rook.oldRow == RookRow(or, nr) && rook.oldCol == oc
    ensures out != Done && rook != king ==> king.oldRow == old(king.oldRow) && king.oldCol == old(king.oldCol)
    ensures b.Pool() <= old(b.Pool()) + {king, rook}
  {
    ghost var spec := Castled(v, km, or, oc, nr, nc, inCheck);
    ghost var cleared := Put(Put(v, Pos(or, oc), Empty), Pos(nr, nc), Empty);
    var rr, kr := RookRow(or, nr), KingRow(or, nr);
    CastleClear(b, or, oc, nr, nc, rook, king, v, pool);
    if !(0 <= rr < BOARD_WIDTH) {
      assert spec == (cleared, Aborted);
      return Aborted;
    }
    assert spec.1 == Done <==> 0 <= kr < BOARD_WIDTH;
    var done := CastleLand(b, rr, kr, oc, rook, king, v[nr][nc].man, km, cleared, pool);
    if done {
      out := Done;
    } else {
      out := Aborted;
    }
  }

  /**
   * The rest of a firing castling once the rook's row `rr` is on the board: the rook is
   * set; when the king's row `kr` is on the board too, the king is set, both take their
   * coordinates and rejoin their list, and otherwise the source throws there.
   */
  method CastleLand(b: Board, rr: Coord, kr: int, oc: Coord, rook: Piece, king: Piece,
                    ghost rm: Man, ghost km: Man, ghost w: View, ghost pool: set<Piece>)
    returns (done: bool)
    requires GridOk(b.grid) && w == ViewOf(b.grid) && Within(b.grid, pool) && rook in pool && king in pool
    requires rm == ManOf(rook) && km == ManOf(king)
    requires rook.isWhite == king.isWhite && rr != kr
    modifies Cells(b.grid)`isOccupied, Cells(b.grid)`occupying, b`whitePieces, b`blackPieces
    modifies rook`oldRow, rook`oldCol, king`oldRow, king`oldCol
    ensures GridOk(b.grid) && Within(b.grid, pool) && done == (0 <= kr < BOARD_WIDTH)
    ensures ViewOf(b.grid) == if done then Put(Put(w, Pos(rr, oc), Holds(rm)), Pos(kr, oc), Holds(km))
                              else Put(w, Pos(rr, oc), Holds(rm))
    ensures ListOf(b, king.isWhite) == old(ListOf(b, king.isWhite)) + (if done then [king, rook] else [])
    ensures ListOf(b, !king.isWhite) == old(ListOf(b, !king.isWhite))
    ensures done ==> king.oldRow == kr && king.oldCol == oc
    ensures done && rook != king ==> rook.oldRow == rr && rook.oldCol == oc
    ensures !done && rook != king ==> king.oldRow == old(king.oldRow) && king.oldCol == old(king.oldCol)
    ensures b.Pool() <= old(b.Pool()) + {king, rook}
  {
    if !(0 <= kr < BOARD_WIDTH) {
      // the rook is set, then the king's row throws
      Seat(b.grid, w, rr, oc, rook, pool);
      assert old(ListOf(b, king.isWhite)) + [] == old(ListOf(b, king.isWhite));
      return false;
    }
    CastleSet(b.grid, rr, kr, oc, rook, king, rm, km, w, pool);
    CastleEnlist(b, rook, king, Put(Put(w, Pos(rr, oc), Holds(rm)), Pos(kr, oc), Holds(km)), pool);
    done := true;
  }

  /**
   * castling (Game.java:307-349) for the selected piece `king` read at (or, oc), the
   * clicked square `clicked` and the current player's check flag `inCheck`.
   */
  method Castle(b: Board, clicked: Square, king: Piece, inCheck: bool, or: Coord, oc: Coord,
                ghost km: Man, ghost v: View, ghost pool: set<Piece>)
    returns (out: Outcome)
    requires GridOk(b.grid) && v == ViewOf(b.grid) && clicked in Cells(b.grid) && Within(b.grid, pool) && king in pool
    requires km == ManOf(king)
    modifies Cells(b.grid)`isOccupied, Cells(b.grid)`occupying, b`whitePieces, b`blackPieces
    modifies king`oldRow, king`oldCol, Opt(clicked.occupying)`oldRow, Opt(clicked.occupying)`oldCol
    ensures GridOk(b.grid) && Within(b.grid, pool)
    ensures (ViewOf(b.grid), out) == Castled(v, km, or, oc, clicked.row, clicked.col, inCheck)
    ensures b.Pool() <= old(b.Pool()) + {king} + Opt(old(clicked.occupying))
  {
    var g := b.grid;
    var nr, nc := clicked.row, clicked.col;
    SquareIdentity(g, clicked, nr, nc);
    if !clicked.GetIsOccupied() {
      return Untouched;
    }
    var rook := clicked.GetOccupying();
    var kAndR := king.GetType() == TypeName(King) && rook.GetType() == TypeName(King);
    var sameColor := king.GetColor() == rook.GetColor();
    var first := king.IfFirstMove() && rook.IfFirstMove();
    ColorNameInjective(king.isWhite, rook.isWhite);
    if !(!inCheck && kAndR && sameColor && first) {
      return Refused;
    }
    out := CastleFire(b, or, oc, nr, nc, rook, king, km, inCheck, v, pool);
  }

  // ---------------------------------------------------------------- en passant

  /** The square enPassant empties: left of the destination for a white pawn, right of it for a black one. */
  function Beside(nc: int, white: bool): int {
    if white then nc - 1 else nc + 1
  }

  /** How many of the rows nr - 1 and nr + 1, the first `t` of them, are on the board. */
  function RowsOn(nr: int, t: nat): nat
    requires t <= 2
  {
    (if t >= 1 && 0 <= nr - 1 < BOARD_WIDTH then 1 else 0) + (if t >= 2 && 0 <= nr + 1 < BOARD_WIDTH then 1 else 0)
  }

  /**
   * The test of enPassant's loop (Game.java:283-287): the column right of the destination
   * is on the board, and the destination is empty and is the previous piece's en-passant
   * square `ep`.  It reads nothing the loop body changes.
   */
  predicate Takes(v: View, nr: Coord, nc: Coord, ep: Option<Pos>) {
    WellFormed(v) && nc + 1 < BOARD_WIDTH && v[nr][nc].Empty? && ep == Some(Pos(nr, nc))
  }

  /**
   * enPassant(nr, nc) on the view `v` for a previous piece of colour `white`: the view
   * it leaves, how many times it removes that piece from its list (once per row of
   * the loop on the board), and whether it throws (a white pawn taken on column 0
   * would be cleared from column -1, before anything is changed).
   */
  function EnPassantSpec(v: View, nr: Coord, nc: Coord, ep: Option<Pos>, white: bool): (r: (View, nat, bool))
    requires WellFormed(v)
    ensures WellFormed(r.0)
  {
    if !Takes(v, nr, nc, ep) then (v, 0, false)
    else if white && nc == 0 then (v, 0, true)
    else (Put(v, Pos(nr, Beside(nc, white)), Empty), RowsOn(nr, 2), false)
  }

  /** `x` removed `n` times from the list. */
  function Drop(ps: seq<Piece>, x: Piece, n: nat): seq<Piece> {
    if n == 0 then ps else RemoveFirst(Drop(ps, x, n - 1), x)
  }

  /** Once `x` is out of the list, removing it again changes nothing. */
  lemma {:induction false} DropOnce(ps: seq<Piece>, x: Piece, n: nat)
    requires n >= 1 && multiset(ps)[x] <= 1
    ensures Drop(ps, x, n) == RemoveFirst(ps, x) && x !in Drop(ps, x, n)
  {
    RemoveFirstMultiset(ps, x);
    assert x !in multiset(RemoveFirst(ps, x));
    if n > 1 {
      DropOnce(ps, x, n - 1);
      RemoveFirstAbsent(RemoveFirst(ps, x), x);
    }
  }

  /**
   * After a first-move double step of a pawn that shows its own colour, from (or, oc)
   * to the square two columns ahead, a capture on its recorded en-passant square empties
   * exactly the square the pawn went to, and never throws.
   */
  lemma EnPassantTakesDoubleStepper(v: View, m: PieceInfo, or: Coord, oc: Coord, nc2: Coord)
    requires WellFormed(v) && m.white == m.pawnWhite && PawnRules.EpWritten(m, or, oc, or, nc2)
    requires Takes(v, or, PawnRules.EpTarget(m, or, oc).col, Some(PawnRules.EpTarget(m, or, oc)))
    ensures var t := PawnRules.EpTarget(m, or, oc);
      var r := EnPassantSpec(v, t.row, t.col, Some(t), m.white);
      !r.2 && r.1 >= 1 && r.0 == Put(v, Pos(or, nc2), Empty)
  {
  }

  /** enPassant's test holds and the previous pawn's colour does not make it throw. */
  predicate EpFires(v: View, nr: Coord, nc: Coord, ep: Option<Pos>, white: bool) {
    Takes(v, nr, nc, ep) && !(white && nc == 0)
  }

  /** The view enPassant's loop has left after its first `t` rows. */
  function ViewAfter(v: View, nr: Coord, nc: Coord, ep: Option<Pos>, white: bool, t: nat): (w: View)
    requires WellFormed(v) && t <= 2
    ensures WellFormed(w)
  {
    if EpFires(v, nr, nc, ep, white) && RowsOn(nr, t) > 0 then Put(v, Pos(nr, Beside(nc, white)), Empty) else v
  }

  /** The list of the previous piece's colour after the first `t` rows. */
  function ListAfter(ps: seq<Piece>, prev: Piece, v: View, nr: Coord, nc: Coord, ep: Option<Pos>, white: bool, t: nat): seq<Piece>
    requires WellFormed(v) && t <= 2
  {
    if EpFires(v, nr, nc, ep, white) then Drop(ps, prev, RowsOn(nr, t)) else ps
  }

  /**
   * One more row of the loop: its test reads the destination, which no row changes, so
   * it is the test on the original view; a row on the board where the test holds
   * empties the square beside again and removes the piece once more.
   */
  lemma EpRowStep(ps: seq<Piece>, prev: Piece, v: View, nr: Coord, nc: Coord, ep: Option<Pos>, white: bool,
                  t: nat, row: int)
    requires WellFormed(v) && t < 2 && row == (if t == 0 then nr - 1 else nr + 1)
    ensures var w := ViewAfter(v, nr, nc, ep, white, t);
      var fire := 0 <= row < BOARD_WIDTH && Takes(w, nr, nc, ep);
      (Takes(w, nr, nc, ep) <==> Takes(v, nr, nc, ep)) &&
      (fire && !(white && nc == 0) ==>
        ViewAfter(v, nr, nc, ep, white, t + 1) == Put(w, Pos(nr, Beside(nc, white)), Empty) &&
        ListAfter(ps, prev, v, nr, nc, ep, white, t + 1) == RemoveFirst(ListAfter(ps, prev, v, nr, nc, ep, white, t), prev)) &&
      (!(fire && !(white && nc == 0)) ==>
        ViewAfter(v, nr, nc, ep, white, t + 1) == w &&
        ListAfter(ps, prev, v, nr, nc, ep, white, t + 1) == ListAfter(ps, prev, v, nr, nc, ep, white, t))
  {
    if EpFires(v, nr, nc, ep, white) && RowsOn(nr, t) > 0 {
      PutPut(v, Pos(nr, Beside(nc, white)), Empty, Empty);
    }
  }

  /** After both rows the loop has done what EnPassantSpec says. */
  lemma EpRowsDone(ps: seq<Piece>, prev: Piece, v: View, nr: Coord, nc: Coord, ep: Option<Pos>, white: bool)
    requires WellFormed(v)
    ensures var r := EnPassantSpec(v, nr, nc, ep, white);
      !r.2 ==> ViewAfter(v, nr, nc, ep, white, 2) == r.0 && ListAfter(ps, prev, v, nr, nc, ep, white, 2) == Drop(ps, prev, r.1)
  {
  }

  /**
   * enPassant (Game.java:278-299) for the destination (nr, nc) and the previously moved
   * piece `prev`, whose en-passant square is `ep`: for each of the rows nr - 1 and
   * nr + 1 that is on the board, while the test holds, the square beside the
   * destination is emptied and `prev` leaves its list.
   */
  method EnPassant(b: Board, prev: Piece, nr: Coord, nc: Coord, ghost v: View, ghost ep: Option<Pos>, ghost pool: set<Piece>)
    returns (aborted: bool)
    requires GridOk(b.grid) && v == ViewOf(b.grid) && Within(b.grid, pool) && ep == EpOf(b.grid, prev)
    modifies Cells(b.grid)`isOccupied, Cells(b.grid)`occupying, b`whitePieces, b`blackPieces
    ensures GridOk(b.grid) && Within(b.grid, pool)
    ensures var r := EnPassantSpec(v, nr, nc, ep, prev.isWhite);
      ViewOf(b.grid) == r.0 && aborted == r.2 &&
      ListOf(b, prev.isWhite) == Drop(old(ListOf(b, prev.isWhite)), prev, r.1) &&
      ListOf(b, !prev.isWhite) == old(ListOf(b, !prev.isWhite))
    ensures b.Pool() <= old(b.Pool())
  {
    ghost var ps := ListOf(b, prev.isWhite);
    aborted := false;
    if nc + 1 < BOARD_WIDTH {
      aborted := EnPassantRows(b, prev, nr, nc, v, ep, pool);
      EpRowsDone(ps, prev, v, nr, nc, ep, prev.isWhite);
    }
  }

  /** enPassant's loop over the rows nr - 1 and nr + 1, once its column test holds. */
  method EnPassantRows(b: Board, prev: Piece, nr: Coord, nc: Coord, ghost v: View, ghost ep: Option<Pos>, ghost pool: set<Piece>)
    returns (aborted: bool)
    requires GridOk(b.grid) && v == ViewOf(b.grid) && Within(b.grid, pool) && ep == EpOf(b.grid, prev)
    requires nc + 1 < BOARD_WIDTH
    modifies Cells(b.grid)`isOccupied, Cells(b.grid)`occupying, b`whitePieces, b`blackPieces
    ensures GridOk(b.grid) && Within(b.grid, pool)
    ensures aborted <==> Takes(v, nr, nc, ep) && prev.isWhite && nc == 0
    ensures !aborted ==>
      ViewOf(b.grid) == ViewAfter(v, nr, nc, ep, prev.isWhite, 2) &&
      ListOf(b, prev.isWhite) == ListAfter(old(ListOf(b, prev.isWhite)), prev, v, nr, nc, ep, prev.isWhite, 2)
    ensures aborted ==> ViewOf(b.grid) == v && ListOf(b, prev.isWhite) == old(ListOf(b, prev.isWhite))
    ensures ListOf(b, !prev.isWhite) == old(ListOf(b, !prev.isWhite))
    ensures b.Pool() <= old(b.Pool())
  {
    ghost var ps, qs := ListOf(b, prev.isWhite), ListOf(b, !prev.isWhite);
    ghost var white := prev.isWhite;
    aborted := false;
    var rows := [nr - 1, nr + 1];
    for t := 0 to 2
      invariant GridOk(b.grid) && Within(b.grid, pool) && ep == EpOf(b.grid, prev)
      invariant ViewOf(b.grid) == ViewAfter(v, nr, nc, ep, white, t)
      invariant ListOf(b, white) == ListAfter(ps, prev, v, nr, nc, ep, white, t) && ListOf(b, !white) == qs
      invariant b.Pool() <= old(b.Pool())
      invariant Takes(v, nr, nc, ep) && white && nc == 0 ==> RowsOn(nr, t) == 0
    {
      aborted := EnPassantRow(b, prev, nr, nc, rows[t], t, v, ep, ps, pool);
      if aborted {
        return;
      }
    }
  }

  /** One pass of enPassant's loop, for the row `row`, the `t`-th of the two. */
  method EnPassantRow(b: Board, prev: Piece, nr: Coord, nc: Coord, row: int, t: nat,
                      ghost v: View, ghost ep: Option<Pos>, ghost ps: seq<Piece>, ghost pool: set<Piece>)
    returns (aborted: bool)
    requires t < 2 && row == (if t == 0 then nr - 1 else nr + 1) && nc + 1 < BOARD_WIDTH && WellFormed(v)
    requires GridOk(b.grid) && Within(b.grid, pool) && ep == EpOf(b.grid, prev)
    requires ViewOf(b.grid) == ViewAfter(v, nr, nc, ep, prev.isWhite, t)
    requires ListOf(b, prev.isWhite) == ListAfter(ps, prev, v, nr, nc, ep, prev.isWhite, t)
    modifies Cells(b.grid)`isOccupied, Cells(b.grid)`occupying, b`whitePieces, b`blackPieces
    ensures GridOk(b.grid) && Within(b.grid, pool) && ep == EpOf(b.grid, prev)
    ensures aborted <==> 0 <= row < BOARD_WIDTH && Takes(v, nr, nc, ep) && prev.isWhite && nc == 0
    ensures !aborted ==>
      ViewOf(b.grid) == ViewAfter(v, nr, nc, ep, prev.isWhite, t + 1) &&
      ListOf(b, prev.isWhite) == ListAfter(ps, prev, v, nr, nc, ep, prev.isWhite, t + 1)
    ensures aborted ==> ViewOf(b.grid) == old(ViewOf(b.grid)) && ListOf(b, prev.isWhite) == old(ListOf(b, prev.isWhite))
    ensures ListOf(b, !prev.isWhite) == old(ListOf(b, !prev.isWhite))
    ensures b.Pool() <= old(b.Pool())
  {
    ghost var w := ViewOf(b.grid);
    EpRowStep(ps, prev, v, nr, nc, ep, prev.isWhite, t, row);
    var g := b.grid;
    var eps := prev.GetEPSquare();
    if eps != null && eps in Cells(g) {
      SquareIdentity(g, eps, nr, nc);
    }
    OccupiedIff(g, nr, nc);
    aborted := false;
    if 0 <= row < BOARD_WIDTH && !g[nr, nc].GetIsOccupied() && g[nr, nc] == prev.GetEPSquare() {
      aborted := EpTake(b, prev, nr, nc, w, pool);
    }
  }

  /**
   * The body of enPassant's loop once its test holds (Game.java:288-295): the square
   * left of the destination for a white pawn, right of it for a black one, is emptied,
   * and the pawn leaves its list; column -1 throws first.
   */
  method EpTake(b: Board, prev: Piece, nr: Coord, nc: Coord, ghost w: View, ghost pool: set<Piece>)
    returns (aborted: bool)
    requires GridOk(b.grid) && w == ViewOf(b.grid) && Within(b.grid, pool) && nc + 1 < BOARD_WIDTH
    modifies Cells(b.grid)`isOccupied, Cells(b.grid)`occupying, b`whitePieces, b`blackPieces
    ensures GridOk(b.grid) && Within(b.grid, pool)
    ensures aborted <==> prev.isWhite && nc == 0
    ensures !aborted ==>
      ViewOf(b.grid) == Put(w, Pos(nr, Beside(nc, prev.isWhite)), Empty) &&
      ListOf(b, prev.isWhite) == RemoveFirst(old(ListOf(b, prev.isWhite)), prev)
    ensures aborted ==> ViewOf(b.grid) == w && ListOf(b, prev.isWhite) == old(ListOf(b, prev.isWhite))
    ensures ListOf(b, !prev.isWhite) == old(ListOf(b, !prev.isWhite))
    ensures b.Pool() <= old(b.Pool())
  {
    var g := b.grid;
    ColorNameInjective(prev.isWhite, true);
    if prev.GetColor() == WHITE {
      if nc - 1 < 0 {
        return true;
      }
      Unseat(g, w, nr, nc - 1, pool);
    } else {
      Unseat(g, w, nr, nc + 1, pool);
    }
    Delist(b, prev, Put(w, Pos(nr, Beside(nc, prev.isWhite)), Empty), pool);
    aborted := false;
  }

  // ---------------------------------------------------------------- the commit

  /** What the commit stanza of handleSquareClick leaves: the view, the castle flag, whether it captured, whether it threw. */
  datatype Commit = Commit(view: View, castle: bool, capture: bool, aborted: bool)

  /**
   * The commit stanza of handleSquareClick (Game.java:234-248) on the view `v` for the
   * mover showing `km` on (or, oc) and the clicked square (nr, nc): castling; the
   * origin emptied; then either the occupant of the clicked square taken, when castling
   * did not set the flag, or, when the previous piece and the mover are both pawns,
   * enPassant with the previous pawn's colour `prevWhite` and en-passant square `ep`;
   * and, without the flag, the mover set onto the clicked square.  The flag comes from
   * its old value `castle0` as CastleFlag says.
   */
  function CommitSpec(v: View, km: Man, or: Coord, oc: Coord, nr: Coord, nc: Coord, castle0: bool, inCheck: bool,
                      pawns: bool, ep: Option<Pos>, prevWhite: bool): (r: Commit)
    requires WellFormed(v)
    ensures WellFormed(r.view)
  {
    var c := Castled(v, km, or, oc, nr, nc, inCheck);
    var castle := CastleFlag(castle0, c.1);
    if c.1 == Aborted then Commit(c.0, castle, false, true)
    else Landing(c.0, km, or, oc, nr, nc, castle, pawns, ep, prevWhite)
  }

  /**
   * The commit after castling, on the view `v` castling left and with the flag `castle`
   * it leaves (Game.java:235-248).
   */
  function Landing(v: View, km: Man, or: Coord, oc: Coord, nr: Coord, nc: Coord, castle: bool,
                   pawns: bool, ep: Option<Pos>, prevWhite: bool): (r: Commit)
    requires WellFormed(v)
    ensures WellFormed(r.view) && r.castle == castle
  {
    Finish(Put(v, Pos(or, oc), Empty), km, nr, nc, castle, pawns, ep, prevWhite)
  }

  /** The commit once the origin is emptied, on the view `v` (Game.java:236-248). */
  function Finish(v: View, km: Man, nr: Coord, nc: Coord, castle: bool,
                  pawns: bool, ep: Option<Pos>, prevWhite: bool): (r: Commit)
    requires WellFormed(v)
    ensures WellFormed(r.view) && r.castle == castle
  {
    var capture := v[nr][nc].Holds? && !castle;
    var e := if capture then (Put(v, Pos(nr, nc), Empty), 0, false)
             else if pawns then EnPassantSpec(v, nr, nc, ep, prevWhite)
             else (v, 0, false);
    if e.2 then Commit(e.0, castle, false, true)
    else Commit(if castle then e.0 else Put(e.0, Pos(nr, nc), Holds(km)), castle, capture, false)
  }

  /**
   * A commit where castling does not fire and the flag was clear: the occupant of the
   * destination is captured exactly when there is one other than the mover; enPassant
   * throws exactly when it is tried and its test holds for a white pawn on column 0;
   * otherwise the mover stands on the destination, the origin is empty unless it is the
   * destination, enPassant, when it fires, has emptied the square beside the
   * destination, and no other square changes.
   */
  lemma CommitMoves(v: View, km: Man, or: Coord, oc: Coord, nr: Coord, nc: Coord, inCheck: bool,
                    pawns: bool, ep: Option<Pos>, prevWhite: bool)
    requires WellFormed(v) && !Fired(Castled(v, km, or, oc, nr, nc, inCheck).1)
    ensures var r := CommitSpec(v, km, or, oc, nr, nc, false, inCheck, pawns, ep, prevWhite);
      var v2 := Put(v, Pos(or, oc), Empty);
      var ept := !r.capture && pawns && EpFires(v2, nr, nc, ep, prevWhite);
      !r.castle &&
      (r.capture <==> v[nr][nc].Holds? && Pos(nr, nc) != Pos(or, oc)) &&
      (r.aborted <==> !r.capture && pawns && Takes(v2, nr, nc, ep) && prevWhite && nc == 0) &&
      (!r.aborted ==>
        r.view[nr][nc] == Holds(km) &&
        (Pos(or, oc) != Pos(nr, nc) ==> r.view[or][oc] == Empty) &&
        (ept ==> r.view[nr][Beside(nc, prevWhite)] == Empty) &&
        forall i, j | 0 <= i < BOARD_WIDTH && 0 <= j < BOARD_WIDTH && Pos(i, j) != Pos(or, oc) && Pos(i, j) != Pos(nr, nc) &&
                      !(ept && Pos(i, j) == Pos(nr, Beside(nc, prevWhite))) ::
          r.view[i][j] == v[i][j])
  {
  }

  /**
   * The mover set onto the destination (Game.java:244-248): setOccupying, movePiece and
   * setIsOccupied.
   */
  method Relocate(g: array2<Square>, sel: Piece, nr: Coord, nc: Coord, ghost km: Man, ghost v: View, ghost pool: set<Piece>)
    requires GridOk(g) && v == ViewOf(g) && Within(g, pool) && sel in pool && km == ManOf(sel)
    modifies g[nr, nc]`isOccupied, g[nr, nc]`occupying, sel`oldRow, sel`oldCol
    ensures GridOk(g) && ViewOf(g) == Put(v, Pos(nr, nc), Holds(km)) && Within(g, pool)
    ensures g[nr, nc].occupying == sel && sel.oldRow == nr && sel.oldCol == nc
  {
    Seat(g, v, nr, nc, sel, pool);
    Repiece(g, Put(v, Pos(nr, nc), Holds(km)), sel, nr, nc, pool);
    Raise(g, Put(v, Pos(nr, nc), Holds(km)), nr, nc, pool);
  }

  /**
   * The capture branch (Game.java:236-239): the occupant of the destination is taken off
   * its square and out of the list of its colour.
   */
  method Capture(b: Board, nr: Coord, nc: Coord, ghost v: View, ghost pool: set<Piece>) returns (captured: Piece)
    requires GridOk(b.grid) && v == ViewOf(b.grid) && Within(b.grid, pool) && v[nr][nc].Holds?
    modifies b.grid[nr, nc]`isOccupied, b.grid[nr, nc]`occupying, b`whitePieces, b`blackPieces
    ensures GridOk(b.grid) && ViewOf(b.grid) == Put(v, Pos(nr, nc), Empty) && Within(b.grid, pool)
    ensures captured == old(b.grid[nr, nc].occupying) && captured in pool && Holds(ManOf(captured)) == v[nr][nc]
    ensures ListOf(b, captured.isWhite) == RemoveFirst(old(ListOf(b, captured.isWhite)), captured)
    ensures ListOf(b, !captured.isWhite) == old(ListOf(b, !captured.isWhite))
    ensures b.Pool() <= old(b.Pool())
  {
    captured := b.grid[nr, nc].GetOccupying();
    Unseat(b.grid, v, nr, nc, pool);
    Delist(b, captured, Put(v, Pos(nr, nc), Empty), pool);
  }

  /**
   * The branch of the commit between emptying the origin and setting the mover
   * (Game.java:236-243), on the board showing `v`: the occupant of the destination is
   * captured unless castling set the flag, and otherwise, when the previous piece and
   * the mover are both pawns (`pawns`), enPassant runs.
   */
  method Take(b: Board, sel: Piece, prev: Piece?, nr: Coord, nc: Coord, castle: bool,
              ghost pawns: bool, ghost v: View, ghost ep: Option<Pos>, ghost pool: set<Piece>)
    returns (captured: Piece?, aborted: bool)
    requires GridOk(b.grid) && v == ViewOf(b.grid) && Within(b.grid, pool) && ep == EpOf(b.grid, prev)
    requires pawns == (prev != null && prev.kind == Pawn && sel.kind == Pawn)
    modifies Cells(b.grid)`isOccupied, Cells(b.grid)`occupying, b`whitePieces, b`blackPieces
    ensures GridOk(b.grid) && Within(b.grid, pool)
    ensures var capture := v[nr][nc].Holds? && !castle;
      (captured != null <==> capture) &&
      (capture ==> ViewOf(b.grid) == Put(v, Pos(nr, nc), Empty) && !aborted) &&
      (!capture && pawns ==>
        var e := EnPassantSpec(v, nr, nc, ep, prev.isWhite);
        ViewOf(b.grid) == e.0 && aborted == e.2 &&
        ListOf(b, prev.isWhite) == Drop(old(ListOf(b, prev.isWhite)), prev, e.1) &&
        ListOf(b, !prev.isWhite) == old(ListOf(b, !prev.isWhite))) &&
      (!capture && !pawns ==>
        ViewOf(b.grid) == v && !aborted && b.whitePieces == old(b.whitePieces) && b.blackPieces == old(b.blackPieces))
    ensures captured != null ==>
      captured in pool && ListOf(b, captured.isWhite) == RemoveFirst(old(ListOf(b, captured.isWhite)), captured) &&
      ListOf(b, !captured.isWhite) == old(ListOf(b, !captured.isWhite))
    ensures b.Pool() <= old(b.Pool())
  {
    var g := b.grid;
    OccupiedIff(g, nr, nc);
    captured := null;
    aborted := false;
    if g[nr, nc].GetIsOccupied() && !castle {
      captured := Capture(b, nr, nc, v, pool);
    } else if prev != null && prev.GetType() == TypeName(Pawn) && sel.GetType() == TypeName(Pawn) {
      aborted := EnPassant(b, prev, nr, nc, v, ep, pool);
    }
  }

  /** The commit once the origin is emptied (Game.java:236-248), on the board showing `v`. */
  method Finishing(b: Board, sel: Piece, prev: Piece?, nr: Coord, nc: Coord, castle: bool,
                   ghost km: Man, ghost pawns: bool, ghost pw: bool, ghost v: View, ghost ep: Option<Pos>, ghost pool: set<Piece>)
    returns (captured: Piece?, aborted: bool)
    requires GridOk(b.grid) && v == ViewOf(b.grid) && Within(b.grid, pool) && sel in pool
    requires km == ManOf(sel) && ep == EpOf(b.grid, prev)
    requires pawns == (prev != null && prev.kind == Pawn && sel.kind == Pawn) && pw == (prev != null && prev.isWhite)
    modifies Cells(b.grid)`isOccupied, Cells(b.grid)`occupying, b`whitePieces, b`blackPieces, sel`oldRow, sel`oldCol
    ensures GridOk(b.grid) && Within(b.grid, pool)
    ensures var r := Finish(v, km, nr, nc, castle, pawns, ep, pw);
      ViewOf(b.grid) == r.view && aborted == r.aborted && (captured != null <==> r.capture)
    ensures captured != null ==> captured in pool
    ensures !castle && !aborted ==> b.grid[nr, nc].occupying == sel && sel.oldRow == nr && sel.oldCol == nc
    ensures b.Pool() <= old(b.Pool())
  {
    captured, aborted := Take(b, sel, prev, nr, nc, castle, pawns, v, ep, pool);
    if !aborted && !castle {
      Relocate(b.grid, sel, nr, nc, km, ViewOf(b.grid), pool);
    }
  }

  /**
   * The commit after castling (Game.java:235-248) for the mover `sel` and the previous
   * piece `prev`, on the board showing `v` and with castling's flag `castle`.
   */
  method Land(b: Board, sel: Piece, prev: Piece?, or: Coord, oc: Coord, nr: Coord, nc: Coord, castle: bool,
              ghost km: Man, ghost pawns: bool, ghost pw: bool, ghost v: View, ghost ep: Option<Pos>, ghost pool: set<Piece>)
    returns (captured: Piece?, aborted: bool)
    requires GridOk(b.grid) && v == ViewOf(b.grid) && Within(b.grid, pool) && sel in pool
    requires km == ManOf(sel) && ep == EpOf(b.grid, prev)
    requires pawns == (prev != null && prev.kind == Pawn && sel.kind == Pawn) && pw == (prev != null && prev.isWhite)
    modifies Cells(b.grid)`isOccupied, Cells(b.grid)`occupying, b`whitePieces, b`blackPieces, sel`oldRow, sel`oldCol
    ensures GridOk(b.grid) && Within(b.grid, pool)
    ensures var r := Landing(v, km, or, oc, nr, nc, castle, pawns, ep, pw);
      ViewOf(b.grid) == r.view && aborted == r.aborted && (captured != null <==> r.capture)
    ensures captured != null ==> captured in pool
    ensures !castle && !aborted ==> b.grid[nr, nc].occupying == sel && sel.oldRow == nr && sel.oldCol == nc
    ensures b.Pool() <= old(b.Pool())
  {
    Unseat(b.grid, v, or, oc, pool);
    captured, aborted := Finishing(b, sel, prev, nr, nc, castle, km, pawns, pw, Put(v, Pos(or, oc), Empty), ep, pool);
  }

  /**
   * The commit stanza of handleSquareClick (Game.java:234-248) once the gates have
   * passed, for the selection `sel` read at (or, oc), the previous piece `prev`, the
   * clicked square `clicked`, the castle flag `castle0` and the current player's check
   * flag `inCheck`: it returns the new castle flag, the captured piece, and whether the
   * source throws on the way (castling or enPassant off the board).
   */
  method CommitMove(b: Board, sel: Piece, prev: Piece?, clicked: Square, castle0: bool, inCheck: bool, or: Coord, oc: Coord,
                    ghost km: Man, ghost pawns: bool, ghost pw: bool, ghost v: View, ghost ep: Option<Pos>, ghost pool: set<Piece>)
    returns (castle: bool, captured: Piece?, aborted: bool)
    requires GridOk(b.grid) && v == ViewOf(b.grid) && Within(b.grid, pool) && sel in pool && clicked in Cells(b.grid)
    requires km == ManOf(sel) && ep == EpOf(b.grid, prev)
    requires pawns == (prev != null && prev.kind == Pawn && sel.kind == Pawn) && pw == (prev != null && prev.isWhite)
    modifies Cells(b.grid)`isOccupied, Cells(b.grid)`occupying, b`whitePieces, b`blackPieces, sel`oldRow, sel`oldCol
    modifies Opt(clicked.occupying)`oldRow, Opt(clicked.occupying)`oldCol
    ensures GridOk(b.grid) && Within(b.grid, pool)
    ensures var c := Castled(v, km, or, oc, clicked.row, clicked.col, inCheck);
      castle == CastleFlag(castle0, c.1) &&
      (c.1 == Aborted ==> ViewOf(b.grid) == c.0 && aborted && captured == null)
    ensures var c := Castled(v, km, or, oc, clicked.row, clicked.col, inCheck);
      c.1 != Aborted ==>
        var r := Landing(c.0, km, or, oc, clicked.row, clicked.col, castle, pawns, ep, pw);
        ViewOf(b.grid) == r.view && aborted == r.aborted && (captured != null <==> r.capture)
    ensures captured != null ==> captured in pool
    ensures !castle && !aborted ==>
      b.grid[clicked.row, clicked.col].occupying == sel && sel.oldRow == clicked.row && sel.oldCol == clicked.col
    ensures b.Pool() <= old(b.Pool()) + {sel} + Opt(old(clicked.occupying))
  {
    var nr, nc := clicked.row, clicked.col;
    SquareIdentity(b.grid, clicked, nr, nc);
    OccupiedIff(b.grid, nr, nc);
    var out := Castle(b, clicked, sel, inCheck, or, oc, km, v, pool);
    castle := CastleFlag(castle0, out);
    if out == Aborted {
      return castle, null, true;
    }
    captured, aborted := Land(b, sel, prev, or, oc, nr, nc, castle, km, pawns, pw, ViewOf(b.grid), ep, pool);
  }
}
