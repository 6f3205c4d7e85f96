/**
 * Silly mode on the board view (Game.java:434-769): after a capture of anything but a
 * pawn the whole board shifts one square in a random direction, every line wrapping
 * around, and then one piece, not a king, on the line that received the wrapped
 * pieces is replaced by a piece of a lower kind and the other colour.
 */
module Silly {
  import opened Core

  /** The four cases of shiftBoard's switch. */
  datatype Direction = Up | Down | Left | Right

  /** shiftBoard: `(int) (Math.random() * DIRECTIONS)` selects the case (Game.java:444-460). */
  function DirectionOf(u: Unit): (d: Direction)
    requires UnitOk(u)
    ensures Scale(u, DIRECTIONS) == 0 <==> d == Up
    ensures Scale(u, DIRECTIONS) == 1 <==> d == Down
    ensures Scale(u, DIRECTIONS) == 2 <==> d == Left
    ensures Scale(u, DIRECTIONS) == 3 <==> d == Right
  {
    var k := Scale(u, DIRECTIONS);
    if k == 0 then Up else if k == 1 then Down else if k == 2 then Left else Right
  }

  /** The next index around the board, and the previous one. */
  function Succ(k: int): Coord {
    (k + 1) % BOARD_WIDTH
  }

  function Pred(k: int): Coord {
    (k + BOARD_WIDTH - 1) % BOARD_WIDTH
  }

  /** The square whose content lands on (r, c) in a shift in direction `d`. */
  function From(d: Direction, r: Coord, c: Coord): Pos {
    match d
    case Up => Pos(r, Succ(c))
    case Down => Pos(r, Pred(c))
    case Left => Pos(Succ(r), c)
    case Right => Pos(Pred(r), c)
  }

  /**
   * The board after shiftUp, shiftDown, shiftLeft or shiftRight: every square takes the
   * content of its neighbour on the far side, the square on the edge that of the
   * square on the opposite edge.
   */
  function Shifted(v: View, d: Direction): (w: View)
    requires WellFormed(v)
    ensures WellFormed(w)
  {
    seq(BOARD_WIDTH, r requires 0 <= r < BOARD_WIDTH =>
      seq(BOARD_WIDTH, c requires 0 <= c < BOARD_WIDTH =>
        v[From(d, r, c).row][From(d, r, c).col]))
  }

  /** Column `c` of the view: the line shiftLeft and shiftRight move along. */
  function Column(v: View, c: Coord): (line: seq<Cell>)
    requires WellFormed(v)
    ensures |line| == BOARD_WIDTH
  {
    seq(BOARD_WIDTH, r requires 0 <= r < BOARD_WIDTH => v[r][c])
  }

  /** A line moved one place towards its start, the first element wrapping to the end. */
  function RotateBack(s: seq<Cell>): seq<Cell>
    requires |s| > 0
  {
    s[1..] + [s[0]]
  }

  /** A line moved one place towards its end, the last element wrapping to the start. */
  function RotateOn(s: seq<Cell>): seq<Cell>
    requires |s| > 0
  {
    [s[|s| - 1]] + s[..|s| - 1]
  }

  /**
   * Each shift is a cyclic rotation of every line along its direction: shiftUp and
   * shiftDown rotate each v[i] (Game.java:469-534), shiftLeft and shiftRight each
   * column (Game.java:543-609).
   */
  lemma ShiftRotates(v: View, d: Direction, i: Coord)
    requires WellFormed(v)
    ensures d == Up ==> Shifted(v, d)[i] == RotateBack(v[i])
    ensures d == Down ==> Shifted(v, d)[i] == RotateOn(v[i])
    ensures d == Left ==> Column(Shifted(v, d), i) == RotateBack(Column(v, i))
    ensures d == Right ==> Column(Shifted(v, d), i) == RotateOn(Column(v, i))
  {
    var w := Shifted(v, d);
    match d
    case Up =>
      assert forall c | 0 <= c < BOARD_WIDTH :: w[i][c] == RotateBack(v[i])[c];
    case Down =>
      assert forall c | 0 <= c < BOARD_WIDTH :: w[i][c] == RotateOn(v[i])[c];
    case Left =>
      assert forall r | 0 <= r < BOARD_WIDTH :: Column(w, i)[r] == RotateBack(Column(v, i))[r];
    case Right =>
      assert forall r | 0 <= r < BOARD_WIDTH :: Column(w, i)[r] == RotateOn(Column(v, i))[r];
  }

  /** A rotation keeps every element of the line. */
  lemma RotationsKeepContents(s: seq<Cell>)
    requires |s| > 0
    ensures multiset(RotateBack(s)) == multiset(s)
    ensures multiset(RotateOn(s)) == multiset(s)
  {
    assert s == [s[0]] + s[1..];
    assert s == s[..|s| - 1] + [s[|s| - 1]];
  }

  /** The direction that undoes a shift. */
  function Opposite(d: Direction): Direction {
    match d
    case Up => Down
    case Down => Up
    case Left => Right
    case Right => Left
  }

  lemma SuccPred(k: Coord)
    ensures Succ(Pred(k)) == k && Pred(Succ(k)) == k
  {
  }

  /** A shift followed by the opposite shift puts every piece back. */
  lemma ShiftUndone(v: View, d: Direction)
    requires WellFormed(v)
    ensures Shifted(Shifted(v, d), Opposite(d)) == v
  {
    var s := Shifted(v, d);
    var w := Shifted(s, Opposite(d));
    forall r | 0 <= r < BOARD_WIDTH
      ensures w[r] == v[r]
    {
      forall c | 0 <= c < BOARD_WIDTH
        ensures w[r][c] == v[r][c]
      {
        var q := From(Opposite(d), r, c);
        SuccPred(r);
        SuccPred(c);
        assert From(d, q.row, q.col) == Pos(r, c);
        assert w[r][c] == s[q.row][q.col];
      }
    }
  }

  /**
   * The line that receives the wrapped pieces, which the transform then draws from:
   * column 7 after shiftUp, column 0 after shiftDown, row 7 after shiftLeft and row 0
   * after shiftRight (Game.java:496, 533, 608, 570).
   */
  function WrapLine(d: Direction): Coord {
    match d
    case Up => BOARD_WIDTH - 1
    case Down => 0
    case Left => BOARD_WIDTH - 1
    case Right => 0
  }

  /** The wrap line holds exactly the pieces of the opposite edge, in place. */
  lemma WrapLineFromOppositeEdge(v: View, d: Direction, k: Coord)
    requires WellFormed(v)
    ensures d == Up ==> Shifted(v, d)[k][WrapLine(d)] == v[k][0]
    ensures d == Down ==> Shifted(v, d)[k][WrapLine(d)] == v[k][BOARD_WIDTH - 1]
    ensures d == Left ==> Shifted(v, d)[WrapLine(d)][k] == v[0][k]
    ensures d == Right ==> Shifted(v, d)[WrapLine(d)][k] == v[BOARD_WIDTH - 1][k]
  {
  }

  // ---------------------------------------------------------------- demotion

  /** The hierarchy: pawn, knight, bishop, rook, queen (and the king above them). */
  function Rank(k: Kind): nat {
    match k
    case Pawn => 0
    case Knight => 1
    case Bishop => 2
    case Rook => 3
    case Queen => 4
    case King => 5
  }

  /**
   * The bound generateLowerHierarchyPiece scales its draw by (Game.java:670-682): the
   * number of kinds below a rook, bishop or knight, none for a pawn, LH for the rest.
   */
  function LowerBound(k: Kind): nat {
    if k == Rook then LH_ROOK
    else if k == Bishop then LH_BISHOP
    else if k == Knight then LH_KNIGHT
    else if k == Pawn then 0
    else LH
  }

  /** The switch of generateLowerHierarchyPiece (Game.java:685-698): no case keeps the initial pawn. */
  function LowerKind(n: nat): Kind {
    if n == 0 then Pawn else if n == 1 then Knight else if n == 2 then Bishop else if n == 3 then Rook else Pawn
  }

  /** The kind generateLowerHierarchyPiece creates for a piece of kind `k` and the draw `u`. */
  function Demoted(k: Kind, u: Unit): Kind
    requires UnitOk(u)
  {
    LowerKind(Scale(u, LowerBound(k)))
  }

  /**
   * A demoted piece is of a strictly lower kind, except that a pawn makes a pawn; it is
   * never a queen or a king.
   */
  lemma DemotedIsLower(k: Kind, u: Unit)
    requires UnitOk(u)
    ensures k != Pawn ==> Rank(Demoted(k, u)) < Rank(k)
    ensures k == Pawn ==> Demoted(k, u) == Pawn
    ensures Rank(Demoted(k, u)) <= Rank(Rook)
  {
  }

  /** Every kind below a rook, bishop or knight, or below a queen, is drawn for some `u`. */
  lemma DemotedReachesEveryLower(k: Kind, j: Kind)
    requires k != King && Rank(j) < Rank(k)
    ensures exists u | UnitOk(u) :: Demoted(k, u) == j
  {
    var u := Unit(Rank(j), LowerBound(k));
    assert UnitOk(u) && Scale(u, LowerBound(k)) == Rank(j);
  }

  /** The cell the new piece shows: the other colour, the new kind, its first move still to come. */
  function DemotedCell(m: Man, u: Unit): Cell
    requires UnitOk(u)
  {
    Holds(Man(!m.white, Demoted(m.kind, u), true))
  }

  // ---------------------------------------------------------------- transform

  /** A cell the transform may pick: a piece other than a king. */
  predicate Eligible(c: Cell) {
    c.Holds? && c.man.kind != King
  }

  /**
   * The list transformRandomPieceInWrappedCol / Row collects (Game.java:709-716,
   * 744-751): the indices below `n` of the cells of `line` that hold a piece other
   * than a king, in increasing order.
   */
  function Candidates(line: seq<Cell>, n: nat): (ks: seq<nat>)
    requires n <= |line|
    ensures forall j | 0 <= j < |ks| :: ks[j] < n
  {
    if n == 0 then []
    else if Eligible(line[n - 1]) then Candidates(line, n - 1) + [n - 1]
    else Candidates(line, n - 1)
  }

  /** The candidates are exactly the eligible indices, each once, in increasing order. */
  lemma {:induction false} CandidatesSpec(line: seq<Cell>, n: nat)
    requires n <= |line|
    ensures forall k | 0 <= k < n :: Eligible(line[k]) <==> k in Candidates(line, n)
    ensures forall a, b | 0 <= a < b < |Candidates(line, n)| :: Candidates(line, n)[a] < Candidates(line, n)[b]
  {
    if n > 0 {
      CandidatesSpec(line, n - 1);
    }
  }

  /**
   * The square of index `k` of a line: transformRandomPieceInWrappedCol walks the rows
   * of a column, transformRandomPieceInWrappedRow the columns of a row.
   */
  function LineSquare(col: bool, i: Coord, k: Coord): Pos {
    if col then Pos(k, i) else Pos(i, k)
  }

  /** The cells of that line. */
  function LineOf(v: View, col: bool, i: Coord): (line: seq<Cell>)
    requires WellFormed(v)
    ensures |line| == BOARD_WIDTH
  {
    if col then Column(v, i) else v[i]
  }

  /**
   * The view after the transform on line `i`: the candidate the draw `pick` selects
   * shows its demoted replacement, drawn by `lower`; without candidates nothing
   * changes.
   */
  function Transformed(v: View, col: bool, i: Coord, pick: Unit, lower: Unit): (w: View)
    requires WellFormed(v) && UnitOk(pick) && UnitOk(lower)
    ensures WellFormed(w)
  {
    var line := LineOf(v, col, i);
    var ks := Candidates(line, BOARD_WIDTH);
    if |ks| == 0 then v
    else
      CandidatesSpec(line, BOARD_WIDTH);
      var k := ks[Scale(pick, |ks|)];
      Put(v, LineSquare(col, i, k), DemotedCell(line[k].man, lower))
  }
}
