/**
 * Shared vocabulary of the chess rules engine: the board constants, the six
 * piece kinds, and the value snapshot of the 8x8 board (a View) that every move
 * rule reads.  Coordinates are (row, col) with `row` the horizontal screen index
 * and `col` the vertical one; pawns advance along `col`.
 */
module Core {

  // Constants.java
  const BOARD_WIDTH: int := 8
  const SQUARE_WIDTH: int := 70
  const DIRECTIONS: int := 4
  const LH: int := 4
  const LH_ROOK: int := 3
  const LH_BISHOP: int := 2
  const LH_KNIGHT: int := 1
  const WHITE: string := "white"
  const BLACK: string := "black"

  /** A row or column index of the board. */
  type Coord = x: int | 0 <= x < BOARD_WIDTH

  datatype Option<T> = None | Some(value: T)

  /** The six concrete subclasses of Piece. */
  datatype Kind = Pawn | Knight | Bishop | Rook | Queen | King

  /** What `getType` returns for each subclass. */
  function TypeName(k: Kind): string {
    match k
    case Pawn => "Pawn"
    case Knight => "Knight"
    case Bishop => "Bishop"
    case Rook => "Rook"
    case Queen => "Queen"
    case King => "King"
  }

  /** What `getColor` returns. */
  function ColorName(white: bool): string {
    if white then WHITE else BLACK
  }

  /** A board coordinate. */
  datatype Pos = Pos(row: int, col: int)

  /** What a move query can see of an occupant: colour, kind and first-move flag. */
  datatype Man = Man(white: bool, kind: Kind, firstMove: bool)

  datatype Cell = Empty | Holds(man: Man)

  /** A snapshot of the board, indexed `v[row][col]`. */
  type View = seq<seq<Cell>>

  predicate WellFormed(v: View) {
    |v| == BOARD_WIDTH && forall i | 0 <= i < BOARD_WIDTH :: |v[i]| == BOARD_WIDTH
  }

  /**
   * What a move query reads of the moving piece itself.  `white` is Piece.isWhite;
   * `pawnWhite` is the separate copy of the colour that a Pawn takes in its own
   * constructor and that fixes its direction (Pawn.java:13, 29).
   */
  datatype PieceInfo = PieceInfo(kind: Kind, white: bool, pawnWhite: bool, firstMove: bool, row: int, col: int)

  /**
   * The rest of the game state a move query reads: the board's two cached check
   * flags (read by castling) and the en-passant square of the previously moved
   * piece (read by pawn captures).
   */
  datatype Ctx = Ctx(wInCheck: bool, bInCheck: bool, prevEp: Option<Pos>)

  predicate InBounds(r: int, c: int) {
    0 <= r < BOARD_WIDTH && 0 <= c < BOARD_WIDTH
  }

  /** The view with square `q` replaced by `c`. */
  function Put(v: View, q: Pos, c: Cell): (w: View)
    requires WellFormed(v) && InBounds(q.row, q.col)
    ensures WellFormed(w)
    ensures forall i, j {:trigger w[i][j]} | 0 <= i < BOARD_WIDTH && 0 <= j < BOARD_WIDTH ::
      w[i][j] == if i == q.row && j == q.col then c else v[i][j]
  {
    v[q.row := v[q.row][q.col := c]]
  }

  /** Two views are equal when they agree square by square. */
  lemma SameView(v: View, w: View)
    requires WellFormed(v) && WellFormed(w)
    requires forall i, j | 0 <= i < BOARD_WIDTH && 0 <= j < BOARD_WIDTH :: v[i][j] == w[i][j]
    ensures v == w
  {
    forall i | 0 <= i < BOARD_WIDTH
      ensures v[i] == w[i]
    {
      assert forall j | 0 <= j < BOARD_WIDTH :: v[i][j] == w[i][j];
    }
  }

  /** Writing one square twice keeps only the second write. */
  lemma PutPut(v: View, q: Pos, c: Cell, d: Cell)
    requires WellFormed(v) && InBounds(q.row, q.col)
    ensures Put(Put(v, q, c), q, d) == Put(v, q, d)
  {
    SameView(Put(Put(v, q, c), q, d), Put(v, q, d));
  }

  /** Writing a square with what it already holds changes nothing. */
  lemma PutSame(v: View, q: Pos)
    requires WellFormed(v) && InBounds(q.row, q.col)
    ensures Put(v, q, v[q.row][q.col]) == v
  {
    SameView(Put(v, q, v[q.row][q.col]), v);
  }

  function Abs(x: int): nat {
    if x < 0 then -x else x
  }

  function Min(a: int, b: int): int {
    if a <= b then a else b
  }

  function Max(a: int, b: int): int {
    if a <= b then b else a
  }

  /** Integer.compare(a, b). */
  function Compare(a: int, b: int): int {
    if a < b then -1 else if a == b then 0 else 1
  }

  predicate Occupied(v: View, r: int, c: int)
    requires WellFormed(v) && InBounds(r, c)
  {
    v[r][c].Holds?
  }

  /** Piece.captureValidity: a square may be entered unless it holds a piece of the mover's colour. */
  predicate CaptureOk(v: View, white: bool, r: int, c: int)
    requires WellFormed(v) && InBounds(r, c)
  {
    !(v[r][c].Holds? && v[r][c].man.white == white)
  }

  /** Exactly one of the two coordinates changes. */
  predicate Straight(or: int, oc: int, nr: int, nc: int) {
    (or == nr && oc != nc) || (or != nr && oc == nc)
  }

  /** Equal distance along both coordinates (this includes the null move). */
  predicate Diagonal(or: int, oc: int, nr: int, nc: int) {
    Abs(nr - or) == Abs(nc - oc)
  }

  predicate Aligned(or: int, oc: int, nr: int, nc: int) {
    or == nr || oc == nc || Diagonal(or, oc, nr, nc)
  }

  /** Chebyshev distance. */
  function Dist(or: int, oc: int, nr: int, nc: int): nat {
    Max(Abs(nr - or), Abs(nc - oc))
  }

  /** The coordinate reached after `k` unit steps from `o` towards `n`. */
  function Step(o: int, n: int, k: int): int {
    if o < n then o + k else if n < o then o - k else o
  }

  lemma StepInRange(o: int, n: int, k: int)
    requires 0 <= k <= Abs(n - o)
    ensures Min(o, n) <= Step(o, n, k) <= Max(o, n)
  {
  }

  /** On an aligned line, each coordinate either stays put or spans the full distance. */
  lemma AlignedSpan(or: int, oc: int, nr: int, nc: int)
    requires Aligned(or, oc, nr, nc)
    ensures or == nr || Abs(nr - or) == Dist(or, oc, nr, nc)
    ensures oc == nc || Abs(nc - oc) == Dist(or, oc, nr, nc)
  {
  }

  /** The k-th square (0 < k < distance) strictly between two aligned squares is on the board. */
  lemma BetweenInBounds(or: int, oc: int, nr: int, nc: int, k: int)
    requires InBounds(or, oc) && InBounds(nr, nc) && Aligned(or, oc, nr, nc)
    requires 0 < k < Dist(or, oc, nr, nc)
    ensures InBounds(Step(or, nr, k), Step(oc, nc, k))
  {
    AlignedSpan(or, oc, nr, nc);
  }

  /**
   * No square strictly between two aligned squares is occupied: the meaning of the
   * scan loops in Bishop, Rook and Queen.
   */
  predicate PathClear(v: View, or: int, oc: int, nr: int, nc: int)
    requires WellFormed(v) && InBounds(or, oc) && InBounds(nr, nc) && Aligned(or, oc, nr, nc)
  {
    ClearBefore(v, or, oc, nr, nc, Dist(or, oc, nr, nc))
  }

  /** The first `t - 1` squares strictly between the two aligned squares are empty. */
  predicate ClearBefore(v: View, or: int, oc: int, nr: int, nc: int, t: int)
    requires WellFormed(v) && InBounds(or, oc) && InBounds(nr, nc) && Aligned(or, oc, nr, nc)
  {
    forall k | 0 < k < t && k < Dist(or, oc, nr, nc) ::
      BetweenInBounds(or, oc, nr, nc, k);
      !Occupied(v, Step(or, nr, k), Step(oc, nc, k))
  }

  /** One more step of a scan loop: the path up to `t + 1` is clear iff it was up to `t` and square `t` is empty. */
  lemma ClearBeforeNext(v: View, or: int, oc: int, nr: int, nc: int, t: int)
    requires WellFormed(v) && InBounds(or, oc) && InBounds(nr, nc) && Aligned(or, oc, nr, nc)
    requires 0 < t < Dist(or, oc, nr, nc)
    ensures InBounds(Step(or, nr, t), Step(oc, nc, t))
    ensures ClearBefore(v, or, oc, nr, nc, t + 1) <==>
      ClearBefore(v, or, oc, nr, nc, t) && !Occupied(v, Step(or, nr, t), Step(oc, nc, t))
  {
    BetweenInBounds(or, oc, nr, nc, t);
  }

  /**
   * Square (r, c) lies strictly between the aligned squares (ar, ac) and (kr, kc):
   * the documented meaning of the path walks in whenInCheck and canIntersectPath.
   */
  predicate OnPath(ar: int, ac: int, kr: int, kc: int, r: int, c: int) {
    Aligned(ar, ac, kr, kc) &&
    var t := Dist(ar, ac, r, c);
    0 < t < Dist(ar, ac, kr, kc) && r == Step(ar, kr, t) && c == Step(ac, kc, t)
  }

  /** OnPath is exactly the set of squares the k-indexed walk visits. */
  lemma OnPathIsStep(ar: int, ac: int, kr: int, kc: int, r: int, c: int)
    requires Aligned(ar, ac, kr, kc)
    ensures OnPath(ar, ac, kr, kc, r, c) <==>
      exists k :: 0 < k < Dist(ar, ac, kr, kc) && r == Step(ar, kr, k) && c == Step(ac, kc, k)
  {
    AlignedSpan(ar, ac, kr, kc);
    if OnPath(ar, ac, kr, kc, r, c) {
      var t := Dist(ar, ac, r, c);
      assert 0 < t < Dist(ar, ac, kr, kc) && r == Step(ar, kr, t) && c == Step(ac, kc, t);
    }
    if exists k :: 0 < k < Dist(ar, ac, kr, kc) && r == Step(ar, kr, k) && c == Step(ac, kc, k) {
      var k :| 0 < k < Dist(ar, ac, kr, kc) && r == Step(ar, kr, k) && c == Step(ac, kc, k);
      assert Dist(ar, ac, r, c) == k;
    }
  }

  /** A uniform draw in [0, 1), represented exactly as the fraction num/den. */
  datatype Unit = Unit(num: nat, den: nat)

  predicate UnitOk(u: Unit) {
    u.num < u.den
  }

  /** `(int) (Math.random() * n)` for the draw `u`. */
  function Scale(u: Unit, n: nat): (k: nat)
    requires UnitOk(u)
    ensures n == 0 ==> k == 0
    ensures n > 0 ==> k < n
  {
    ScaleBound(u, n);
    u.num * n / u.den
  }

  lemma ScaleBound(u: Unit, n: nat)
    requires UnitOk(u)
    ensures u.num * n / u.den <= n
    ensures n > 0 ==> u.num * n / u.den < n
  {
    assert u.num * n <= (u.den - 1) * n by {
      assert u.num <= u.den - 1;
    }
    if n > 0 {
      assert u.num * n < u.den * n;
    }
  }
}
