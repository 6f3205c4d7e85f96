/**
 * The heap side of silly mode's board shift (Game.java:469-661): shiftUp, shiftDown,
 * shiftLeft and shiftRight move the square objects' occupants one line at a time,
 * through the temporary array of storeWrappedCol / storeWrappedRow and the writes of
 * shiftMid, and hand the lifted edge piece to the opposite edge.
 *
 * The four methods share one shape, which the model writes once: a line is v[i] for
 * shiftUp and shiftDown and column i for shiftLeft and shiftRight; shiftUp and
 * shiftLeft run their loops from index 7 down and move pieces towards index 0, the
 * other two run from index 0 up and move pieces towards index 7.
 */
module Shifts {
  import opened Core
  import opened Pieces
  import opened Silly

  // ---------------------------------------------------------------- lines

  /** shiftUp and shiftDown move along v[i]; shiftLeft and shiftRight along column i. */
  predicate Vertical(d: Direction) {
    d == Up || d == Down
  }

  /** shiftUp and shiftLeft use the offset -1. */
  predicate Back(d: Direction) {
    d == Up || d == Left
  }

  /** Square `k` of line `i`. */
  function Sq(d: Direction, i: Coord, k: Coord): Pos {
    if Vertical(d) then Pos(i, k) else Pos(k, i)
  }

  predicate OnLine(d: Direction, i: Coord, r: Coord, c: Coord) {
    if Vertical(d) then r == i else c == i
  }

  /** The index of square (r, c) along the lines of direction `d`. */
  function IndexOn(d: Direction, r: Coord, c: Coord): Coord {
    if Vertical(d) then c else r
  }

  /** The square whose piece is lifted first (lastPiece), and the one it is set onto last. */
  function Edge(d: Direction): Coord {
    if Back(d) then 0 else BOARD_WIDTH - 1
  }

  function Far(d: Direction): Coord {
    if Back(d) then BOARD_WIDTH - 1 else 0
  }

  /** The index the `t`-th pass of the store loop, and of the shiftMid loop, reads. */
  function Visit(d: Direction, t: Coord): Coord {
    if Back(d) then BOARD_WIDTH - 1 - t else t
  }

  /** The index the `t`-th pass of the shiftMid loop writes: one step along the offset. */
  function Target(d: Direction, t: int): Coord
    requires 0 <= t < BOARD_WIDTH - 1
  {
    if Back(d) then BOARD_WIDTH - 2 - t else t + 1
  }

  /** The index whose piece lands on index `k`. */
  function Src(d: Direction, k: Coord): Coord {
    if Back(d) then Succ(k) else Pred(k)
  }

  /** The board with line `i` shifted and every other line as it was. */
  function ShiftLineView(v: View, d: Direction, i: Coord): (w: View)
    requires WellFormed(v)
    ensures WellFormed(w)
  {
    seq(BOARD_WIDTH, r requires 0 <= r < BOARD_WIDTH =>
      seq(BOARD_WIDTH, c requires 0 <= c < BOARD_WIDTH =>
        if OnLine(d, i, r, c) then v[From(d, r, c).row][From(d, r, c).col] else v[r][c]))
  }

  /** The board with the first `n` lines shifted. */
  function ShiftLines(v: View, d: Direction, n: nat): (w: View)
    requires WellFormed(v) && n <= BOARD_WIDTH
    ensures WellFormed(w)
  {
    if n == 0 then v else ShiftLineView(ShiftLines(v, d, n - 1), d, n - 1)
  }

  /** Only the first `n` lines have moved, each as the whole shift moves it. */
  lemma {:induction false} ShiftLinesCells(v: View, d: Direction, n: nat)
    requires WellFormed(v) && n <= BOARD_WIDTH
    ensures forall r, c | 0 <= r < BOARD_WIDTH && 0 <= c < BOARD_WIDTH ::
      ShiftLines(v, d, n)[r][c] ==
        if (if Vertical(d) then r else c) < n then v[From(d, r, c).row][From(d, r, c).col] else v[r][c]
  {
    if n > 0 {
      ShiftLinesCells(v, d, n - 1);
    }
  }

  /** Shifting the eight lines one after the other is the shift of the board. */
  lemma ShiftLinesWhole(v: View, d: Direction)
    requires WellFormed(v)
    ensures ShiftLines(v, d, BOARD_WIDTH) == Shifted(v, d)
  {
    ShiftLinesCells(v, d, BOARD_WIDTH);
    SameView(ShiftLines(v, d, BOARD_WIDTH), Shifted(v, d));
  }

  // ---------------------------------------------------------------- the steps of one line

  /** Whether the first `t` passes of the store loop have read index `k`. */
  predicate Visited(d: Direction, k: Coord, t: int) {
    if Back(d) then k > BOARD_WIDTH - 1 - t else k < t
  }

  /** The board after the edge square is lifted and the store loop has run `t` passes. */
  function Stored(v: View, d: Direction, i: Coord, t: int): (w: View)
    requires WellFormed(v)
    ensures WellFormed(w)
  {
    seq(BOARD_WIDTH, r requires 0 <= r < BOARD_WIDTH =>
      seq(BOARD_WIDTH, c requires 0 <= c < BOARD_WIDTH =>
        if OnLine(d, i, r, c) && (IndexOn(d, r, c) == Edge(d) || Visited(d, IndexOn(d, r, c), t)) then Empty
        else v[r][c]))
  }

  /** Whether the first `t` passes of the shiftMid loop have written index `k`. */
  predicate Filled(d: Direction, k: Coord, t: int) {
    if Back(d) then BOARD_WIDTH - 1 - t <= k < BOARD_WIDTH - 1 else 0 < k <= t
  }

  /** The board after `t` passes of the shiftMid loop on the emptied line. */
  function Moved(v: View, d: Direction, i: Coord, t: int): (w: View)
    requires WellFormed(v)
    ensures WellFormed(w)
  {
    seq(BOARD_WIDTH, r requires 0 <= r < BOARD_WIDTH =>
      seq(BOARD_WIDTH, c requires 0 <= c < BOARD_WIDTH =>
        if !OnLine(d, i, r, c) then v[r][c]
        else if Filled(d, IndexOn(d, r, c), t) then
          v[Sq(d, i, Src(d, IndexOn(d, r, c))).row][Sq(d, i, Src(d, IndexOn(d, r, c))).col]
        else Empty))
  }

  /** Lifting the edge piece empties the edge square; the store loop has not started. */
  lemma LiftStored(v: View, d: Direction, i: Coord)
    requires WellFormed(v)
    ensures Put(v, Sq(d, i, Edge(d)), Empty) == Stored(v, d, i, 0)
  {
    SameView(Put(v, Sq(d, i, Edge(d)), Empty), Stored(v, d, i, 0));
  }

  /** An edge square that was empty already is the board before the store loop. */
  lemma EmptyEdgeStored(v: View, d: Direction, i: Coord)
    requires WellFormed(v) && v[Sq(d, i, Edge(d)).row][Sq(d, i, Edge(d)).col] == Empty
    ensures v == Stored(v, d, i, 0)
  {
    SameView(v, Stored(v, d, i, 0));
  }

  /** One pass of the store loop empties the square it reads. */
  lemma StoredNext(v: View, d: Direction, i: Coord, t: Coord)
    requires WellFormed(v)
    ensures Put(Stored(v, d, i, t), Sq(d, i, Visit(d, t)), Empty) == Stored(v, d, i, t + 1)
  {
    SameView(Put(Stored(v, d, i, t), Sq(d, i, Visit(d, t)), Empty), Stored(v, d, i, t + 1));
  }

  /** After the store loop the line is empty: the start of the shiftMid loop. */
  lemma StoredMoved(v: View, d: Direction, i: Coord)
    requires WellFormed(v)
    ensures Stored(v, d, i, BOARD_WIDTH) == Moved(v, d, i, 0)
  {
    SameView(Stored(v, d, i, BOARD_WIDTH), Moved(v, d, i, 0));
  }

  /** One pass of the shiftMid loop writes the piece read from index Visit(t) onto index Target(t). */
  lemma MovedNext(v: View, d: Direction, i: Coord, t: int)
    requires WellFormed(v) && 0 <= t < BOARD_WIDTH - 1
    ensures var s := Sq(d, i, Visit(d, t));
      Put(Moved(v, d, i, t), Sq(d, i, Target(d, t)), v[s.row][s.col]) == Moved(v, d, i, t + 1)
  {
    var s := Sq(d, i, Visit(d, t));
    assert Src(d, Target(d, t)) == Visit(d, t);
    SameView(Put(Moved(v, d, i, t), Sq(d, i, Target(d, t)), v[s.row][s.col]), Moved(v, d, i, t + 1));
  }

  /** Setting the lifted piece onto the far edge completes the shift of the line. */
  lemma MovedLast(v: View, d: Direction, i: Coord)
    requires WellFormed(v)
    ensures var e := Sq(d, i, Edge(d));
      Put(Moved(v, d, i, BOARD_WIDTH - 1), Sq(d, i, Far(d)), v[e.row][e.col]) == ShiftLineView(v, d, i)
  {
    var e := Sq(d, i, Edge(d));
    var w := Put(Moved(v, d, i, BOARD_WIDTH - 1), Sq(d, i, Far(d)), v[e.row][e.col]);
    forall r, c | 0 <= r < BOARD_WIDTH && 0 <= c < BOARD_WIDTH
      ensures w[r][c] == ShiftLineView(v, d, i)[r][c]
    {
      if OnLine(d, i, r, c) {
        assert Sq(d, i, Src(d, IndexOn(d, r, c))) == From(d, r, c);
      }
    }
    SameView(w, ShiftLineView(v, d, i));
  }

  // ---------------------------------------------------------------- keeping the occupants seated

  /** The piece a layout shows on square `s`, or null. */
  function ManAt(l: Seats, s: Pos): Piece?
    requires Shaped(l) && InBounds(s.row, s.col)
  {
    if l[s.row][s.col].Sitting? then l[s.row][s.col].man else null
  }

  /**
   * The pieces waiting in entries [lo, hi) of the temporary array `t`, and the lifted
   * piece `last`, stand on no square of `l` and are distinct pieces.
   */
  predicate Apart(l: Seats, t: seq<Piece?>, last: Piece?, lo: int, hi: int)
    requires Shaped(l) && |t| == BOARD_WIDTH && 0 <= lo && hi <= BOARD_WIDTH
  {
    Absent(l, last) &&
    (forall k | lo <= k < hi :: Absent(l, t[k]) && (t[k] == null || t[k] != last)) &&
    (forall j, k | lo <= j < k < hi :: t[j] == null || t[j] != t[k])
  }

  /** The board is seated, and the waiting entries [lo, hi) of `temp` and `last` stand apart on it. */
  ghost predicate Waiting(g: array2<Square>, temp: array<Piece?>, last: Piece?, lo: int, hi: int)
    requires Dims(g)
    reads g, Cells(g)`occupying, Occupants(g)`oldRow, Occupants(g)`oldCol, temp
  {
    temp.Length == BOARD_WIDTH && 0 <= lo && hi <= BOARD_WIDTH && Seated(g) && Apart(Lay(g), temp[..], last, lo, hi)
  }

  /** The entries the first `t` passes of the store loop have written are [StoreLo(t), StoreHi(t)). */
  function StoreLo(d: Direction, t: int): int {
    if Back(d) then BOARD_WIDTH - t else 0
  }

  function StoreHi(d: Direction, t: int): int {
    if Back(d) then BOARD_WIDTH else t
  }

  /** The entries the shiftMid loop has still to read at its `t`-th pass are [MidLo(t), MidHi(t)). */
  function MidLo(d: Direction, t: int): int {
    if Back(d) then 1 else t
  }

  function MidHi(d: Direction, t: int): int {
    if Back(d) then BOARD_WIDTH - t else BOARD_WIDTH - 1
  }

  /** Emptying a square of a seated layout keeps it seated, and its occupant is then off the board. */
  lemma VacateSeated(l: Seats, s: Pos)
    requires Shaped(l) && InBounds(s.row, s.col) && SeatedOn(l) && Consistent(l)
    ensures SeatedOn(PutSeat(l, s, Vacant)) && Absent(PutSeat(l, s, Vacant), ManAt(l, s))
  {
    var m: Seats := PutSeat(l, s, Vacant);
    if ManAt(l, s) != null {
      forall r, c | 0 <= r < BOARD_WIDTH && 0 <= c < BOARD_WIDTH
        ensures m[r][c].Vacant? || m[r][c].man != ManAt(l, s)
      {
        if (r != s.row || c != s.col) && l[r][c].Sitting? {
          // the two record different squares, so they are different pieces
          assert l[r][c].row != l[s.row][s.col].row || l[r][c].col != l[s.row][s.col].col;
        }
      }
    }
  }

  /** A pass of the store loop: the occupant of square `s` joins the waiting pieces as entry `k`. */
  lemma StoreApart(l: Seats, t: seq<Piece?>, last: Piece?, lo: int, hi: int, k: Coord, s: Pos)
    requires Shaped(l) && |t| == BOARD_WIDTH && InBounds(s.row, s.col) && SeatedOn(l) && Consistent(l)
    requires 0 <= lo <= hi <= BOARD_WIDTH && (k == lo - 1 || k == hi) && Apart(l, t, last, lo, hi)
    ensures var m := PutSeat(l, s, Vacant);
      SeatedOn(m) && Apart(m, t[k := ManAt(l, s)], last, if k == hi then lo else k, if k == hi then k + 1 else hi)
  {
    VacateSeated(l, s);
  }

  /**
   * A pass of the shiftMid loop: entry `k`, the first or the last still waiting, is set
   * onto square `s`, or `s` is emptied when the entry is null.
   */
  lemma MidApart(l: Seats, t: seq<Piece?>, last: Piece?, lo: int, hi: int, k: Coord, s: Pos)
    requires Shaped(l) && |t| == BOARD_WIDTH && InBounds(s.row, s.col) && SeatedOn(l)
    requires 0 <= lo <= k < hi <= BOARD_WIDTH && (k == lo || k == hi - 1) && Apart(l, t, last, lo, hi)
    ensures var m := PutSeat(l, s, if t[k] == null then Vacant else Sitting(t[k], s.row, s.col));
      SeatedOn(m) && Apart(m, t, last, if k == lo then lo + 1 else lo, if k == lo then hi else hi - 1)
  {
  }

  /** Fewer waiting entries are still apart. */
  lemma ApartWithin(l: Seats, t: seq<Piece?>, last: Piece?, lo: int, hi: int, lo': int, hi': int)
    requires Shaped(l) && |t| == BOARD_WIDTH && 0 <= lo <= lo' && hi' <= hi <= BOARD_WIDTH && Apart(l, t, last, lo, hi)
    ensures Apart(l, t, last, lo', hi')
  {
  }

  // ---------------------------------------------------------------- the heap

  /**
   * The entries of the temporary array the first `t` passes of the store loop have
   * written: the lifted edge leaves null, every other entry holds the occupant the
   * square had, one of `pool`, the board `v` showing it there.
   */
  ghost predicate Holding(temp: array<Piece?>, v: View, d: Direction, i: Coord, t: int, pool: set<Piece>)
    requires WellFormed(v)
    reads temp, pool`isWhite, pool`isFirstMove
  {
    temp.Length == BOARD_WIDTH &&
    forall k | 0 <= k < BOARD_WIDTH && Visited(d, k, t) ::
      if k == Edge(d) then temp[k] == null
      else if temp[k] == null then v[Sq(d, i, k).row][Sq(d, i, k).col] == Empty
      else temp[k] in pool && Holds(ManOf(temp[k])) == v[Sq(d, i, k).row][Sq(d, i, k).col]
  }

  /**
   * storeWrappedCol / storeWrappedRow (Game.java:640-661): the occupant of square k of
   * the line, or null, goes into the temporary array, and the square is emptied.
   */
  method StoreWrapped(g: array2<Square>, temp: array<Piece?>, d: Direction, i: Coord, k: Coord,
                      ghost cur: View, ghost pool: set<Piece>, ghost l0: Seats)
    requires GridOk(g) && cur == ViewOf(g) && Within(g, pool) && temp.Length == BOARD_WIDTH && l0 == Lay(g)
    modifies temp, g[Sq(d, i, k).row, Sq(d, i, k).col]`isOccupied, g[Sq(d, i, k).row, Sq(d, i, k).col]`occupying
    ensures GridOk(g) && ViewOf(g) == Put(cur, Sq(d, i, k), Empty) && Within(g, pool)
    ensures forall j | 0 <= j < BOARD_WIDTH && j != k :: temp[j] == old(temp[j])
    ensures temp[k] == null <==> cur[Sq(d, i, k).row][Sq(d, i, k).col] == Empty
    ensures temp[k] != null ==> temp[k] in pool && Holds(ManOf(temp[k])) == cur[Sq(d, i, k).row][Sq(d, i, k).col]
    ensures temp[k] == ManAt(l0, Sq(d, i, k)) && Lay(g) == PutSeat(l0, Sq(d, i, k), Vacant)
  {
    LayAt(g);
    var s := Sq(d, i, k);
    if g[s.row, s.col].GetIsOccupied() {
      temp[k] := g[s.row, s.col].GetOccupying();
      Vacate(g, cur, s.row, s.col);
    } else {
      temp[k] := null;
      PutSame(cur, s);
    }
    assert forall r, c | 0 <= r < BOARD_WIDTH && 0 <= c < BOARD_WIDTH && g[r, c].occupying != null :: g[r, c] != g[s.row, s.col];
    LayAt(g);
    Relaid(g, s, l0);
  }

  /** The layout of a board on which only square `s` has changed since layout `l0`. */
  lemma Relaid(g: array2<Square>, s: Pos, l0: Seats)
    requires Dims(g) && InBounds(s.row, s.col) && Shaped(l0)
    requires forall r, c | 0 <= r < BOARD_WIDTH && 0 <= c < BOARD_WIDTH && (r != s.row || c != s.col) :: Lay(g)[r][c] == l0[r][c]
    ensures Lay(g) == PutSeat(l0, s, SeatOf(g[s.row, s.col]))
  {
    LayAt(g);
    SameLay(Lay(g), PutSeat(l0, s, SeatOf(g[s.row, s.col])));
  }

  /**
   * The writes shiftMid and the lifted piece's stanza make on a square (Game.java:624-632,
   * 486-494): the square shows `p`, which stands on it; when `p` stood on no square
   * before, the layout changes on that square only.
   */
  method SetOnto(g: array2<Square>, ghost cur: View, s: Pos, p: Piece, ghost pool: set<Piece>, ghost l0: Seats)
    requires GridOk(g) && cur == ViewOf(g) && InBounds(s.row, s.col) && Within(g, pool) && p in pool && l0 == Lay(g)
    modifies g[s.row, s.col]`isOccupied, g[s.row, s.col]`occupying, p`oldRow, p`oldCol
    ensures GridOk(g) && ViewOf(g) == Put(cur, s, Holds(ManOf(p))) && Within(g, pool)
    ensures p.oldRow == s.row && p.oldCol == s.col
    ensures Absent(l0, p) ==> Lay(g) == PutSeat(l0, s, Sitting(p, s.row, s.col))
  {
    LayAt(g);
    Overwrite(g, cur, s, p, pool);
    LayAt(g);
    if Absent(l0, p) {
      assert forall r, c | 0 <= r < BOARD_WIDTH && 0 <= c < BOARD_WIDTH && (r != s.row || c != s.col) ::
        l0[r][c].Vacant? || l0[r][c].man != p;
      Relaid(g, s, l0);
    }
  }

  /** removeOccupying, setOccupying, setIsOccupied and movePiece on square `s`. */
  method Overwrite(g: array2<Square>, ghost cur: View, s: Pos, p: Piece, ghost pool: set<Piece>)
    requires GridOk(g) && cur == ViewOf(g) && InBounds(s.row, s.col) && Within(g, pool) && p in pool
    modifies g[s.row, s.col]`isOccupied, g[s.row, s.col]`occupying, p`oldRow, p`oldCol
    ensures GridOk(g) && ViewOf(g) == Put(cur, s, Holds(ManOf(p))) && Within(g, pool)
    ensures p.oldRow == s.row && p.oldCol == s.col && g[s.row, s.col].occupying == p
    ensures forall r, c | 0 <= r < BOARD_WIDTH && 0 <= c < BOARD_WIDTH && (r != s.row || c != s.col) ::
      g[r, c].occupying == old(g[r, c].occupying)
  {
    Vacate(g, cur, s.row, s.col);
    assert forall r, c | 0 <= r < BOARD_WIDTH && 0 <= c < BOARD_WIDTH && (r != s.row || c != s.col) ::
      g[r, c] != g[s.row, s.col];
    ReseatWithin(g, s, pool);
    PutPut(cur, s, Empty, Holds(ManOf(p)));
    Reseat(g, ViewOf(g), s, p, pool);
  }

  /** setOccupying, setIsOccupied and movePiece on an emptied square: it shows `p`, which stands on it. */
  method Reseat(g: array2<Square>, ghost w: View, s: Pos, p: Piece, ghost pool: set<Piece>)
    requires GridOk(g) && w == ViewOf(g) && InBounds(s.row, s.col) && Within(g, pool) && p in pool
    modifies g[s.row, s.col]`isOccupied, g[s.row, s.col]`occupying, p`oldRow, p`oldCol
    ensures GridOk(g) && ViewOf(g) == Put(w, s, Holds(ManOf(p))) && Within(g, pool)
    ensures p.oldRow == s.row && p.oldCol == s.col && g[s.row, s.col].occupying == p
  {
    Occupy(g, w, s.row, s.col, p);
    assert forall r, c | 0 <= r < BOARD_WIDTH && 0 <= c < BOARD_WIDTH && (r != s.row || c != s.col) ::
      g[r, c] != g[s.row, s.col];
    ReseatWithin(g, s, pool);
    Reflag(g, Put(w, s, Holds(ManOf(p))), s.row, s.col);
    Stand(g, Put(w, s, Holds(ManOf(p))), s, p, pool);
  }

  /** movePiece onto the square `p` already occupies: nothing the view shows changes. */
  method Stand(g: array2<Square>, ghost w: View, s: Pos, p: Piece, ghost pool: set<Piece>)
    requires GridOk(g) && w == ViewOf(g) && InBounds(s.row, s.col) && Within(g, pool)
    modifies p`oldRow, p`oldCol
    ensures GridOk(g) && ViewOf(g) == w && Within(g, pool) && p.oldRow == s.row && p.oldCol == s.col
  {
    p.MovePiece(g[s.row, s.col]);
    SameView(ViewOf(g), w);
  }

  /** What the store loop left in entry `k` of the temporary array. */
  lemma HoldingAt(temp: array<Piece?>, v: View, d: Direction, i: Coord, pool: set<Piece>, k: Coord)
    requires WellFormed(v) && Holding(temp, v, d, i, BOARD_WIDTH, pool) && k != Edge(d)
    ensures temp[k] == null <==> v[Sq(d, i, k).row][Sq(d, i, k).col] == Empty
    ensures temp[k] != null ==> temp[k] in pool && Holds(ManOf(temp[k])) == v[Sq(d, i, k).row][Sq(d, i, k).col]
  {
    assert Visited(d, k, BOARD_WIDTH);
  }

  /**
   * shiftMid (Game.java:616-633), the `t`-th pass of the loop: the piece stored from index
   * Visit(t) is set onto index Target(t); a null entry empties that square instead.
   */
  method ShiftMid(g: array2<Square>, temp: array<Piece?>, d: Direction, i: Coord, t: Coord,
                  ghost v0: View, ghost pool: set<Piece>, ghost last: Piece?, ghost seat: bool)
    requires t < BOARD_WIDTH - 1 && GridOk(g) && WellFormed(v0) && ViewOf(g) == Moved(v0, d, i, t)
    requires Within(g, pool) && Holding(temp, v0, d, i, BOARD_WIDTH, pool)
    requires seat ==> Waiting(g, temp, last, MidLo(d, t), MidHi(d, t))
    modifies Cells(g)`isOccupied, Cells(g)`occupying, pool`oldRow, pool`oldCol
    ensures GridOk(g) && ViewOf(g) == Moved(v0, d, i, t + 1) && Within(g, pool)
    ensures seat ==> Waiting(g, temp, last, MidLo(d, t + 1), MidHi(d, t + 1))
  {
    ghost var cur, l0 := ViewOf(g), Lay(g);
    var s := Sq(d, i, Target(d, t));
    var current := temp[Visit(d, t)];
    HoldingAt(temp, v0, d, i, pool, Visit(d, t));
    MovedNext(v0, d, i, t);
    if current != null {
      SetOnto(g, cur, s, current, pool, l0);
    } else {
      Blank(g, cur, s, pool, l0);
    }
    if seat {
      MidApart(l0, temp[..], last, MidLo(d, t), MidHi(d, t), Visit(d, t), s);
    }
  }

  /** setEmpty on the square a null entry is shifted onto (Game.java:630-631). */
  method Blank(g: array2<Square>, ghost cur: View, s: Pos, ghost pool: set<Piece>, ghost l0: Seats)
    requires GridOk(g) && cur == ViewOf(g) && InBounds(s.row, s.col) && Within(g, pool) && l0 == Lay(g)
    modifies g[s.row, s.col]`isOccupied, g[s.row, s.col]`occupying
    ensures GridOk(g) && ViewOf(g) == Put(cur, s, Empty) && Within(g, pool)
    ensures Lay(g) == PutSeat(l0, s, Vacant)
  {
    LayAt(g);
    Clear(g, cur, s.row, s.col);
    assert forall r, c | 0 <= r < BOARD_WIDTH && 0 <= c < BOARD_WIDTH && (r != s.row || c != s.col) ::
      g[r, c] != g[s.row, s.col];
    LayAt(g);
    Relaid(g, s, l0);
  }

  /** Entry `k` of the temporary array after the store pass that read it. */
  lemma HoldingNext(temp: array<Piece?>, v: View, d: Direction, i: Coord, t: Coord, pool: set<Piece>)
    requires WellFormed(v) && temp.Length == BOARD_WIDTH
    requires forall k | 0 <= k < BOARD_WIDTH && Visited(d, k, t) ::
      if k == Edge(d) then temp[k] == null
      else if temp[k] == null then v[Sq(d, i, k).row][Sq(d, i, k).col] == Empty
      else temp[k] in pool && Holds(ManOf(temp[k])) == v[Sq(d, i, k).row][Sq(d, i, k).col]
    requires var k := Visit(d, t);
      if k == Edge(d) then temp[k] == null
      else if temp[k] == null then v[Sq(d, i, k).row][Sq(d, i, k).col] == Empty
      else temp[k] in pool && Holds(ManOf(temp[k])) == v[Sq(d, i, k).row][Sq(d, i, k).col]
    ensures Holding(temp, v, d, i, t + 1, pool)
  {
  }

  /**
   * The store loop of a shift method (Game.java:479-482 and the matching lines of the
   * other three): every square of the line, in visiting order, is moved into the
   * temporary array and emptied.
   */
  method StoreLine(g: array2<Square>, temp: array<Piece?>, d: Direction, i: Coord, ghost v0: View, ghost pool: set<Piece>,
                   ghost last: Piece?, ghost seat: bool)
    requires GridOk(g) && WellFormed(v0) && ViewOf(g) == Stored(v0, d, i, 0) && Within(g, pool) && temp.Length == BOARD_WIDTH
    requires seat ==> Seated(g) && Absent(Lay(g), last)
    modifies temp, Cells(g)`isOccupied, Cells(g)`occupying
    ensures GridOk(g) && ViewOf(g) == Stored(v0, d, i, BOARD_WIDTH) && Within(g, pool)
    ensures Holding(temp, v0, d, i, BOARD_WIDTH, pool)
    ensures seat ==> Waiting(g, temp, last, 0, BOARD_WIDTH)
  {
    for t := 0 to BOARD_WIDTH
      invariant GridOk(g) && ViewOf(g) == Stored(v0, d, i, t) && Within(g, pool)
      invariant Holding(temp, v0, d, i, t, pool)
      invariant seat ==> Waiting(g, temp, last, StoreLo(d, t), StoreHi(d, t))
    {
      StoreStep(g, temp, d, i, t, v0, pool, last, seat);
    }
  }

  /** The `t`-th pass of the store loop: the square at Visit(t) goes into the temporary array. */
  method StoreStep(g: array2<Square>, temp: array<Piece?>, d: Direction, i: Coord, t: Coord, ghost v0: View, ghost pool: set<Piece>,
                   ghost last: Piece?, ghost seat: bool)
    requires GridOk(g) && WellFormed(v0) && ViewOf(g) == Stored(v0, d, i, t) && Within(g, pool) && temp.Length == BOARD_WIDTH
    requires Holding(temp, v0, d, i, t, pool)
    requires seat ==> Waiting(g, temp, last, StoreLo(d, t), StoreHi(d, t))
    modifies temp, Cells(g)`isOccupied, Cells(g)`occupying
    ensures GridOk(g) && ViewOf(g) == Stored(v0, d, i, t + 1) && Within(g, pool)
    ensures Holding(temp, v0, d, i, t + 1, pool)
    ensures seat ==> Waiting(g, temp, last, StoreLo(d, t + 1), StoreHi(d, t + 1))
  {
    ghost var cur, l0, t0 := ViewOf(g), Lay(g), temp[..];
    LayConsistent(g);
    var k := Visit(d, t);
    StoreWrapped(g, temp, d, i, k, cur, pool, l0);
    StoredNext(v0, d, i, t);
    HoldingNext(temp, v0, d, i, t, pool);
    if seat {
      assert temp[..] == t0[k := ManAt(l0, Sq(d, i, k))];
      StoreApart(l0, t0, last, StoreLo(d, t), StoreHi(d, t), k, Sq(d, i, k));
    }
  }

  /** The shiftMid loop of a shift method (Game.java:483-485 and the matching lines of the other three). */
  method ShiftMids(g: array2<Square>, temp: array<Piece?>, d: Direction, i: Coord, ghost v0: View, ghost pool: set<Piece>,
                   ghost last: Piece?, ghost seat: bool)
    requires GridOk(g) && WellFormed(v0) && ViewOf(g) == Moved(v0, d, i, 0)
    requires Within(g, pool) && Holding(temp, v0, d, i, BOARD_WIDTH, pool)
    requires seat ==> Waiting(g, temp, last, 0, BOARD_WIDTH)
    modifies Cells(g)`isOccupied, Cells(g)`occupying, pool`oldRow, pool`oldCol
    ensures GridOk(g) && ViewOf(g) == Moved(v0, d, i, BOARD_WIDTH - 1) && Within(g, pool)
    ensures seat ==> Seated(g) && Absent(Lay(g), last)
  {
    if seat {
      ApartWithin(Lay(g), temp[..], last, 0, BOARD_WIDTH, MidLo(d, 0), MidHi(d, 0));
    }
    for t := 0 to BOARD_WIDTH - 1
      invariant GridOk(g) && ViewOf(g) == Moved(v0, d, i, t) && Within(g, pool)
      invariant Holding(temp, v0, d, i, BOARD_WIDTH, pool)
      invariant seat ==> Waiting(g, temp, last, MidLo(d, t), MidHi(d, t))
    {
      ShiftMid(g, temp, d, i, t, v0, pool, last, seat);
    }
  }

  /**
   * The last stanza of a shift method (Game.java:486-494 and the matching lines of the
   * other three): the piece lifted from the edge square, if any, is set onto the square
   * on the far edge, after removing whatever occupies it.
   */
  method PutLast(g: array2<Square>, d: Direction, i: Coord, last: Piece?, ghost v0: View, ghost pool: set<Piece>, ghost seat: bool)
    requires GridOk(g) && WellFormed(v0) && ViewOf(g) == Moved(v0, d, i, BOARD_WIDTH - 1) && Within(g, pool)
    requires seat ==> Seated(g) && Absent(Lay(g), last)
    requires last == null <==> v0[Sq(d, i, Edge(d)).row][Sq(d, i, Edge(d)).col] == Empty
    requires last != null ==> last in pool && Holds(ManOf(last)) == v0[Sq(d, i, Edge(d)).row][Sq(d, i, Edge(d)).col]
    modifies Cells(g)`isOccupied, Cells(g)`occupying, pool`oldRow, pool`oldCol
    ensures GridOk(g) && ViewOf(g) == ShiftLineView(v0, d, i) && Within(g, pool)
    ensures seat ==> Seated(g)
  {
    var f := Sq(d, i, Far(d));
    MovedLast(v0, d, i);
    if last != null {
      ghost var cur, l0 := ViewOf(g), Lay(g);
      if g[f.row, f.col].GetIsOccupied() {
        // the store loop emptied the far square and no shiftMid pass writes it
        assert false;
      }
      SetOnto(g, cur, f, last, pool, l0);
    } else {
      PutSame(Moved(v0, d, i, BOARD_WIDTH - 1), f);
    }
  }

  /**
   * The first stanza of a shift method (Game.java:474-478 and the matching lines of the
   * other three): the piece on the edge square, if any, is lifted off it.
   */
  method Lift(g: array2<Square>, d: Direction, i: Coord, ghost v0: View, ghost pool: set<Piece>, ghost l0: Seats) returns (last: Piece?)
    requires GridOk(g) && v0 == ViewOf(g) && Within(g, pool) && l0 == Lay(g)
    modifies g[Sq(d, i, Edge(d)).row, Sq(d, i, Edge(d)).col]`isOccupied, g[Sq(d, i, Edge(d)).row, Sq(d, i, Edge(d)).col]`occupying
    ensures GridOk(g) && ViewOf(g) == Stored(v0, d, i, 0) && Within(g, pool)
    ensures last == null <==> v0[Sq(d, i, Edge(d)).row][Sq(d, i, Edge(d)).col] == Empty
    ensures last != null ==> last in pool && Holds(ManOf(last)) == v0[Sq(d, i, Edge(d)).row][Sq(d, i, Edge(d)).col]
    ensures last == ManAt(l0, Sq(d, i, Edge(d))) && Lay(g) == PutSeat(l0, Sq(d, i, Edge(d)), Vacant)
  {
    LayAt(g);
    var e := Sq(d, i, Edge(d));
    last := null;
    if g[e.row, e.col].GetIsOccupied() {
      last := g[e.row, e.col].GetOccupying();
      Vacate(g, v0, e.row, e.col);
      LiftStored(v0, d, i);
      assert forall r, c | 0 <= r < BOARD_WIDTH && 0 <= c < BOARD_WIDTH && (r != e.row || c != e.col) ::
        g[r, c] != g[e.row, e.col];
    } else {
      EmptyEdgeStored(v0, d, i);
    }
    LayAt(g);
    Relaid(g, e, l0);
  }

  /**
   * One pass of the outer loop of a shift method: line `i` is shifted one square along
   * `d`, the piece on the edge square wrapping round to the far edge, and every other
   * line is untouched.
   */
  method ShiftLine(g: array2<Square>, d: Direction, i: Coord, ghost v0: View, ghost pool: set<Piece>)
    requires GridOk(g) && v0 == ViewOf(g) && Within(g, pool)
    modifies Cells(g)`isOccupied, Cells(g)`occupying, pool`oldRow, pool`oldCol
    ensures GridOk(g) && ViewOf(g) == ShiftLineView(v0, d, i) && Within(g, pool)
    ensures old(Seated(g)) ==> Seated(g)
  {
    ghost var l0 := Lay(g);
    ghost var seat := Seated(g);
    LayConsistent(g);
    var last := Lift(g, d, i, v0, pool, l0);
    if seat {
      VacateSeated(l0, Sq(d, i, Edge(d)));
    }
    ShiftRest(g, d, i, last, v0, pool, seat);
  }

  /** The rest of a pass of the outer loop, once the edge square's piece `last` is lifted. */
  method ShiftRest(g: array2<Square>, d: Direction, i: Coord, last: Piece?, ghost v0: View, ghost pool: set<Piece>, ghost seat: bool)
    requires GridOk(g) && WellFormed(v0) && ViewOf(g) == Stored(v0, d, i, 0) && Within(g, pool)
    requires seat ==> Seated(g) && Absent(Lay(g), last)
    requires last == null <==> v0[Sq(d, i, Edge(d)).row][Sq(d, i, Edge(d)).col] == Empty
    requires last != null ==> last in pool && Holds(ManOf(last)) == v0[Sq(d, i, Edge(d)).row][Sq(d, i, Edge(d)).col]
    modifies Cells(g)`isOccupied, Cells(g)`occupying, pool`oldRow, pool`oldCol
    ensures GridOk(g) && ViewOf(g) == ShiftLineView(v0, d, i) && Within(g, pool)
    ensures seat ==> Seated(g)
  {
    ghost var stored := ViewOf(g);
    var temp := new Piece?[BOARD_WIDTH](_ => null);
    SameView(ViewOf(g), stored);
    StoreLine(g, temp, d, i, v0, pool, last, seat);
    StoredMoved(v0, d, i);
    ShiftMids(g, temp, d, i, v0, pool, last, seat);
    PutLast(g, d, i, last, v0, pool, seat);
  }

  /**
   * The outer loop of shiftUp, shiftDown, shiftLeft and shiftRight (Game.java:473, 510,
   * 547, 585): the eight lines are shifted one after the other, which shifts the whole
   * board one square along `d`, every line wrapping round.
   */
  method ShiftAll(g: array2<Square>, d: Direction, ghost v0: View, ghost pool: set<Piece>)
    requires GridOk(g) && v0 == ViewOf(g) && Within(g, pool)
    modifies Cells(g)`isOccupied, Cells(g)`occupying, pool`oldRow, pool`oldCol
    ensures GridOk(g) && ViewOf(g) == Shifted(v0, d) && Within(g, pool)
    ensures old(Seated(g)) ==> Seated(g)
  {
    for i := 0 to BOARD_WIDTH
      invariant GridOk(g) && ViewOf(g) == ShiftLines(v0, d, i) && Within(g, pool)
      invariant old(Seated(g)) ==> Seated(g)
    {
      ShiftLine(g, d, i, ViewOf(g), pool);
    }
    ShiftLinesWhole(v0, d);
  }
}
