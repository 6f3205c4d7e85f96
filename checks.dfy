/**
 * The check analyses of Board (isInCheck, isCheckmate and its helpers) and the two
 * king-safety gates of Game (kingMoveValid, notMovingAProtector), and whenInCheck of
 * Piece, as functions of the board view and the pieces' snapshots.  Several of them
 * vacate and restore squares while they scan, so each returns the view it leaves
 * behind together with its answer.
 */
module Checks {
  import opened Core
  import opened Moves
  import KingRules

  /** Every piece of the list has on-board coordinates. */
  predicate Placed(ps: seq<PieceInfo>) {
    forall k | 0 <= k < |ps| :: InBounds(ps[k].row, ps[k].col)
  }

  function PosOf(p: PieceInfo): Pos {
    Pos(p.row, p.col)
  }

  /** What the board shows on the square a piece stands on. */
  function CellOfInfo(p: PieceInfo): Cell {
    Holds(Man(p.white, p.kind, p.firstMove))
  }

  /** How often `q` occurs in `qs`. */
  function Count(qs: seq<Pos>, q: Pos): nat {
    if |qs| == 0 then 0 else Count(qs[..|qs| - 1], q) + (if qs[|qs| - 1] == q then 1 else 0)
  }

  /** A square is counted at least once exactly when it occurs in the list. */
  lemma {:induction false} CountPositive(qs: seq<Pos>, q: Pos)
    ensures Count(qs, q) > 0 <==> q in qs
  {
    if |qs| > 0 {
      CountPositive(qs[..|qs| - 1], q);
      assert qs == qs[..|qs| - 1] + [qs[|qs| - 1]];
    }
  }

  /** In a list that visits squares in strictly increasing row-major order, a square occurs at most once. */
  lemma {:induction false} CountOrdered(qs: seq<Pos>, q: Pos)
    requires forall i, j | 0 <= i < j < |qs| :: Index(qs[i]) < Index(qs[j])
    ensures Count(qs, q) == if q in qs then 1 else 0
  {
    if |qs| > 0 {
      var init := qs[..|qs| - 1];
      assert qs == init + [qs[|qs| - 1]];
      assert forall i, j | 0 <= i < j < |init| :: Index(init[i]) < Index(init[j]) by {
        forall i, j | 0 <= i < j < |init|
          ensures Index(init[i]) < Index(init[j])
        {
          assert init[i] == qs[i] && init[j] == qs[j];
        }
      }
      CountOrdered(init, q);
      if qs[|qs| - 1] == q {
        forall i | 0 <= i < |init|
          ensures init[i] != q
        {
          assert init[i] == qs[i];
        }
      }
    }
  }

  /**
   * How many of a piece's computed squares are the king's square (the inner loop of
   * isInCheck, Board.java:112-125).  A missing king matches no square.
   */
  function Hits(v: View, p: PieceInfo, ctx: Ctx, king: Option<Pos>): nat
    requires WellFormed(v) && InBounds(p.row, p.col)
  {
    if king.None? then 0 else Count(ValidList(v, p, ctx), king.value)
  }

  /** A piece hits the king once exactly when its move rule reaches the king's square. */
  lemma HitsIff(v: View, p: PieceInfo, ctx: Ctx, king: Option<Pos>)
    requires WellFormed(v) && InBounds(p.row, p.col)
    ensures Hits(v, p, ctx, king) == if Reaches(v, p, ctx, king) then 1 else 0
  {
    if king.Some? {
      ValidListSpec(v, p, ctx);
      CountOrdered(ValidList(v, p, ctx), king.value);
    }
  }

  /** The piece's move rule accepts the king's on-board square. */
  predicate Reaches(v: View, p: PieceInfo, ctx: Ctx, king: Option<Pos>)
    requires WellFormed(v) && InBounds(p.row, p.col)
  {
    king.Some? && InBounds(king.value.row, king.value.col) &&
    MoveRule(v, p, ctx, p.row, p.col, king.value.row, king.value.col)
  }

  // ---------------------------------------------------------------- isInCheck

  /** The four fields isInCheck recomputes: both check flags, numCheck, and the index of `checking`. */
  datatype Check = Check(wIn: bool, bIn: bool, num: nat, checking: Option<nat>)

  /**
   * The loop of isInCheck (Board.java:108-126) over the first `n` pieces of `player`'s
   * list, starting from cleared fields.  Each piece is scanned with the flags as the
   * loop has set them so far.
   */
  function CheckScan(v: View, ps: seq<PieceInfo>, ep: Option<Pos>, white: bool, king: Option<Pos>, n: nat): Check
    requires WellFormed(v) && Placed(ps) && n <= |ps|
  {
    if n == 0 then Check(false, false, 0, None)
    else
      var s := CheckScan(v, ps, ep, white, king, n - 1);
      var h := Hits(v, ps[n - 1], Ctx(s.wIn, s.bIn, ep), king);
      if h == 0 then s
      else Check(s.wIn || !white, s.bIn || white, s.num + h, Some(n - 1))
  }

  /** The number of the first `n` pieces whose moves reach the king with both flags clear. */
  function Attackers(v: View, ps: seq<PieceInfo>, ep: Option<Pos>, king: Option<Pos>, n: nat): nat
    requires WellFormed(v) && Placed(ps) && n <= |ps|
  {
    if n == 0 then 0
    else Attackers(v, ps, ep, king, n - 1) + (if Reaches(v, ps[n - 1], Ctx(false, false, ep), king) then 1 else 0)
  }

  /** The last of the first `n` pieces whose moves reach the king with both flags clear. */
  function LastAttacker(v: View, ps: seq<PieceInfo>, ep: Option<Pos>, king: Option<Pos>, n: nat): (r: Option<nat>)
    requires WellFormed(v) && Placed(ps) && n <= |ps|
    ensures r.Some? ==> r.value < n && Reaches(v, ps[r.value], Ctx(false, false, ep), king)
  {
    if n == 0 then None
    else if Reaches(v, ps[n - 1], Ctx(false, false, ep), king) then Some(n - 1)
    else LastAttacker(v, ps, ep, king, n - 1)
  }

  /**
   * isInCheck(player) never raises the player's own flag; it raises the other flag
   * exactly when some piece hit the king, and then names a piece that did.
   */
  lemma {:induction false} CheckScanFlags(v: View, ps: seq<PieceInfo>, ep: Option<Pos>, white: bool, king: Option<Pos>, n: nat)
    requires WellFormed(v) && Placed(ps) && n <= |ps|
    ensures var s := CheckScan(v, ps, ep, white, king, n);
      (if white then !s.wIn && (s.bIn <==> s.num > 0) else !s.bIn && (s.wIn <==> s.num > 0)) &&
      (s.checking.Some? <==> s.num > 0) &&
      (s.checking.Some? ==> s.checking.value < n)
  {
    if n > 0 {
      CheckScanFlags(v, ps, ep, white, king, n - 1);
    }
  }

  /**
   * When the scanned pieces are all of the player's colour, isInCheck counts the
   * attackers of the opposing king and names the last of them: a king's castling test
   * reads only its own colour's flag, which the scan never raises.
   */
  lemma {:induction false} CheckScanCounts(v: View, ps: seq<PieceInfo>, ep: Option<Pos>, white: bool, king: Option<Pos>, n: nat)
    requires WellFormed(v) && Placed(ps) && n <= |ps|
    requires forall k | 0 <= k < |ps| :: ps[k].white == white
    ensures CheckScan(v, ps, ep, white, king, n).num == Attackers(v, ps, ep, king, n)
    ensures CheckScan(v, ps, ep, white, king, n).checking == LastAttacker(v, ps, ep, king, n)
  {
    if n > 0 {
      CheckScanCounts(v, ps, ep, white, king, n - 1);
      CheckScanFlags(v, ps, ep, white, king, n - 1);
      var s := CheckScan(v, ps, ep, white, king, n - 1);
      var p := ps[n - 1];
      HitsIff(v, p, Ctx(s.wIn, s.bIn, ep), king);
      if king.Some? && InBounds(king.value.row, king.value.col) {
        RuleIgnoresOtherFlag(v, p, Ctx(s.wIn, s.bIn, ep), Ctx(false, false, ep),
                             p.row, p.col, king.value.row, king.value.col);
      }
    }
  }

  // ---------------------------------------------------------------- kingMoveValid

  /** The board a piece's scan sees in kingMoveValid: any piece but a pawn sees the king's origin vacated. */
  function ScanView(v: View, o: Pos, p: PieceInfo): View
    requires WellFormed(v) && InBounds(o.row, o.col)
  {
    if p.kind != Pawn then Put(v, o, Empty) else v
  }

  /**
   * The loop of kingMoveValid (Game.java:368-384) over the first `n` pieces: the view
   * it leaves and the `valid` flag.  A piece whose squares include the destination
   * sets the flag to whether it stands on the destination; every piece but a pawn
   * vacates the king's origin `o` before its scan and puts the king back after it.
   */
  function KingLoop(v: View, o: Pos, kc: Cell, ps: seq<PieceInfo>, ctx: Ctx, d: Pos, n: nat): (r: (View, bool))
    requires WellFormed(v) && InBounds(o.row, o.col) && Placed(ps) && n <= |ps|
    ensures WellFormed(r.0)
  {
    if n == 0 then (v, true)
    else
      var s := KingLoop(v, o, kc, ps, ctx, d, n - 1);
      var p := ps[n - 1];
      var valid := if d in ValidList(ScanView(s.0, o, p), p, ctx) then PosOf(p) == d else s.1;
      (if p.kind != Pawn then Put(s.0, o, kc) else s.0, valid)
  }

  /** kingMoveValid(player, king, d) with `ps` the player's pieces: the view it leaves and its answer. */
  function KingMoveSpec(v: View, king: PieceInfo, ps: seq<PieceInfo>, ctx: Ctx, d: Pos): (r: (View, bool))
    requires WellFormed(v) && InBounds(king.row, king.col) && Placed(ps) && InBounds(d.row, d.col)
    ensures WellFormed(r.0)
  {
    if king.kind != King then (v, true)
    else if KingRules.CanCastle(v, king, Ctx(ctx.wInCheck, ctx.bInCheck, None), king.row, king.col, d.row, d.col) then (v, true)
    else KingLoop(v, PosOf(king), CellOfInfo(king), ps, ctx, d, |ps|)
  }

  /** A piece of `ps` lists the destination when scanned on the view kingMoveValid shows it. */
  predicate Lists(v: View, o: Pos, p: PieceInfo, ctx: Ctx, d: Pos)
    requires WellFormed(v) && InBounds(o.row, o.col) && InBounds(p.row, p.col)
  {
    d in ValidList(ScanView(v, o, p), p, ctx)
  }

  /** One more pass of the loop of kingMoveValid. */
  lemma KingLoopNext(v: View, o: Pos, kc: Cell, ps: seq<PieceInfo>, ctx: Ctx, d: Pos, n: nat)
    requires WellFormed(v) && InBounds(o.row, o.col) && Placed(ps) && n < |ps|
    ensures var s := KingLoop(v, o, kc, ps, ctx, d, n);
      KingLoop(v, o, kc, ps, ctx, d, n + 1) ==
        (if ps[n].kind != Pawn then Put(s.0, o, kc) else s.0,
         if Lists(s.0, o, ps[n], ctx, d) then PosOf(ps[n]) == d else s.1)
  {
  }

  /** With the king standing on its origin, the loop puts back exactly what it removed. */
  lemma {:induction false} KingLoopRestores(v: View, o: Pos, kc: Cell, ps: seq<PieceInfo>, ctx: Ctx, d: Pos, n: nat)
    requires WellFormed(v) && InBounds(o.row, o.col) && Placed(ps) && n <= |ps|
    requires v[o.row][o.col] == kc
    ensures KingLoop(v, o, kc, ps, ctx, d, n).0 == v
  {
    if n > 0 {
      KingLoopRestores(v, o, kc, ps, ctx, d, n - 1);
      PutSame(v, o);
    }
  }

  /** If no scanned piece lists the destination, the king may go there. */
  lemma {:induction false} KingLoopUnattacked(v: View, o: Pos, kc: Cell, ps: seq<PieceInfo>, ctx: Ctx, d: Pos, n: nat)
    requires WellFormed(v) && InBounds(o.row, o.col) && Placed(ps) && n <= |ps|
    requires v[o.row][o.col] == kc
    requires forall k | 0 <= k < n :: !Lists(v, o, ps[k], ctx, d)
    ensures KingLoop(v, o, kc, ps, ctx, d, n).1
  {
    if n > 0 {
      KingLoopUnattacked(v, o, kc, ps, ctx, d, n - 1);
      KingLoopRestores(v, o, kc, ps, ctx, d, n - 1);
      assert !Lists(v, o, ps[n - 1], ctx, d);
    }
  }

  /**
   * The last scanned piece that lists the destination decides: the move is allowed
   * exactly when that piece stands on the destination (it would be captured).
   */
  lemma {:induction false} KingLoopLastLister(v: View, o: Pos, kc: Cell, ps: seq<PieceInfo>, ctx: Ctx, d: Pos, n: nat, k: nat)
    requires WellFormed(v) && InBounds(o.row, o.col) && Placed(ps) && k < n <= |ps|
    requires v[o.row][o.col] == kc
    requires Lists(v, o, ps[k], ctx, d)
    requires forall j | k < j < n :: !Lists(v, o, ps[j], ctx, d)
    ensures KingLoop(v, o, kc, ps, ctx, d, n).1 == (PosOf(ps[k]) == d)
  {
    KingLoopRestores(v, o, kc, ps, ctx, d, n - 1);
    if k < n - 1 {
      KingLoopLastLister(v, o, kc, ps, ctx, d, n - 1, k);
      assert !Lists(v, o, ps[n - 1], ctx, d);
    }
  }

  // ---------------------------------------------------------------- kingCanEscape

  /** The loop of kingCanEscape over the king's squares `qs` (Board.java:193-197), threading the view. */
  function EscapeFrom(v: View, king: PieceInfo, ps: seq<PieceInfo>, ctx: Ctx, qs: seq<Pos>): (r: (View, bool))
    requires WellFormed(v) && InBounds(king.row, king.col) && Placed(ps)
    requires forall k | 0 <= k < |qs| :: InBounds(qs[k].row, qs[k].col)
    ensures WellFormed(r.0)
    decreases |qs|
  {
    if |qs| == 0 then (v, false)
    else
      var s := KingMoveSpec(v, king, ps, ctx, qs[0]);
      if s.1 then (s.0, true) else EscapeFrom(s.0, king, ps, ctx, qs[1..])
  }

  /**
   * kingCanEscape(player) with `king` the king opposite `player` and `ps` the player's
   * pieces: some square the king may move to passes kingMoveValid.  A missing king
   * cannot escape.
   */
  function Escape(v: View, king: Option<PieceInfo>, ps: seq<PieceInfo>, ctx: Ctx): (r: (View, bool))
    requires WellFormed(v) && Placed(ps) && (king.Some? ==> InBounds(king.value.row, king.value.col))
    ensures WellFormed(r.0)
  {
    if king.None? then (v, false)
    else
      ValidListSpec(v, king.value, ctx);
      EscapeFrom(v, king.value, ps, ctx, ValidList(v, king.value, ctx))
  }

  /** With the king standing on its square, kingMoveValid leaves the board as it found it. */
  lemma KingMoveRestores(v: View, king: PieceInfo, ps: seq<PieceInfo>, ctx: Ctx, d: Pos)
    requires WellFormed(v) && InBounds(king.row, king.col) && Placed(ps) && InBounds(d.row, d.col)
    requires v[king.row][king.col] == CellOfInfo(king)
    ensures KingMoveSpec(v, king, ps, ctx, d).0 == v
  {
    KingLoopRestores(v, PosOf(king), CellOfInfo(king), ps, ctx, d, |ps|);
  }

  /** One of the squares `qs` passes kingMoveValid. */
  predicate SomeEscape(v: View, king: PieceInfo, ps: seq<PieceInfo>, ctx: Ctx, qs: seq<Pos>)
    requires WellFormed(v) && InBounds(king.row, king.col) && Placed(ps)
  {
    exists q | q in qs :: InBounds(q.row, q.col) && KingMoveSpec(v, king, ps, ctx, q).1
  }

  /** With the king standing on its square, the escape loop succeeds iff one of the squares passes kingMoveValid. */
  lemma {:induction false} EscapeFromStanding(v: View, king: PieceInfo, ps: seq<PieceInfo>, ctx: Ctx, qs: seq<Pos>)
    requires WellFormed(v) && InBounds(king.row, king.col) && Placed(ps)
    requires forall k | 0 <= k < |qs| :: InBounds(qs[k].row, qs[k].col)
    requires v[king.row][king.col] == CellOfInfo(king)
    ensures EscapeFrom(v, king, ps, ctx, qs).0 == v
    ensures EscapeFrom(v, king, ps, ctx, qs).1 <==> SomeEscape(v, king, ps, ctx, qs)
    decreases |qs|
  {
    if |qs| > 0 {
      KingMoveRestores(v, king, ps, ctx, qs[0]);
      EscapeFromStanding(v, king, ps, ctx, qs[1..]);
      assert forall q :: q in qs <==> q == qs[0] || q in qs[1..] by {
        assert qs == [qs[0]] + qs[1..];
      }
    }
  }

  /**
   * kingCanEscape with the king on its square: true exactly when some square the king
   * may move to passes kingMoveValid, and the board is unchanged.
   */
  lemma EscapeStanding(v: View, king: PieceInfo, ps: seq<PieceInfo>, ctx: Ctx)
    requires WellFormed(v) && InBounds(king.row, king.col) && Placed(ps)
    requires v[king.row][king.col] == CellOfInfo(king)
    ensures Escape(v, Some(king), ps, ctx).0 == v
    ensures Escape(v, Some(king), ps, ctx).1 <==> SomeEscape(v, king, ps, ctx, ValidList(v, king, ctx))
  {
    ValidListSpec(v, king, ctx);
    EscapeFromStanding(v, king, ps, ctx, ValidList(v, king, ctx));
  }

  // ---------------------------------------------------------------- canCaptureAttacker

  /** canCaptureAttacker: one of the pieces lists the attacker's square (Board.java:207-228). */
  predicate CanCapture(v: View, ps: seq<PieceInfo>, ctx: Ctx, a: Pos)
    requires WellFormed(v) && Placed(ps)
  {
    exists k | 0 <= k < |ps| :: a in ValidList(v, ps[k], ctx)
  }

  /** canCaptureAttacker holds exactly when some piece's move rule reaches the attacker's on-board square. */
  lemma CanCaptureIff(v: View, ps: seq<PieceInfo>, ctx: Ctx, a: Pos)
    requires WellFormed(v) && Placed(ps)
    ensures CanCapture(v, ps, ctx, a) <==>
      InBounds(a.row, a.col) && exists k | 0 <= k < |ps| :: MoveRule(v, ps[k], ctx, ps[k].row, ps[k].col, a.row, a.col)
  {
    forall k | 0 <= k < |ps|
      ensures a in ValidList(v, ps[k], ctx) <==>
        InBounds(a.row, a.col) && MoveRule(v, ps[k], ctx, ps[k].row, ps[k].col, a.row, a.col)
    {
      ValidListSpec(v, ps[k], ctx);
    }
  }

  // ---------------------------------------------------------------- canBlockAttacker

  /** A square on the row of both attacker and king, or on the column of both (Board.java:266-267). */
  predicate Lined(q: Pos, a: Pos, k: Pos) {
    (q.row == a.row && q.row == k.row) || (q.col == a.col && q.col == k.col)
  }

  /** canIntersectPath on computed squares: one of them lies strictly between attacker and king. */
  predicate Intersects(qs: seq<Pos>, a: Pos, k: Pos) {
    exists q | q in qs :: OnPath(a.row, a.col, k.row, k.col, q.row, q.col)
  }

  /**
   * The loop of canBlockAttacker from piece `i` on (Board.java:258-271): the first piece
   * with a square in line with both attacker and king decides, by canIntersectPath.
   */
  function BlockFrom(v: View, ps: seq<PieceInfo>, ctx: Ctx, a: Pos, k: Pos, i: nat): bool
    requires WellFormed(v) && Placed(ps) && i <= |ps|
    decreases |ps| - i
  {
    if i == |ps| then false
    else
      var qs := ValidList(v, ps[i], ctx);
      if exists q | q in qs :: Lined(q, a, k) then Intersects(qs, a, k)
      else BlockFrom(v, ps, ctx, a, k, i + 1)
  }

  /** canBlockAttacker with the player's own king; a missing king cannot be shielded. */
  predicate CanBlock(v: View, ps: seq<PieceInfo>, ctx: Ctx, a: Pos, king: Option<Pos>)
    requires WellFormed(v) && Placed(ps)
  {
    king.Some? && BlockFrom(v, ps, ctx, a, king.value, 0)
  }

  /**
   * A block is only ever found against an attacker on the king's row or column, and
   * only when some piece has a square strictly between the two.
   */
  lemma {:induction false} BlockFromSound(v: View, ps: seq<PieceInfo>, ctx: Ctx, a: Pos, k: Pos, i: nat)
    requires WellFormed(v) && Placed(ps) && i <= |ps|
    requires BlockFrom(v, ps, ctx, a, k, i)
    ensures a.row == k.row || a.col == k.col
    ensures exists j | i <= j < |ps| :: Intersects(ValidList(v, ps[j], ctx), a, k)
    decreases |ps| - i
  {
    var qs := ValidList(v, ps[i], ctx);
    if exists q | q in qs :: Lined(q, a, k) {
      var q :| q in qs && Lined(q, a, k);
      assert Intersects(qs, a, k);
    } else {
      BlockFromSound(v, ps, ctx, a, k, i + 1);
    }
  }

  /** canBlockAttacker against a diagonal check always fails. */
  lemma NoDiagonalBlock(v: View, ps: seq<PieceInfo>, ctx: Ctx, a: Pos, king: Option<Pos>)
    requires WellFormed(v) && Placed(ps)
    requires king.Some? && a.row != king.value.row && a.col != king.value.col
    ensures !CanBlock(v, ps, ctx, a, king)
  {
    if CanBlock(v, ps, ctx, a, king) {
      BlockFromSound(v, ps, ctx, a, king.value, 0);
    }
  }

  // ---------------------------------------------------------------- isCheckmate

  /**
   * isCheckmate(player) (Board.java:139-162) with numCheck `num`, the checking piece,
   * `foe` the king opposite the player (the one kingCanEscape moves), `ownKing` the
   * player's own king (the one canBlockAttacker shields) and `own` the player's pieces.
   * The helpers run left to right and stop at the first that decides.
   */
  function Mate(v: View, num: nat, checking: Option<PieceInfo>, foe: Option<PieceInfo>, ownKing: Option<Pos>,
                own: seq<PieceInfo>, ctx: Ctx): (r: (View, bool))
    requires WellFormed(v) && Placed(own) && (foe.Some? ==> InBounds(foe.value.row, foe.value.col))
    requires num == 1 ==> checking.Some?
    ensures WellFormed(r.0)
    ensures r.1 ==> ctx.wInCheck || ctx.bInCheck
  {
    if !(ctx.wInCheck || ctx.bInCheck) then (v, false)
    else if num > 1 then
      var e := Escape(v, foe, own, ctx);
      (e.0, !e.1)
    else if num == 1 then
      var a := PosOf(checking.value);
      match checking.value.kind
      case King => (v, true)
      case Pawn | Knight =>
        var e := Escape(v, foe, own, ctx);
        if e.1 then (e.0, false) else (e.0, !CanCapture(e.0, own, ctx, a))
      case Rook | Bishop | Queen =>
        var e := Escape(v, foe, own, ctx);
        if e.1 || CanCapture(e.0, own, ctx, a) then (e.0, false)
        else (e.0, !CanBlock(e.0, own, ctx, a, ownKing))
    else (v, false)
  }

  /** A single check by a piece other than a king is no mate once the king can escape. */
  lemma MateSingleEscape(v: View, checking: PieceInfo, foe: Option<PieceInfo>, ownKing: Option<Pos>,
                         own: seq<PieceInfo>, ctx: Ctx)
    requires WellFormed(v) && Placed(own) && (foe.Some? ==> InBounds(foe.value.row, foe.value.col))
    requires (ctx.wInCheck || ctx.bInCheck) && checking.kind != King && Escape(v, foe, own, ctx).1
    ensures Mate(v, 1, Some(checking), foe, ownKing, own, ctx) == (Escape(v, foe, own, ctx).0, false)
  {
  }

  /** A single check by a piece other than a king that the king cannot escape, unfolded. */
  lemma MateSingleUnfold(v: View, checking: PieceInfo, foe: Option<PieceInfo>, ownKing: Option<Pos>,
                         own: seq<PieceInfo>, ctx: Ctx)
    requires WellFormed(v) && Placed(own) && (foe.Some? ==> InBounds(foe.value.row, foe.value.col))
    requires (ctx.wInCheck || ctx.bInCheck) && checking.kind != King && !Escape(v, foe, own, ctx).1
    ensures var w := Escape(v, foe, own, ctx).0;
      var capture := CanCapture(w, own, ctx, PosOf(checking));
      Mate(v, 1, Some(checking), foe, ownKing, own, ctx) ==
        (w, if checking.kind == Pawn || checking.kind == Knight || capture then !capture
            else !CanBlock(w, own, ctx, PosOf(checking), ownKing))
  {
  }

  /**
   * Against a single sliding attacker on a diagonal of the king, canBlockAttacker never
   * helps: isCheckmate reduces to no escape and no capture.
   */
  lemma MateDiagonalSlider(v: View, checking: PieceInfo, foe: Option<PieceInfo>, ownKing: Option<Pos>,
                           own: seq<PieceInfo>, ctx: Ctx)
    requires WellFormed(v) && Placed(own) && (foe.Some? ==> InBounds(foe.value.row, foe.value.col))
    requires ctx.wInCheck || ctx.bInCheck
    requires checking.kind == Bishop || checking.kind == Queen
    requires ownKing.Some? && checking.row != ownKing.value.row && checking.col != ownKing.value.col
    ensures var e := Escape(v, foe, own, ctx);
      Mate(v, 1, Some(checking), foe, ownKing, own, ctx).1 == (!e.1 && !CanCapture(e.0, own, ctx, PosOf(checking)))
  {
    var e := Escape(v, foe, own, ctx);
    NoDiagonalBlock(e.0, own, ctx, PosOf(checking), ownKing);
  }

  /**
   * gameOver's condition (Game.java:792): isCheckmate(white), and only when that finds no
   * mate, isCheckmate(black) on the board the first search leaves.  `wk` and `bk` are
   * the two kings as snapshots, `wkp` and `bkp` their squares, `ws` and `bs` the lists.
   */
  function GameOverSpec(v: View, num: nat, checking: Option<PieceInfo>, wk: Option<PieceInfo>, bk: Option<PieceInfo>,
                        wkp: Option<Pos>, bkp: Option<Pos>, ws: seq<PieceInfo>, bs: seq<PieceInfo>, ctx: Ctx)
    : (r: (View, bool))
    requires WellFormed(v) && Placed(ws) && Placed(bs) && (num == 1 ==> checking.Some?)
    requires (wk.Some? ==> InBounds(wk.value.row, wk.value.col)) && (bk.Some? ==> InBounds(bk.value.row, bk.value.col))
    ensures WellFormed(r.0)
    ensures r.1 ==> ctx.wInCheck || ctx.bInCheck
    ensures !(ctx.wInCheck || ctx.bInCheck) ==> r == (v, false)
  {
    var w := Mate(v, num, checking, bk, wkp, ws, ctx);
    if w.1 then w else Mate(w.0, num, checking, wk, bkp, bs, ctx)
  }

  // ---------------------------------------------------------------- whenInCheck

  /**
   * The `block` flag of whenInCheck (Piece.java:115, 133-145) in its documented
   * meaning: the move onto `d` blocks the check, because `d` lies strictly between the
   * attacker on `a` and the king on `k`.  An attacker next to the king, or off every
   * line through it (a knight), leaves no square to block on.
   */
  predicate Interposes(a: Pos, k: Pos, d: Pos) {
    OnPath(a.row, a.col, k.row, k.col, d.row, d.col)
  }

  /**
   * whenInCheck(or, oc, d) of `mover` (Piece.java:119-155): with `king` the current
   * player's king, the checking piece `attacker`, `foe` the mover's own king (the one
   * kingCanEscape of the mover's opponent moves) and `opp` that opponent's pieces.
   * All three tests are evaluated and any one suffices; the source runs the block walk
   * first, then capture, then escape, and the order does not change the verdict.
   */
  function WhenInCheckSpec(v: View, mover: PieceInfo, or: int, oc: int, d: Pos, king: Option<Pos>,
                           attacker: Option<PieceInfo>, foe: Option<PieceInfo>, opp: seq<PieceInfo>, ctx: Ctx)
    : (r: (View, bool))
    requires WellFormed(v) && InBounds(or, oc) && Placed(opp)
    requires attacker.Some? ==> InBounds(attacker.value.row, attacker.value.col)
    requires foe.Some? ==> InBounds(foe.value.row, foe.value.col)
    ensures WellFormed(r.0)
    ensures !(ctx.wInCheck || ctx.bInCheck) || attacker.None? ==> r == (v, true)
    ensures attacker.Some? && MoveRule(v, mover, ctx, or, oc, attacker.value.row, attacker.value.col) ==> r.1
  {
    if !(ctx.wInCheck || ctx.bInCheck) || attacker.None? then (v, true)
    else
      var a := PosOf(attacker.value);
      var block := king.Some? && Interposes(a, king.value, d);
      var capture := MoveRule(v, mover, ctx, or, oc, a.row, a.col);
      var e := Escape(v, foe, opp, ctx);
      (e.0, capture || block || e.1)
  }

  /**
   * With the current king missing there is no line to block on: under a check, a move
   * that neither captures the attacker nor comes with an escape is refused.
   */
  lemma NoKingNoBlock(v: View, mover: PieceInfo, or: int, oc: int, d: Pos, attacker: PieceInfo,
                      foe: Option<PieceInfo>, opp: seq<PieceInfo>, ctx: Ctx)
    requires WellFormed(v) && InBounds(or, oc) && Placed(opp) && InBounds(attacker.row, attacker.col)
    requires foe.Some? ==> InBounds(foe.value.row, foe.value.col)
    requires ctx.wInCheck || ctx.bInCheck
    requires !MoveRule(v, mover, ctx, or, oc, attacker.row, attacker.col) && !Escape(v, foe, opp, ctx).1
    ensures !WhenInCheckSpec(v, mover, or, oc, d, None, Some(attacker), foe, opp, ctx).1
  {
  }

  // ---------------------------------------------------------------- notMovingAProtector

  /**
   * The loop of notMovingAProtector (Game.java:404-417) over the first `n` opposing
   * pieces: the protector's origin `o` is vacated once before the loop and refilled
   * with the protector's cell `pc` after every scan, so only the first piece scans the
   * board without the protector.  Also returns the last piece that hit the king.
   */
  function ProtectorLoop(v: View, o: Pos, pc: Cell, ps: seq<PieceInfo>, ctx: Ctx, king: Option<Pos>, n: nat)
    : (r: (View, Option<nat>))
    requires WellFormed(v) && InBounds(o.row, o.col) && Placed(ps) && n <= |ps|
    ensures WellFormed(r.0)
    ensures r.1.Some? ==> r.1.value < n && king.Some?
  {
    if n == 0 then (Put(v, o, Empty), None)
    else
      var s := ProtectorLoop(v, o, pc, ps, ctx, king, n - 1);
      var att: Option<nat> := if Hits(s.0, ps[n - 1], ctx, king) > 0 then Some(n - 1) else s.1;
      (Put(s.0, o, pc), att)
  }

  /** The view the `k`-th opposing piece is scanned on in notMovingAProtector. */
  function SeenBy(v: View, o: Pos, pc: Cell, k: nat): View
    requires WellFormed(v) && InBounds(o.row, o.col)
  {
    if k == 0 then Put(v, o, Empty) else Put(v, o, pc)
  }

  /**
   * notMovingAProtector's loop: the protector is back on its origin once any piece has
   * been scanned (still missing with no opposing pieces), and the attacker found is
   * the last piece whose moves reach the king on the view it was scanned on.
   */
  lemma {:induction false} ProtectorLoopSpec(v: View, o: Pos, pc: Cell, ps: seq<PieceInfo>, ctx: Ctx, king: Option<Pos>, n: nat)
    requires WellFormed(v) && InBounds(o.row, o.col) && Placed(ps) && n <= |ps|
    ensures ProtectorLoop(v, o, pc, ps, ctx, king, n).0 == SeenBy(v, o, pc, n)
    ensures var att := ProtectorLoop(v, o, pc, ps, ctx, king, n).1;
      att.None? <==> forall k | 0 <= k < n :: !Reaches(SeenBy(v, o, pc, k), ps[k], ctx, king)
    ensures var att := ProtectorLoop(v, o, pc, ps, ctx, king, n).1;
      att.Some? ==> att.value < n && Reaches(SeenBy(v, o, pc, att.value), ps[att.value], ctx, king)
    ensures var att := ProtectorLoop(v, o, pc, ps, ctx, king, n).1;
      att.Some? ==> forall k | att.value < k < n :: !Reaches(SeenBy(v, o, pc, k), ps[k], ctx, king)
  {
    if n > 0 {
      ProtectorLoopSpec(v, o, pc, ps, ctx, king, n - 1);
      var s := ProtectorLoop(v, o, pc, ps, ctx, king, n - 1);
      HitsIff(s.0, ps[n - 1], ctx, king);
      if n - 1 > 0 {
        PutPut(v, o, pc, pc);
      } else {
        PutPut(v, o, Empty, pc);
      }
    }
  }

  /**
   * With the protector standing on its origin and at least one opposing piece scanned,
   * notMovingAProtector leaves the board as it found it.
   */
  lemma ProtectorLoopRestores(v: View, o: Pos, pc: Cell, ps: seq<PieceInfo>, ctx: Ctx, king: Option<Pos>, n: nat)
    requires WellFormed(v) && InBounds(o.row, o.col) && Placed(ps) && 0 < n <= |ps|
    requires v[o.row][o.col] == pc
    ensures ProtectorLoop(v, o, pc, ps, ctx, king, n).0 == v
  {
    ProtectorLoopSpec(v, o, pc, ps, ctx, king, n);
    PutSame(v, o);
  }

  /**
   * kingMoveValid and notMovingAProtector leave view `v` as they found it when the
   * selection `si` stands on its own square and, for a selection other than a king, the
   * opponent has a piece in `opp` to scan; with none, the protector is never put back.
   */
  predicate Restoring(v: View, si: PieceInfo, opp: seq<PieceInfo>)
    requires WellFormed(v) && InBounds(si.row, si.col)
  {
    v[si.row][si.col] == CellOfInfo(si) && (si.kind != King ==> |opp| > 0)
  }
}
