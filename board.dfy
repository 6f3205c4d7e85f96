/**
 * Board.java: the 8x8 array of squares, the two per-colour piece lists, and the
 * check analysis that recomputes the cached check flags, `numCheck` and `checking`.
 * Game.kingMoveValid and Piece.whenInCheck, which Board's analyses call back into
 * and which read nothing but the board, are hosted here as well.
 */
module Boards {
  import opened Core
  import opened Moves
  import opened Checks
  import opened Pieces
  import opened Layout
  import Setups
  import KingRules

  /** The list with its first element identical to `x` deleted (LinkedList iterator removal). */
  function RemoveFirst(ps: seq<Piece>, x: Piece): seq<Piece> {
    if |ps| == 0 then []
    else if ps[0] == x then ps[1..]
    else [ps[0]] + RemoveFirst(ps[1..], x)
  }

  /** RemoveFirst changes nothing when `x` is not in the list. */
  lemma {:induction false} RemoveFirstAbsent(ps: seq<Piece>, x: Piece)
    requires x !in ps
    ensures RemoveFirst(ps, x) == ps
  {
    if |ps| > 0 {
      RemoveFirstAbsent(ps[1..], x);
      assert ps == [ps[0]] + ps[1..];
    }
  }

  /** RemoveFirst takes away exactly one copy of `x`, and nothing else. */
  lemma {:induction false} RemoveFirstMultiset(ps: seq<Piece>, x: Piece)
    ensures multiset(RemoveFirst(ps, x)) == multiset(ps) - multiset{x}
  {
    if |ps| > 0 {
      RemoveFirstMultiset(ps[1..], x);
      assert ps == [ps[0]] + ps[1..];
    }
  }

  /** RemoveFirst keeps only pieces that were in the list. */
  lemma RemoveFirstSubset(ps: seq<Piece>, x: Piece)
    ensures PieceSet(RemoveFirst(ps, x)) <= PieceSet(ps)
  {
    RemoveFirstMultiset(ps, x);
    forall p | p in RemoveFirst(ps, x)
      ensures p in ps
    {
      assert p in multiset(RemoveFirst(ps, x));
    }
  }

  /** Cutting out the first occurrence, once the scan has found it, is RemoveFirst. */
  lemma {:induction false} RemoveFirstAt(ps: seq<Piece>, x: Piece, i: nat)
    requires i < |ps| && ps[i] == x && forall j | 0 <= j < i :: ps[j] != x
    ensures RemoveFirst(ps, x) == ps[..i] + ps[i + 1..]
  {
    if i > 0 {
      RemoveFirstAt(ps[1..], x, i - 1);
      assert ps[1..][..i - 1] + ps[1..][i..] == ps[1..i] + ps[i + 1..];
      assert [ps[0]] + ps[1..i] == ps[..i];
    }
  }

  /** The first King of a list (getWhiteKing, getBlackKing, getCurrKing); null when there is none. */
  function FirstKing(ps: seq<Piece>): (k: Piece?)
    ensures k != null ==> k in ps && k.kind == King
  {
    if |ps| == 0 then null
    else if ps[0].kind == King then ps[0]
    else FirstKing(ps[1..])
  }

  /** FirstKing is null exactly without a king, and otherwise the king that comes first. */
  lemma {:induction false} FirstKingSpec(ps: seq<Piece>)
    ensures FirstKing(ps) == null <==> forall i | 0 <= i < |ps| :: ps[i].kind != King
    ensures FirstKing(ps) != null ==>
      exists i | 0 <= i < |ps| :: ps[i] == FirstKing(ps) && forall j | 0 <= j < i :: ps[j].kind != King
  {
    if |ps| > 0 && ps[0].kind != King {
      FirstKingSpec(ps[1..]);
      var k := FirstKing(ps[1..]);
      if k != null {
        var i :| 0 <= i < |ps[1..]| && ps[1..][i] == k && forall j | 0 <= j < i :: ps[1..][j].kind != King;
        assert ps[i + 1] == k;
        forall j | 0 <= j < i + 1
          ensures ps[j].kind != King
        {
          if j > 0 {
            assert ps[j] == ps[1..][j - 1];
          }
        }
      } else {
        forall i | 0 <= i < |ps|
          ensures ps[i].kind != King
        {
          if i > 0 {
            assert ps[i] == ps[1..][i - 1];
          }
        }
      }
    }
  }

  /** The for-each loops of getWhiteKing and getBlackKing (Game.java:826-845): the first King in the list. */
  method FindKing(ps: seq<Piece>) returns (k: Piece?)
    ensures k == FirstKing(ps)
  {
    for i := 0 to |ps|
      invariant FirstKing(ps) == FirstKing(ps[i..])
    {
      assert ps[i..] == [ps[i]] + ps[i + 1..];
      if ps[i].kind == King {
        return ps[i];
      }
      assert ps[i..][1..] == ps[i + 1..];
    }
    return null;
  }

  /**
   * canIntersectPath read off the square objects: one of `squares` is a square of this
   * board strictly between attacker and king (Board.java:285-298).
   */
  predicate Covered(g: array2<Square>, squares: seq<Square>, a: Pos, k: Pos)
    requires Dims(g)
    reads g
  {
    exists r, c | 0 <= r < BOARD_WIDTH && 0 <= c < BOARD_WIDTH :: OnPath(a.row, a.col, k.row, k.col, r, c) && g[r, c] in squares
  }

  /** On squares computed by setValidSquares, canIntersectPath is Intersects on their coordinates. */
  lemma CoveredIff(g: array2<Square>, squares: seq<Square>, qs: seq<Pos>, a: Pos, k: Pos)
    requires GridOk(g) && SquaresAt(g, squares, qs)
    requires InBounds(a.row, a.col) && InBounds(k.row, k.col)
    ensures Covered(g, squares, a, k) <==> Intersects(qs, a, k)
  {
    if Covered(g, squares, a, k) {
      var r, c :| 0 <= r < BOARD_WIDTH && 0 <= c < BOARD_WIDTH && OnPath(a.row, a.col, k.row, k.col, r, c) && g[r, c] in squares;
      var i :| 0 <= i < |squares| && squares[i] == g[r, c];
      assert qs[i] == Pos(r, c);
    }
    if Intersects(qs, a, k) {
      var q :| q in qs && OnPath(a.row, a.col, k.row, k.col, q.row, q.col);
      var i :| 0 <= i < |qs| && qs[i] == q;
      assert g[q.row, q.col] == squares[i];
    }
  }

  class Board {
    const grid: array2<Square>
    var whitePieces: seq<Piece>
    var blackPieces: seq<Piece>
    var wInCheck: bool
    var bInCheck: bool
    var checking: Piece?
    var numCheck: nat

    /**
     * Board's constructor (Board.java:31-44): cleared check state, the squares of
     * setupBoardLayout, then the white pieces and the black pieces, each list in the
     * order its setup method creates them and each piece on its own square.
     */
    constructor ()
      ensures fresh(grid) && Opened()
    {
      wInCheck := false;
      bInCheck := false;
      checking := null;
      numCheck := 0;
      var g, ws, bs := Setups.SetupBoard();
      grid, whitePieces, blackPieces := g, ws, bs;
    }

    /** The state the constructor leaves: the opening position and no check. */
    ghost predicate Opened()
      reads this, grid, Cells(grid)`isOccupied, Cells(grid)`occupying, Occupants(grid)`isWhite, Occupants(grid)`isFirstMove
      reads PieceSet(whitePieces)`isWhite, PieceSet(whitePieces)`isFirstMove, PieceSet(whitePieces)`oldRow, PieceSet(whitePieces)`oldCol
      reads PieceSet(blackPieces)`isWhite, PieceSet(blackPieces)`isFirstMove, PieceSet(blackPieces)`oldRow, PieceSet(blackPieces)`oldCol
    {
      Setups.Initial(grid, whitePieces, blackPieces) && !wInCheck && !bInCheck && checking == null && numCheck == 0
    }

    /** Every piece of both lists. */
    function Pool(): set<Piece>
      reads this`whitePieces, this`blackPieces
    {
      PieceSet(whitePieces) + PieceSet(blackPieces)
    }

    /** getPieces: the white list for "white", the black list for any other name. */
    function GetPieces(player: string): seq<Piece>
      reads this`whitePieces, this`blackPieces
    {
      if player == WHITE then whitePieces else blackPieces
    }

    /** The list of the other colour. */
    function Opposing(player: string): seq<Piece>
      reads this`whitePieces, this`blackPieces
    {
      if player == WHITE then blackPieces else whitePieces
    }

    function GetChecking(): Piece?
      reads this`checking
    {
      checking
    }

    function GetCheck(): bool
      reads this`wInCheck, this`bInCheck
    {
      wInCheck || bInCheck
    }

    function GetWInCheck(): bool
      reads this`wInCheck
    {
      wInCheck
    }

    function GetBInCheck(): bool
      reads this`bInCheck
    {
      bInCheck
    }

    predicate DoubleCheck()
      reads this`numCheck
    {
      numCheck > 1
    }

    predicate SingleCheck()
      reads this`numCheck
    {
      numCheck == 1
    }

    /** What move queries read of the board besides the squares. */
    function CtxOf(prev: Piece?): Ctx
      reads this`wInCheck, this`bInCheck, grid, Opt(prev)`epSquare
    {
      Ctx(wInCheck, bInCheck, EpOf(grid, prev))
    }

    /**
     * removePieceLogically: the first element identical to `captured` leaves the list of
     * its colour; null changes nothing.
     */
    method RemovePieceLogically(captured: Piece?)
      modifies this`whitePieces, this`blackPieces
      ensures captured == null ==> whitePieces == old(whitePieces) && blackPieces == old(blackPieces)
      ensures captured != null && captured.isWhite ==>
        whitePieces == RemoveFirst(old(whitePieces), captured) && blackPieces == old(blackPieces)
      ensures captured != null && !captured.isWhite ==>
        blackPieces == RemoveFirst(old(blackPieces), captured) && whitePieces == old(whitePieces)
      ensures Pool() <= old(Pool())
    {
      if captured != null {
        RemoveFirstSubset(whitePieces, captured);
        RemoveFirstSubset(blackPieces, captured);
        ColorNameInjective(captured.isWhite, true);
        if captured.GetColor() == WHITE {
          whitePieces := RemoveIdentical(whitePieces, captured);
        } else {
          blackPieces := RemoveIdentical(blackPieces, captured);
        }
      }
    }

    /** addPieceLogically: `added` is appended to the list of its colour. */
    method AddPieceLogically(added: Piece)
      modifies this`whitePieces, this`blackPieces
      ensures added.isWhite ==> whitePieces == old(whitePieces) + [added] && blackPieces == old(blackPieces)
      ensures !added.isWhite ==> blackPieces == old(blackPieces) + [added] && whitePieces == old(whitePieces)
      ensures Pool() == old(Pool()) + {added}
    {
      ColorNameInjective(added.isWhite, true);
      if added.GetColor() == WHITE {
        whitePieces := whitePieces + [added];
      } else {
        blackPieces := blackPieces + [added];
      }
    }

    /** The fields isInCheck recomputes agree with the state `s` of its loop over `ps`. */
    predicate Reports(s: Check, ps: seq<Piece>)
      reads this`wInCheck, this`bInCheck, this`numCheck, this`checking
    {
      Tracks(s, wInCheck, bInCheck, numCheck, checking, ps)
    }

    /**
     * isInCheck(player): every piece of `player` recomputes its squares, in list order,
     * and each square on the opposing king's square counts one check against it.
     */
    method IsInCheck(player: string, prev: Piece?, ghost v: View, ghost ep: Option<Pos>) returns (r: bool)
      requires GridOk(grid) && Settled(prev) && v == ViewOf(grid) && ep == EpOf(grid, prev)
      modifies this`wInCheck, this`bInCheck, this`numCheck, this`checking, Pool()`validSquares, Pool()`epSquare
      ensures GridOk(grid) && Settled(prev) && ViewOf(grid) == v && EpOf(grid, prev) == ep
      ensures Reports(CheckScan(v, old(InfosOf(GetPieces(player))), ep, player == WHITE,
                                old(KingPos(FirstKing(Opposing(player)))), old(|GetPieces(player)|)), old(GetPieces(player)))
      ensures r == (wInCheck || bInCheck)
    {
      var ps := GetPieces(player);
      ghost var infos := InfosOf(ps);
      ghost var kp := KingPos(FirstKing(Opposing(player)));
      var king: Piece?;
      if player == WHITE {
        king := FindKing(blackPieces);
      } else {
        king := FindKing(whitePieces);
      }
      SameView(ViewOf(grid), v);
      var w, b, n, c := ScanPieces(grid, player, prev, ps, king, v, ep, infos, kp);
      Publish(w, b, n, c, prev, v, ep);
      return bInCheck || wInCheck;
    }

    /** Sets the four fields isInCheck recomputes; the board and the pieces are untouched. */
    method Publish(w: bool, b: bool, n: nat, c: Piece?, prev: Piece?, ghost v: View, ghost ep: Option<Pos>)
      requires GridOk(grid) && Settled(prev) && v == ViewOf(grid) && ep == EpOf(grid, prev)
      modifies this`wInCheck, this`bInCheck, this`numCheck, this`checking
      ensures GridOk(grid) && Settled(prev) && v == ViewOf(grid) && ep == EpOf(grid, prev)
      ensures wInCheck == w && bInCheck == b && numCheck == n && checking == c
    {
      wInCheck, bInCheck, numCheck, checking := w, b, n, c;
    }

    /**
     * kingCanEscape(player) (Board.java:183-199): the king opposite `player` recomputes
     * its squares and tries them in order with kingMoveValid against `player`'s pieces;
     * the first that passes ends the search.
     */
    method KingCanEscape(player: string, prev: Piece?, ghost v: View, ghost ep: Option<Pos>, ghost pool: set<Piece>) returns (r: bool)
      requires GridOk(grid) && Settled(prev) && v == ViewOf(grid) && ep == EpOf(grid, prev)
      requires Within(grid, pool) && Pool() <= pool
      modifies Cells(grid)`isOccupied, Cells(grid)`occupying
      modifies Opt(FirstKing(Opposing(player)))`oldRow, Opt(FirstKing(Opposing(player)))`oldCol
      modifies Pool()`validSquares, Pool()`epSquare
      ensures GridOk(grid) && Settled(prev) && EpOf(grid, prev) == ep
      ensures Within(grid, pool)
      ensures InfoOf(FirstKing(Opposing(player))) == old(InfoOf(FirstKing(Opposing(player))))
      ensures Scope(grid, prev, GetPieces(player), null, ViewOf(grid), ep, old(InfosOf(GetPieces(player))), None)
      ensures (ViewOf(grid), r) ==
        Escape(v, old(InfoOf(FirstKing(Opposing(player)))), old(InfosOf(GetPieces(player))), Ctx(wInCheck, bInCheck, ep))
    {
      var ps := GetPieces(player);
      ghost var infos := InfosOf(ps);
      ghost var foe := InfoOf(FirstKing(Opposing(player)));
      ghost var ctx := Ctx(wInCheck, bInCheck, ep);
      var king: Piece?;
      if player == WHITE {
        king := FindKing(blackPieces);
      } else {
        king := FindKing(whitePieces);
      }
      SameView(ViewOf(grid), v);
      if king == null {
        return false;
      }
      r := TryKingSquares(player, king, prev, v, ep, infos, king.Info(), ctx, pool);
    }

    /** The body of kingCanEscape once the king is found: its squares, then the loop over them. */
    method TryKingSquares(player: string, king: Piece, prev: Piece?,
                          ghost v: View, ghost ep: Option<Pos>, ghost infos: seq<PieceInfo>, ghost info: PieceInfo, ghost ctx: Ctx, ghost pool: set<Piece>)
      returns (r: bool)
      requires ctx == Ctx(wInCheck, bInCheck, ep) && info == king.Info() && Placed(infos)
      requires Scope(grid, prev, GetPieces(player), king, v, ep, infos, Some(PosOf(info)))
      requires Within(grid, pool) && king in pool
      modifies Cells(grid)`isOccupied, Cells(grid)`occupying, king`oldRow, king`oldCol
      modifies king`validSquares, king`epSquare
      modifies PieceSet(GetPieces(player))`validSquares, PieceSet(GetPieces(player))`epSquare
      ensures Scope(grid, prev, GetPieces(player), king, ViewOf(grid), ep, infos, Some(PosOf(info))) && king.Info() == info
      ensures Within(grid, pool)
      ensures (ViewOf(grid), r) == Escape(v, Some(info), infos, ctx)
    {
      Refresh(grid, wInCheck, bInCheck, prev, GetPieces(player), king, king, v, ep, infos, Some(PosOf(info)));
      ValidListSpec(v, info, ctx);
      r := EscapeLoop(player, king, prev, king.validSquares, v, ep, infos, info, ctx, ValidList(v, info, ctx), pool);
    }

    /** The loop of kingCanEscape over the king's squares (Board.java:193-197). */
    method EscapeLoop(player: string, king: Piece, prev: Piece?, squares: seq<Square>,
                      ghost v: View, ghost ep: Option<Pos>, ghost infos: seq<PieceInfo>, ghost info: PieceInfo,
                      ghost ctx: Ctx, ghost qs: seq<Pos>, ghost pool: set<Piece>)
      returns (r: bool)
      requires ctx == Ctx(wInCheck, bInCheck, ep)
      requires EscapePass(grid, prev, GetPieces(player), king, v, v, ep, infos, info, ctx, squares, qs, 0)
      requires Within(grid, pool) && king in pool
      modifies Cells(grid)`isOccupied, Cells(grid)`occupying, king`oldRow, king`oldCol
      modifies PieceSet(GetPieces(player))`validSquares, PieceSet(GetPieces(player))`epSquare
      ensures Scope(grid, prev, GetPieces(player), king, ViewOf(grid), ep, infos, Some(PosOf(info))) && king.Info() == info
      ensures Within(grid, pool)
      ensures (ViewOf(grid), r) == EscapeFrom(v, info, infos, ctx, qs)
    {
      ghost var cur := v;
      for j := 0 to |squares|
        invariant ctx == Ctx(wInCheck, bInCheck, ep)
        invariant EscapePass(grid, prev, GetPieces(player), king, v, cur, ep, infos, info, ctx, squares, qs, j)
        invariant Within(grid, pool)
      {
        var valid;
        valid, cur := EscapeStep(player, king, prev, squares, j, v, cur, ep, infos, info, ctx, qs, pool);
        if valid {
          return true;
        }
      }
      return false;
    }

    /** One square of kingCanEscape's loop: kingMoveValid from the view `s0`. */
    method EscapeStep(player: string, king: Piece, prev: Piece?, squares: seq<Square>, j: nat,
                      ghost v: View, ghost s0: View, ghost ep: Option<Pos>, ghost infos: seq<PieceInfo>, ghost info: PieceInfo,
                      ghost ctx: Ctx, ghost qs: seq<Pos>, ghost pool: set<Piece>)
      returns (valid: bool, ghost s1: View)
      requires j < |squares| && ctx == Ctx(wInCheck, bInCheck, ep)
      requires EscapePass(grid, prev, GetPieces(player), king, v, s0, ep, infos, info, ctx, squares, qs, j)
      requires Within(grid, pool) && king in pool
      modifies Cells(grid)`isOccupied, Cells(grid)`occupying, king`oldRow, king`oldCol
      modifies PieceSet(GetPieces(player))`validSquares, PieceSet(GetPieces(player))`epSquare
      ensures valid ==> (Scope(grid, prev, GetPieces(player), king, ViewOf(grid), ep, infos, Some(PosOf(info))) &&
        king.Info() == info && (ViewOf(grid), true) == EscapeFrom(v, info, infos, ctx, qs))
      ensures Within(grid, pool)
      ensures !valid ==> EscapePass(grid, prev, GetPieces(player), king, v, s1, ep, infos, info, ctx, squares, qs, j + 1)
    {
      assert qs[j..][1..] == qs[j + 1..];
      assert squares[j].row == qs[j].row && squares[j].col == qs[j].col;
      valid := KingMoveValid(player, king, squares[j], prev, s0, ep, infos, pool);
      s1 := ViewOf(grid);
    }

    /**
     * canCaptureAttacker(player) (Board.java:207-228): some piece of `player`, recomputing
     * its squares in list order, lists the checking piece's square.
     */
    method CanCaptureAttacker(player: string, prev: Piece?, ghost v: View, ghost ep: Option<Pos>) returns (r: bool)
      requires GridOk(grid) && Settled(prev) && v == ViewOf(grid) && ep == EpOf(grid, prev) && checking != null
      modifies Pool()`validSquares, Pool()`epSquare
      ensures GridOk(grid) && Settled(prev) && ViewOf(grid) == v && EpOf(grid, prev) == ep
      ensures r == CanCapture(v, old(InfosOf(GetPieces(player))), Ctx(wInCheck, bInCheck, ep),
                              old(Pos(checking.oldRow, checking.oldCol)))
    {
      var ps := GetPieces(player);
      ghost var infos := InfosOf(ps);
      r := CaptureLoop(grid, wInCheck, bInCheck, prev, ps, checking.oldRow, checking.oldCol,
                       v, ep, infos, Ctx(wInCheck, bInCheck, ep));
    }

    /**
     * canBlockAttacker(player) (Board.java:236-271): the player's own king is the one
     * shielded; the first of the player's pieces with a square on the row of both
     * attacker and king, or on the column of both, decides by canIntersectPath.
     */
    method CanBlockAttacker(player: string, prev: Piece?, ghost v: View, ghost ep: Option<Pos>) returns (r: bool)
      requires GridOk(grid) && Settled(prev) && v == ViewOf(grid) && ep == EpOf(grid, prev) && checking != null
      modifies Pool()`validSquares, Pool()`epSquare
      ensures GridOk(grid) && Settled(prev) && ViewOf(grid) == v && EpOf(grid, prev) == ep
      ensures r == CanBlock(v, old(InfosOf(GetPieces(player))), Ctx(wInCheck, bInCheck, ep),
                            old(Pos(checking.oldRow, checking.oldCol)), old(KingPos(FirstKing(GetPieces(player)))))
    {
      var ps := GetPieces(player);
      ghost var infos := InfosOf(ps);
      FirstKingAgree(ps, infos);
      r := BlockAttacker(grid, wInCheck, bInCheck, prev, ps, checking.oldRow, checking.oldCol,
                         v, ep, infos, Ctx(wInCheck, bInCheck, ep));
    }

    /**
     * isCheckmate(player) (Board.java:139-162): no check is no mate; a double check is
     * mate when the king cannot escape; a single check is decided by escape, capture
     * and, against a sliding piece, block, evaluated left to right with `&&` cutting
     * the rest short; a single check by a king is mate.
     */
    method IsCheckmate(player: string, prev: Piece?, ghost v: View, ghost ep: Option<Pos>, ghost pool: set<Piece>) returns (r: bool)
      requires GridOk(grid) && Settled(prev) && v == ViewOf(grid) && ep == EpOf(grid, prev)
      requires numCheck == 1 ==> checking != null
      requires Within(grid, pool) && Pool() <= pool
      modifies Cells(grid)`isOccupied, Cells(grid)`occupying
      modifies Opt(FirstKing(Opposing(player)))`oldRow, Opt(FirstKing(Opposing(player)))`oldCol
      modifies Pool()`validSquares, Pool()`epSquare
      ensures GridOk(grid) && Settled(prev) && EpOf(grid, prev) == ep
      ensures Within(grid, pool)
      ensures InfoOf(FirstKing(Opposing(player))) == old(InfoOf(FirstKing(Opposing(player))))
      ensures (ViewOf(grid), r) ==
        Mate(v, numCheck, old(InfoOf(checking)), old(InfoOf(FirstKing(Opposing(player)))),
             old(KingPos(FirstKing(GetPieces(player)))), old(InfosOf(GetPieces(player))), Ctx(wInCheck, bInCheck, ep))
    {
      if !GetCheck() {
        return false;
      }
      if DoubleCheck() {
        var escape := KingCanEscape(player, prev, v, ep, pool);
        return !escape;
      }
      if SingleCheck() {
        var ps := GetPieces(player);
        FirstKingAgree(ps, InfosOf(ps));
        r := SingleMate(player, prev, ps, v, ep, InfosOf(ps), InfoOf(FirstKing(Opposing(player))), checking.Info(),
                        Ctx(wInCheck, bInCheck, ep), pool);
        return;
      }
      return false;
    }

    /**
     * The single-check branch of isCheckmate (Board.java:145-159), over the snapshots
     * `own` of the player's pieces, `foe` of the king in check and `ci` of the attacker.
     */
    method SingleMate(player: string, prev: Piece?, ps: seq<Piece>, ghost v: View, ghost ep: Option<Pos>,
                      ghost own: seq<PieceInfo>, ghost foe: Option<PieceInfo>, ghost ci: PieceInfo, ghost ctx: Ctx, ghost pool: set<Piece>)
      returns (r: bool)
      requires GridOk(grid) && Settled(prev) && v == ViewOf(grid) && ep == EpOf(grid, prev)
      requires ps == GetPieces(player) && own == InfosOf(ps) && foe == InfoOf(FirstKing(Opposing(player)))
      requires checking != null && ci == checking.Info() && ctx == Ctx(wInCheck, bInCheck, ep) && (wInCheck || bInCheck)
      requires Within(grid, pool) && Pool() <= pool
      modifies Cells(grid)`isOccupied, Cells(grid)`occupying
      modifies Opt(FirstKing(Opposing(player)))`oldRow, Opt(FirstKing(Opposing(player)))`oldCol
      modifies Pool()`validSquares, Pool()`epSquare
      ensures GridOk(grid) && Settled(prev) && EpOf(grid, prev) == ep
      ensures Within(grid, pool)
      ensures InfoOf(FirstKing(Opposing(player))) == old(InfoOf(FirstKing(Opposing(player))))
      ensures (ViewOf(grid), r) == Mate(v, 1, Some(ci), foe, KingAt(ps, own), own, ctx)
    {
      if checking.kind == King {
        return true;
      }
      r := NoEscape(player, prev, ps, v, ep, own, foe, ci, ctx, pool);
    }

    /** isCheckmate against a single checking piece other than a king: kingCanEscape, then capture or block. */
    method NoEscape(player: string, prev: Piece?, ps: seq<Piece>, ghost v: View, ghost ep: Option<Pos>,
                    ghost own: seq<PieceInfo>, ghost foe: Option<PieceInfo>, ghost ci: PieceInfo, ghost ctx: Ctx, ghost pool: set<Piece>)
      returns (r: bool)
      requires GridOk(grid) && Settled(prev) && v == ViewOf(grid) && ep == EpOf(grid, prev)
      requires ps == GetPieces(player) && own == InfosOf(ps) && foe == InfoOf(FirstKing(Opposing(player)))
      requires checking != null && ci == checking.Info() && ctx == Ctx(wInCheck, bInCheck, ep) && (wInCheck || bInCheck)
      requires ci.kind != King && Within(grid, pool) && Pool() <= pool
      modifies Cells(grid)`isOccupied, Cells(grid)`occupying
      modifies Opt(FirstKing(Opposing(player)))`oldRow, Opt(FirstKing(Opposing(player)))`oldCol
      modifies Pool()`validSquares, Pool()`epSquare
      ensures GridOk(grid) && Settled(prev) && EpOf(grid, prev) == ep
      ensures Within(grid, pool)
      ensures InfoOf(FirstKing(Opposing(player))) == old(InfoOf(FirstKing(Opposing(player))))
      ensures (ViewOf(grid), r) == Mate(v, 1, Some(ci), foe, KingAt(ps, own), own, ctx)
    {
      var attackersRow := checking.oldRow;
      var attackersCol := checking.oldCol;
      var kind := checking.kind;
      assert Placed(own) && WellFormed(v) && (foe.Some? ==> InBounds(foe.value.row, foe.value.col));
      var escape := KingCanEscape(player, prev, v, ep, pool);
      if escape {
        MateSingleEscape(v, ci, foe, KingAt(ps, own), own, ctx);
        return false;
      }
      r := Cornered(grid, wInCheck, bInCheck, prev, ps, kind, attackersRow, attackersCol, v, ViewOf(grid), ep,
                    own, foe, ci, ctx, FirstKing(Opposing(player)));
    }

    /**
     * whenInCheck(or, oc, nr, nc) of `mover` (Piece.java:119-155), with `king` the
     * current player's king that the game looks up: without a check, or without a
     * checking piece, any move passes; otherwise the move passes if it blocks (its
     * destination lies strictly between attacker and king; see Walks for
     * the walk as written), if the mover can move onto the attacker, or if the mover's
     * own king can escape.  All three are evaluated.
     */
    method WhenInCheck(mover: Piece, king: Piece?, prev: Piece?, or: int, oc: int, nr: int, nc: int,
                       ghost v: View, ghost ep: Option<Pos>, ghost mi: PieceInfo, ghost kp: Option<Pos>,
                       ghost ai: Option<PieceInfo>, ghost foe: Option<PieceInfo>, ghost opp: seq<PieceInfo>,
                       ghost ctx: Ctx, ghost pool: set<Piece>) returns (r: bool)
      requires GridOk(grid) && Settled(prev) && v == ViewOf(grid) && ep == EpOf(grid, prev) && InBounds(or, oc)
      requires mi == mover.Info() && kp == KingPos(king) && ai == InfoOf(checking)
      requires foe == InfoOf(FirstKing(Opposing(OppPlayer(mi.white))))
      requires Placed(opp) && |opp| == |GetPieces(OppPlayer(mi.white))|
      requires forall j | 0 <= j < |opp| :: opp[j] == GetPieces(OppPlayer(mi.white))[j].Info()
      requires ctx == Ctx(wInCheck, bInCheck, ep) && Within(grid, pool) && Pool() <= pool
      modifies mover`epSquare, Cells(grid)`isOccupied, Cells(grid)`occupying
      modifies Opt(FirstKing(Opposing(OppPlayer(mover.isWhite))))`oldRow
      modifies Opt(FirstKing(Opposing(OppPlayer(mover.isWhite))))`oldCol
      modifies Pool()`validSquares, Pool()`epSquare
      ensures GridOk(grid) && Settled(prev) && EpOf(grid, prev) == ep
      ensures Within(grid, pool)
      ensures (ViewOf(grid), r) == WhenInCheckSpec(v, mi, or, oc, Pos(nr, nc), kp, ai, foe, opp, ctx)
    {
      if !GetCheck() || checking == null {
        return true;
      }
      var oppPlayer := OppPlayer(mover.isWhite);
      InfosAgree(GetPieces(oppPlayer), opp);
      r := WhenAttacked(mover, king, prev, oppPlayer, or, oc, nr, nc, v, ep, mi, kp, ai.value, opp, foe, ctx, pool);
    }

    /**
     * whenInCheck once a check and its attacker are known (Piece.java:125-151), over
     * the snapshots `mi` of the mover, `kp` of the current king, `ai` of the attacker,
     * `opp` of the opponent's pieces and `foe` of the mover's own king.
     */
    method WhenAttacked(mover: Piece, king: Piece?, prev: Piece?, oppPlayer: string, or: int, oc: int, nr: int, nc: int,
                        ghost v: View, ghost ep: Option<Pos>, ghost mi: PieceInfo, ghost kp: Option<Pos>,
                        ghost ai: PieceInfo, ghost opp: seq<PieceInfo>, ghost foe: Option<PieceInfo>, ghost ctx: Ctx, ghost pool: set<Piece>)
      returns (r: bool)
      requires GridOk(grid) && Settled(prev) && v == ViewOf(grid) && ep == EpOf(grid, prev) && InBounds(or, oc)
      requires mi == mover.Info() && kp == KingPos(king) && checking != null && ai == checking.Info()
      requires opp == InfosOf(GetPieces(oppPlayer)) && foe == InfoOf(FirstKing(Opposing(oppPlayer)))
      requires ctx == Ctx(wInCheck, bInCheck, ep)
      requires Within(grid, pool) && Pool() <= pool
      modifies mover`epSquare, Cells(grid)`isOccupied, Cells(grid)`occupying
      modifies Opt(FirstKing(Opposing(oppPlayer)))`oldRow, Opt(FirstKing(Opposing(oppPlayer)))`oldCol
      modifies Pool()`validSquares, Pool()`epSquare
      ensures GridOk(grid) && Settled(prev) && EpOf(grid, prev) == ep
      ensures Within(grid, pool)
      ensures var e := Escape(v, foe, opp, ctx);
        (ViewOf(grid), r) ==
          (e.0, MoveRule(v, mi, ctx, or, oc, ai.row, ai.col) || (kp.Some? && Interposes(PosOf(ai), kp.value, Pos(nr, nc))) || e.1)
    {
      // without a king there is no line to block on; the source throws here instead
      var block := false;
      var kingsRow, kingsCol := 0, 0;
      if king != null {
        kingsRow, kingsCol := king.oldRow, king.oldCol;
      }
      var attackersRow, attackersCol := checking.oldRow, checking.oldCol;
      var capture, escape := CaptureAndEscape(mover, prev, oppPlayer, or, oc, attackersRow, attackersCol, v, ep,
                                              mi, opp, foe, ctx, pool);
      // blockWalk reads only the coordinates taken above, so it may run last
      if king != null {
        block := Block(attackersRow, attackersCol, kingsRow, kingsCol, nr, nc, prev, ep, pool);
      }
      return capture || block || escape;
    }

    /** The `block` flag of whenInCheck (Piece.java:133-145), with the board left as it is. */
    method Block(ar: int, ac: int, kr: int, kc: int, nr: int, nc: int,
                 ghost prev: Piece?, ghost ep: Option<Pos>, ghost pool: set<Piece>) returns (block: bool)
      requires InBounds(ar, ac) && InBounds(kr, kc)
      requires GridOk(grid) && Settled(prev) && EpOf(grid, prev) == ep && Within(grid, pool)
      ensures GridOk(grid) && Settled(prev) && EpOf(grid, prev) == ep && Within(grid, pool)
      ensures ViewOf(grid) == old(ViewOf(grid))
      ensures block == Interposes(Pos(ar, ac), Pos(kr, kc), Pos(nr, nc))
    {
      ghost var w := ViewOf(grid);
      block := BlockWalk(ar, ac, kr, kc, nr, nc);
      SameView(ViewOf(grid), w);
    }

    /**
     * The `capture` and `escape` flags of whenInCheck (Piece.java:146-151): the mover's
     * moveValidity onto the attacker's square (ar, ac), then kingCanEscape(oppPlayer).
     */
    method CaptureAndEscape(mover: Piece, prev: Piece?, oppPlayer: string, or: int, oc: int, ar: int, ac: int,
                            ghost v: View, ghost ep: Option<Pos>, ghost mi: PieceInfo, ghost opp: seq<PieceInfo>,
                            ghost foe: Option<PieceInfo>, ghost ctx: Ctx, ghost pool: set<Piece>)
      returns (capture: bool, escape: bool)
      requires GridOk(grid) && Settled(prev) && v == ViewOf(grid) && ep == EpOf(grid, prev)
      requires InBounds(or, oc) && InBounds(ar, ac) && mi == mover.Info() && ctx == Ctx(wInCheck, bInCheck, ep)
      requires opp == InfosOf(GetPieces(oppPlayer)) && foe == InfoOf(FirstKing(Opposing(oppPlayer)))
      requires Within(grid, pool) && Pool() <= pool
      modifies mover`epSquare, Cells(grid)`isOccupied, Cells(grid)`occupying
      modifies Opt(FirstKing(Opposing(oppPlayer)))`oldRow, Opt(FirstKing(Opposing(oppPlayer)))`oldCol
      modifies Pool()`validSquares, Pool()`epSquare
      ensures GridOk(grid) && Settled(prev) && EpOf(grid, prev) == ep
      ensures Within(grid, pool)
      ensures capture == MoveRule(v, mi, ctx, or, oc, ar, ac)
      ensures (ViewOf(grid), escape) == Escape(v, foe, opp, ctx)
    {
      capture := MoveOnto(mover, prev, oppPlayer, or, oc, ar, ac, v, ep, mi, opp, foe, ctx);
      escape := KingCanEscape(oppPlayer, prev, v, ep, pool);
    }

    /** The `capture` flag of whenInCheck (Piece.java:146-148), keeping what kingCanEscape then reads. */
    method MoveOnto(mover: Piece, prev: Piece?, oppPlayer: string, or: int, oc: int, ar: int, ac: int,
                    ghost v: View, ghost ep: Option<Pos>, ghost mi: PieceInfo, ghost opp: seq<PieceInfo>,
                    ghost foe: Option<PieceInfo>, ghost ctx: Ctx)
      returns (capture: bool)
      requires GridOk(grid) && Settled(prev) && v == ViewOf(grid) && ep == EpOf(grid, prev)
      requires InBounds(or, oc) && InBounds(ar, ac) && mi == mover.Info() && ctx == Ctx(wInCheck, bInCheck, ep)
      requires opp == InfosOf(GetPieces(oppPlayer)) && foe == InfoOf(FirstKing(Opposing(oppPlayer)))
      modifies mover`epSquare
      ensures GridOk(grid) && Settled(prev) && v == ViewOf(grid) && ep == EpOf(grid, prev)
      ensures opp == InfosOf(GetPieces(oppPlayer)) && foe == InfoOf(FirstKing(Opposing(oppPlayer)))
      ensures capture == MoveRule(v, mi, ctx, or, oc, ar, ac)
    {
      ghost var ps := GetPieces(oppPlayer);
      ghost var fk := FirstKing(Opposing(oppPlayer));
      capture := mover.MoveValidity(grid, v, wInCheck, bInCheck, prev, ctx, or, oc, ar, ac);
      assert forall j | 0 <= j < |ps| :: opp[j] == ps[j].Info();
      InfosAgree(ps, opp);
      assert fk != null ==> foe == Some(fk.Info());
    }

    /**
     * kingMoveValid(player, king, square) (Game.java:357-388): a non-king and a castle
     * pass; otherwise each piece of `player` is scanned with the king's origin vacated
     * (a pawn with the king in place), the king being put back after each scan, and
     * the last piece that lists the destination decides.
     */
    method KingMoveValid(player: string, king: Piece, sq: Square, prev: Piece?,
                         ghost v: View, ghost ep: Option<Pos>, ghost infos: seq<PieceInfo>, ghost pool: set<Piece>)
      returns (valid: bool)
      requires Scope(grid, prev, GetPieces(player), king, v, ep, infos, KingPos(king))
      requires Within(grid, pool) && king in pool
      modifies Cells(grid)`isOccupied, Cells(grid)`occupying, king`oldRow, king`oldCol
      modifies PieceSet(GetPieces(player))`validSquares, PieceSet(GetPieces(player))`epSquare
      ensures Scope(grid, prev, GetPieces(player), king, ViewOf(grid), ep, infos, KingPos(king))
      ensures Within(grid, pool)
      ensures king.Info() == old(king.Info())
      ensures (ViewOf(grid), valid) ==
        KingMoveSpec(v, king.Info(), infos, Ctx(wInCheck, bInCheck, ep), Pos(sq.row, sq.col))
    {
      var ps := GetPieces(player);
      ghost var info := king.Info();
      ghost var ctx := Ctx(wInCheck, bInCheck, ep);
      valid := true;
      if king.kind == King {
        var castle := king.CanCastle(grid, v, wInCheck, bInCheck, king.oldRow, king.oldCol, sq.row, sq.col);
        SameView(ViewOf(grid), v);
        if castle {
          return true;
        }
        valid := KingScan(ps, king, sq, prev, v, ep, infos, info, ctx, pool);
      }
    }

    /** The loop of kingMoveValid over the pieces of `player` (Game.java:369-385). */
    method KingScan(ps: seq<Piece>, king: Piece, sq: Square, prev: Piece?,
                    ghost v: View, ghost ep: Option<Pos>, ghost infos: seq<PieceInfo>, ghost info: PieceInfo, ghost ctx: Ctx, ghost pool: set<Piece>)
      returns (valid: bool)
      requires info == king.Info() && ctx == Ctx(wInCheck, bInCheck, ep)
      requires Scope(grid, prev, ps, king, v, ep, infos, Some(PosOf(info)))
      requires Within(grid, pool) && king in pool
      modifies Cells(grid)`isOccupied, Cells(grid)`occupying, king`oldRow, king`oldCol
      modifies PieceSet(ps)`validSquares, PieceSet(ps)`epSquare
      ensures king.Info() == info
      ensures Within(grid, pool)
      ensures var (w, b) := KingLoop(v, PosOf(info), CellOfInfo(info), infos, ctx, Pos(sq.row, sq.col), |ps|);
        Scope(grid, prev, ps, king, w, ep, infos, Some(PosOf(info))) && valid == b
    {
      ghost var cur := v;
      valid := true;
      for k := 0 to |ps|
        invariant ctx == Ctx(wInCheck, bInCheck, ep)
        invariant KingPass(grid, prev, ps, king, v, cur, valid, ep, infos, info, ctx, Pos(sq.row, sq.col), k)
        invariant Within(grid, pool)
      {
        valid, cur := KingStep(ps, k, king, sq, prev, valid, v, cur, ep, infos, info, ctx, pool);
      }
    }

    /** One pass of the loop of kingMoveValid over piece `k` (Game.java:369-383), from the view `s0`. */
    method KingStep(ps: seq<Piece>, k: nat, king: Piece, sq: Square, prev: Piece?, valid: bool,
                    ghost v: View, ghost s0: View, ghost ep: Option<Pos>, ghost infos: seq<PieceInfo>, ghost info: PieceInfo, ghost ctx: Ctx, ghost pool: set<Piece>)
      returns (valid': bool, ghost s1: View)
      requires k < |ps| && ctx == Ctx(wInCheck, bInCheck, ep)
      requires KingPass(grid, prev, ps, king, v, s0, valid, ep, infos, info, ctx, Pos(sq.row, sq.col), k)
      requires Within(grid, pool) && king in pool
      modifies grid[info.row, info.col]`isOccupied, grid[info.row, info.col]`occupying, king`oldRow, king`oldCol
      modifies {ps[k]}`validSquares, {ps[k]}`epSquare
      ensures KingPass(grid, prev, ps, king, v, s1, valid', ep, infos, info, ctx, Pos(sq.row, sq.col), k + 1)
      ensures Within(grid, pool)
    {
      if ps[k].kind != Pawn {
        valid', s1 := VacatedPass(ps, k, king, sq, prev, valid, v, s0, ep, infos, info, ctx, pool);
      } else {
        valid', s1 := PawnPass(ps, k, king, sq, prev, valid, v, s0, ep, infos, info, ctx);
      }
    }

    /** A pass of kingMoveValid over a non-pawn: vacate the origin, scan, put the king back. */
    method VacatedPass(ps: seq<Piece>, k: nat, king: Piece, sq: Square, prev: Piece?, valid: bool,
                       ghost v: View, ghost s0: View, ghost ep: Option<Pos>, ghost infos: seq<PieceInfo>, ghost info: PieceInfo, ghost ctx: Ctx, ghost pool: set<Piece>)
      returns (valid': bool, ghost s1: View)
      requires k < |ps| && ctx == Ctx(wInCheck, bInCheck, ep) && ps[k].kind != Pawn
      requires KingPass(grid, prev, ps, king, v, s0, valid, ep, infos, info, ctx, Pos(sq.row, sq.col), k)
      requires Within(grid, pool) && king in pool
      modifies grid[info.row, info.col]`isOccupied, grid[info.row, info.col]`occupying, king`oldRow, king`oldCol
      modifies {ps[k]}`validSquares, {ps[k]}`epSquare
      ensures KingPass(grid, prev, ps, king, v, s1, valid', ep, infos, info, ctx, Pos(sq.row, sq.col), k + 1)
      ensures Within(grid, pool)
    {
      var piece := ps[k];
      KingLoopNext(v, PosOf(info), CellOfInfo(info), infos, ctx, Pos(sq.row, sq.col), k);
      var found := ScanVacated(grid, wInCheck, bInCheck, prev, ps, k, king, sq.row, sq.col, s0, ep, infos, info, ctx, pool);
      valid' := if found then piece.oldRow == sq.row && piece.oldCol == sq.col else valid;
      PutKing(grid, prev, ps, king, Put(s0, PosOf(info), Empty), ep, infos, info, pool);
      PutPut(s0, PosOf(info), Empty, CellOfInfo(info));
      s1 := Put(s0, PosOf(info), CellOfInfo(info));
    }

    /** A pass of kingMoveValid over a pawn: the scan runs with the king in place. */
    method PawnPass(ps: seq<Piece>, k: nat, king: Piece, sq: Square, prev: Piece?, valid: bool,
                    ghost v: View, ghost s0: View, ghost ep: Option<Pos>, ghost infos: seq<PieceInfo>, ghost info: PieceInfo, ghost ctx: Ctx)
      returns (valid': bool, ghost s1: View)
      requires k < |ps| && ctx == Ctx(wInCheck, bInCheck, ep) && ps[k].kind == Pawn
      requires KingPass(grid, prev, ps, king, v, s0, valid, ep, infos, info, ctx, Pos(sq.row, sq.col), k)
      modifies {ps[k]}`validSquares, {ps[k]}`epSquare
      ensures KingPass(grid, prev, ps, king, v, s1, valid', ep, infos, info, ctx, Pos(sq.row, sq.col), k + 1)
    {
      var piece := ps[k];
      KingLoopNext(v, PosOf(info), CellOfInfo(info), infos, ctx, Pos(sq.row, sq.col), k);
      var found := ScanFinds(grid, wInCheck, bInCheck, prev, ps, k, king, sq.row, sq.col, s0, ep, infos, Some(PosOf(info)), ctx);
      valid' := if found then piece.oldRow == sq.row && piece.oldCol == sq.col else valid;
      s1 := s0;
    }
  }

  /** The loop of canCaptureAttacker over `ps` (Board.java:215-227); it stops at the first piece that lists (r, c). */
  method CaptureLoop(g: array2<Square>, wIn: bool, bIn: bool, prev: Piece?, ps: seq<Piece>, r: int, c: int,
                     ghost v: View, ghost ep: Option<Pos>, ghost infos: seq<PieceInfo>, ghost ctx: Ctx)
    returns (found: bool)
    requires Scope(g, prev, ps, null, v, ep, infos, None) && Placed(infos) && ctx == Ctx(wIn, bIn, ep)
    modifies PieceSet(ps)`validSquares, PieceSet(ps)`epSquare
    ensures Scope(g, prev, ps, null, v, ep, infos, None)
    ensures found == CanCapture(v, infos, ctx, Pos(r, c))
  {
    for k := 0 to |ps|
      invariant Scope(g, prev, ps, null, v, ep, infos, None)
      invariant forall j | 0 <= j < k :: Pos(r, c) !in ValidList(v, infos[j], ctx)
    {
      found := ScanFinds(g, wIn, bIn, prev, ps, k, null, r, c, v, ep, infos, None, ctx);
      if found {
        return true;
      }
    }
    return false;
  }

  /**
   * The rest of isCheckmate's single-check branch once the king cannot escape
   * (Board.java:148, 153): mate unless canCaptureAttacker holds or, against a sliding
   * piece, canBlockAttacker.
   */
  method CaptureOrBlock(g: array2<Square>, wIn: bool, bIn: bool, prev: Piece?, ps: seq<Piece>, kind: Kind,
                        ar: int, ac: int, ghost v: View, ghost ep: Option<Pos>, ghost infos: seq<PieceInfo>, ghost ctx: Ctx)
    returns (r: bool)
    requires Scope(g, prev, ps, null, v, ep, infos, None) && Placed(infos) && ctx == Ctx(wIn, bIn, ep) && InBounds(ar, ac)
    modifies PieceSet(ps)`validSquares, PieceSet(ps)`epSquare
    ensures Scope(g, prev, ps, null, v, ep, infos, None)
    ensures var capture := CanCapture(v, infos, ctx, Pos(ar, ac));
      r == if kind == Pawn || kind == Knight || capture then !capture
           else !CanBlock(v, infos, ctx, Pos(ar, ac), KingAt(ps, infos))
  {
    var capture := CaptureLoop(g, wIn, bIn, prev, ps, ar, ac, v, ep, infos, ctx);
    if kind == Pawn || kind == Knight || capture {
      return !capture;
    }
    var block := BlockAttacker(g, wIn, bIn, prev, ps, ar, ac, v, ep, infos, ctx);
    return !block;
  }

  /**
   * The rest of isCheckmate against a single checking piece `ci`, other than a king, once
   * kingCanEscape has failed on `v` and left the board `w`: capture, then block.
   */
  method Cornered(g: array2<Square>, wIn: bool, bIn: bool, prev: Piece?, ps: seq<Piece>, kind: Kind, ar: int, ac: int,
                  ghost v: View, ghost w: View, ghost ep: Option<Pos>, ghost own: seq<PieceInfo>, ghost foe: Option<PieceInfo>,
                  ghost ci: PieceInfo, ghost ctx: Ctx, ghost king: Piece?)
    returns (r: bool)
    requires Scope(g, prev, ps, null, w, ep, own, None) && Placed(own) && ctx == Ctx(wIn, bIn, ep) && (wIn || bIn)
    requires WellFormed(v) && (foe.Some? ==> InBounds(foe.value.row, foe.value.col))
    requires ci.kind != King && kind == ci.kind && ar == ci.row && ac == ci.col && InBounds(ar, ac)
    requires Escape(v, foe, own, ctx) == (w, false)
    modifies PieceSet(ps)`validSquares, PieceSet(ps)`epSquare
    ensures Scope(g, prev, ps, null, w, ep, own, None) && InfoOf(king) == old(InfoOf(king))
    ensures (w, r) == Mate(v, 1, Some(ci), foe, KingAt(ps, own), own, ctx)
  {
    MateSingleUnfold(v, ci, foe, KingAt(ps, own), own, ctx);
    r := CaptureOrBlock(g, wIn, bIn, prev, ps, kind, ar, ac, w, ep, own, ctx);
  }

  /**
   * The body of canBlockAttacker (Board.java:236-271): the first king of `ps` is the
   * one shielded; without one there is no block.
   */
  method BlockAttacker(g: array2<Square>, wIn: bool, bIn: bool, prev: Piece?, ps: seq<Piece>, ar: int, ac: int,
                       ghost v: View, ghost ep: Option<Pos>, ghost infos: seq<PieceInfo>, ghost ctx: Ctx)
    returns (r: bool)
    requires Scope(g, prev, ps, null, v, ep, infos, None) && Placed(infos) && ctx == Ctx(wIn, bIn, ep) && InBounds(ar, ac)
    modifies PieceSet(ps)`validSquares, PieceSet(ps)`epSquare
    ensures Scope(g, prev, ps, null, v, ep, infos, None)
    ensures r == CanBlock(v, infos, ctx, Pos(ar, ac), KingAt(ps, infos))
  {
    FirstKingAgree(ps, infos);
    var king := FindKing(ps);
    SameView(ViewOf(g), v);
    if king == null {
      return false;
    }
    r := BlockLoop(g, wIn, bIn, prev, ps, ar, ac, king.oldRow, king.oldCol, v, ep, infos, ctx);
  }

  /** The colour whitePieces or blackPieces belong to for the opponent of a piece of colour `white`. */
  function OppPlayer(white: bool): string {
    if white then BLACK else WHITE
  }

  /**
   * The block walk of whenInCheck (Piece.java:133-145) as its documentation means it:
   * the walk runs from the attacker TOWARDS the king, along a line only, and reports a
   * block when it meets the destination (nr, nc).  See Walks for the walk as written.
   */
  method BlockWalk(attackersRow: int, attackersCol: int, kingsRow: int, kingsCol: int, nr: int, nc: int)
    returns (block: bool)
    requires InBounds(attackersRow, attackersCol) && InBounds(kingsRow, kingsCol)
    ensures block == Interposes(Pos(attackersRow, attackersCol), Pos(kingsRow, kingsCol), Pos(nr, nc))
  {
    block := false;
    if !Aligned(attackersRow, attackersCol, kingsRow, kingsCol) {
      return;
    }
    ghost var d: int := Dist(attackersRow, attackersCol, kingsRow, kingsCol);
    AlignedSpan(attackersRow, attackersCol, kingsRow, kingsCol);
    var rowIncrement := Compare(kingsRow, attackersRow);
    var colIncrement := Compare(kingsCol, attackersCol);
    var row, col := attackersRow + rowIncrement, attackersCol + colIncrement;
    ghost var t: int := 1;
    while row != kingsRow || col != kingsCol
      invariant 1 <= t && (t <= d || d == 0)
      invariant row == Step(attackersRow, kingsRow, t) && col == Step(attackersCol, kingsCol, t)
      invariant forall s | 0 < s < t :: !(Step(attackersRow, kingsRow, s) == nr && Step(attackersCol, kingsCol, s) == nc)
      decreases d + 1 - t
    {
      assert t < d;
      if row == nr && col == nc {
        assert OnPath(attackersRow, attackersCol, kingsRow, kingsCol, row, col);
        return true;
      }
      row, col := row + rowIncrement, col + colIncrement;
      t := t + 1;
    }
    OnPathIsStep(attackersRow, attackersCol, kingsRow, kingsCol, nr, nc);
  }

  /** The loop of canBlockAttacker over `ps` (Board.java:258-271), from piece 0. */
  method BlockLoop(g: array2<Square>, wIn: bool, bIn: bool, prev: Piece?, ps: seq<Piece>, ar: int, ac: int, kr: int, kc: int,
                   ghost v: View, ghost ep: Option<Pos>, ghost infos: seq<PieceInfo>, ghost ctx: Ctx)
    returns (r: bool)
    requires Scope(g, prev, ps, null, v, ep, infos, None) && Placed(infos) && ctx == Ctx(wIn, bIn, ep)
    requires InBounds(ar, ac) && InBounds(kr, kc)
    modifies PieceSet(ps)`validSquares, PieceSet(ps)`epSquare
    ensures Scope(g, prev, ps, null, v, ep, infos, None)
    ensures r == BlockFrom(v, infos, ctx, Pos(ar, ac), Pos(kr, kc), 0)
  {
    for k := 0 to |ps|
      invariant Scope(g, prev, ps, null, v, ep, infos, None)
      invariant BlockFrom(v, infos, ctx, Pos(ar, ac), Pos(kr, kc), 0) == BlockFrom(v, infos, ctx, Pos(ar, ac), Pos(kr, kc), k)
    {
      var decided;
      decided, r := BlockPiece(g, wIn, bIn, prev, ps, k, ar, ac, kr, kc, v, ep, infos, ctx);
      if decided {
        return r;
      }
    }
    return false;
  }

  /**
   * One pass of canBlockAttacker's loop: piece `k` recomputes its squares; if one of them
   * is in line with both attacker and king, canIntersectPath gives the answer.
   */
  method BlockPiece(g: array2<Square>, wIn: bool, bIn: bool, prev: Piece?, ps: seq<Piece>, k: nat,
                    ar: int, ac: int, kr: int, kc: int,
                    ghost v: View, ghost ep: Option<Pos>, ghost infos: seq<PieceInfo>, ghost ctx: Ctx)
    returns (decided: bool, r: bool)
    requires k < |ps| && Scope(g, prev, ps, null, v, ep, infos, None) && Placed(infos) && ctx == Ctx(wIn, bIn, ep)
    requires InBounds(ar, ac) && InBounds(kr, kc)
    modifies {ps[k]}`validSquares, {ps[k]}`epSquare
    ensures Scope(g, prev, ps, null, v, ep, infos, None)
    ensures var qs := ValidList(v, infos[k], ctx);
      decided == (exists q | q in qs :: Lined(q, Pos(ar, ac), Pos(kr, kc))) &&
      (decided ==> r == Intersects(qs, Pos(ar, ac), Pos(kr, kc)))
  {
    Refresh(g, wIn, bIn, prev, ps, null, ps[k], v, ep, infos, None);
    ghost var qs := ValidList(v, infos[k], ctx);
    var squares := ps[k].validSquares;
    decided, r := false, false;
    for m := 0 to |squares|
      invariant forall j | 0 <= j < m :: !Lined(qs[j], Pos(ar, ac), Pos(kr, kc))
    {
      var newRow := squares[m].row;
      var newCol := squares[m].col;
      assert newRow == qs[m].row && newCol == qs[m].col;
      if (newRow == ar && newRow == kr) || (newCol == ac && newCol == kc) {
        decided := true;
        assert qs[m] in qs && Lined(qs[m], Pos(ar, ac), Pos(kr, kc));
        r := CanIntersectPath(g, ps[k], ar, ac, kr, kc, prev, ps, v, ep, infos);
        CoveredIff(g, squares, qs, Pos(ar, ac), Pos(kr, kc));
        return;
      }
    }
  }

  /**
   * canIntersectPath(piece, a, k) (Board.java:285-298) with the walk pointed from the
   * attacker TOWARDS the king: one of the piece's current squares lies strictly between
   * the two.  The source points the walk away from the king; see Walks.
   */
  method CanIntersectPath(g: array2<Square>, piece: Piece, attackersRow: int, attackersCol: int,
                          kingsRow: int, kingsCol: int,
                          ghost prev: Piece?, ghost ps: seq<Piece>, ghost v: View, ghost ep: Option<Pos>, ghost infos: seq<PieceInfo>)
    returns (r: bool)
    requires Scope(g, prev, ps, null, v, ep, infos, None)
    requires InBounds(attackersRow, attackersCol) && InBounds(kingsRow, kingsCol)
    ensures Scope(g, prev, ps, null, v, ep, infos, None)
    ensures r == Covered(g, piece.validSquares, Pos(attackersRow, attackersCol), Pos(kingsRow, kingsCol))
  {
    ghost var w := ViewOf(g);
    r := IntersectWalk(g, piece.validSquares, attackersRow, attackersCol, kingsRow, kingsCol);
    SameView(ViewOf(g), w);
  }

  /** The walk of canIntersectPath from the attacker's square towards the king's, over the piece's `squares`. */
  method IntersectWalk(g: array2<Square>, squares: seq<Square>, attackersRow: int, attackersCol: int,
                       kingsRow: int, kingsCol: int)
    returns (r: bool)
    requires Dims(g)
    requires InBounds(attackersRow, attackersCol) && InBounds(kingsRow, kingsCol)
    ensures r == Covered(g, squares, Pos(attackersRow, attackersCol), Pos(kingsRow, kingsCol))
  {
    // off a line the source's walk never reaches the king; no square lies between the two
    if !Aligned(attackersRow, attackersCol, kingsRow, kingsCol) {
      return false;
    }
    ghost var d: int := Dist(attackersRow, attackersCol, kingsRow, kingsCol);
    AlignedSpan(attackersRow, attackersCol, kingsRow, kingsCol);
    var rowIncrement := Compare(kingsRow, attackersRow);
    var colIncrement := Compare(kingsCol, attackersCol);
    var row, col := attackersRow + rowIncrement, attackersCol + colIncrement;
    ghost var t: int := 1;
    while row != kingsRow || col != kingsCol
      invariant 1 <= t && (t <= d || d == 0)
      invariant row == Step(attackersRow, kingsRow, t) && col == Step(attackersCol, kingsCol, t)
      invariant forall s | 0 < s < t :: !(OnPath(attackersRow, attackersCol, kingsRow, kingsCol, Step(attackersRow, kingsRow, s), Step(attackersCol, kingsCol, s)) &&
                                          g[Step(attackersRow, kingsRow, s), Step(attackersCol, kingsCol, s)] in squares)
      decreases d + 1 - t
    {
      assert t < d;
      if 0 <= row < BOARD_WIDTH && 0 <= col < BOARD_WIDTH {
        if g[row, col] in squares {
          assert OnPath(attackersRow, attackersCol, kingsRow, kingsCol, row, col);
          return true;
        }
      }
      row, col := row + rowIncrement, col + colIncrement;
      t := t + 1;
    }
    return false;
  }

  /**
   * The state kingCanEscape's loop keeps after `j` squares: the scan scope on the view
   * `cur`, the king unchanged, and the rest of the search giving the answer of the whole.
   */
  ghost predicate EscapePass(g: array2<Square>, prev: Piece?, ps: seq<Piece>, king: Piece, v: View, cur: View,
                             ep: Option<Pos>, infos: seq<PieceInfo>, info: PieceInfo, ctx: Ctx,
                             squares: seq<Square>, qs: seq<Pos>, j: nat)
    reads g, Cells(g)`isOccupied, Cells(g)`occupying, Occupants(g)`isWhite, Occupants(g)`isFirstMove
    reads Opt(prev)`epSquare, Opt(prev)`isFirstMove
    reads PieceSet(ps)`isWhite, PieceSet(ps)`isFirstMove, PieceSet(ps)`oldRow, PieceSet(ps)`oldCol
    reads king
  {
    Scope(g, prev, ps, king, cur, ep, infos, Some(PosOf(info))) && king.Info() == info && Placed(infos) &&
    ctx.prevEp == ep && WellFormed(v) && SquaresAt(g, squares, qs) && j <= |qs| &&
    EscapeFrom(v, info, infos, ctx, qs) == EscapeFrom(cur, info, infos, ctx, qs[j..])
  }

  /** The square of the first king of `ps`, read off the snapshots `infos` of its pieces. */
  function KingAt(ps: seq<Piece>, infos: seq<PieceInfo>): Option<Pos>
    requires |infos| == |ps|
  {
    if |ps| == 0 then None
    else if ps[0].kind == King then Some(PosOf(infos[0]))
    else KingAt(ps[1..], infos[1..])
  }

  /** Where the first king of a list stands is determined by the snapshots of the list. */
  lemma {:induction false} FirstKingAgree(ps: seq<Piece>, infos: seq<PieceInfo>)
    requires |infos| == |ps| && forall j | 0 <= j < |ps| :: infos[j] == ps[j].Info()
    ensures KingPos(FirstKing(ps)) == KingAt(ps, infos)
  {
    if |ps| > 0 && ps[0].kind != King {
      FirstKingAgree(ps[1..], infos[1..]);
    }
  }

  /** A piece recomputes its squares (setValidSquares); the board and the scanned pieces stay as they were. */
  method Refresh(g: array2<Square>, wIn: bool, bIn: bool, prev: Piece?, ps: seq<Piece>, king: Piece?, p: Piece,
                 ghost v: View, ghost ep: Option<Pos>, ghost infos: seq<PieceInfo>, ghost kp: Option<Pos>)
    requires Scope(g, prev, ps, king, v, ep, infos, kp)
    modifies p`validSquares, p`epSquare
    ensures Scope(g, prev, ps, king, v, ep, infos, kp)
    ensures p.Info() == old(p.Info())
    ensures SquaresAt(g, p.validSquares, ValidList(v, p.Info(), Ctx(wIn, bIn, ep)))
  {
    p.SetValidSquares(g, wIn, bIn, prev);
  }

  /**
   * The state kingMoveValid's loop keeps after `k` pieces: the scan scope, the king
   * unchanged, and the view and flag that KingLoop gives.
   */
  ghost predicate KingPass(g: array2<Square>, prev: Piece?, ps: seq<Piece>, king: Piece, v: View, cur: View, valid: bool,
                           ep: Option<Pos>, infos: seq<PieceInfo>, info: PieceInfo, ctx: Ctx, d: Pos, k: nat)
    reads g, Cells(g)`isOccupied, Cells(g)`occupying, Occupants(g)`isWhite, Occupants(g)`isFirstMove
    reads Opt(prev)`epSquare, Opt(prev)`isFirstMove
    reads PieceSet(ps)`isWhite, PieceSet(ps)`isFirstMove, PieceSet(ps)`oldRow, PieceSet(ps)`oldCol
    reads king
  {
    Scope(g, prev, ps, king, cur, ep, infos, Some(PosOf(info))) && king.Info() == info &&
    ctx.prevEp == ep && WellFormed(v) && InBounds(d.row, d.col) && k <= |ps| &&
    (cur, valid) == KingLoop(v, PosOf(info), CellOfInfo(info), infos, ctx, d, k)
  }

  /**
   * piece `k` recomputes its squares (setValidSquares) and the inner loop looks for
   * (r, c) among them (Game.java:373-379, Board.java:216-226).
   */
  method ScanFinds(g: array2<Square>, wIn: bool, bIn: bool, prev: Piece?, ps: seq<Piece>, k: nat, king: Piece?, r: int, c: int,
                   ghost w: View, ghost ep: Option<Pos>, ghost infos: seq<PieceInfo>, ghost kp: Option<Pos>, ghost ctx: Ctx)
    returns (found: bool)
    requires k < |ps| && Scope(g, prev, ps, king, w, ep, infos, kp) && ctx == Ctx(wIn, bIn, ep)
    modifies {ps[k]}`validSquares, {ps[k]}`epSquare
    ensures Scope(g, prev, ps, king, w, ep, infos, kp)
    ensures found <==> Pos(r, c) in ValidList(w, infos[k], ctx)
  {
    var piece := ps[k];
    piece.SetValidSquares(g, wIn, bIn, prev);
    ghost var qs := ValidList(w, infos[k], ctx);
    found := Visits(piece.validSquares, r, c);
    SameView(ViewOf(g), w);
    if found {
      var i :| 0 <= i < |piece.validSquares| && piece.validSquares[i].row == r && piece.validSquares[i].col == c;
      assert qs[i] == Pos(r, c);
    }
    if Pos(r, c) in qs {
      var i :| 0 <= i < |qs| && qs[i] == Pos(r, c);
      assert piece.validSquares[i] == g[r, c];
    }
  }

  /** The scan of a non-pawn in kingMoveValid: the king's origin is vacated first (Game.java:370-379). */
  method ScanVacated(g: array2<Square>, wIn: bool, bIn: bool, prev: Piece?, ps: seq<Piece>, k: nat, king: Piece, r: int, c: int,
                     ghost w: View, ghost ep: Option<Pos>, ghost infos: seq<PieceInfo>, ghost info: PieceInfo, ghost ctx: Ctx, ghost pool: set<Piece>)
    returns (found: bool)
    requires k < |ps| && info == king.Info() && ctx == Ctx(wIn, bIn, ep)
    requires Scope(g, prev, ps, king, w, ep, infos, Some(PosOf(info)))
    requires Within(g, pool)
    modifies g[info.row, info.col]`isOccupied, g[info.row, info.col]`occupying
    modifies {ps[k]}`validSquares, {ps[k]}`epSquare
    ensures Scope(g, prev, ps, king, Put(w, PosOf(info), Empty), ep, infos, Some(PosOf(info)))
    ensures Within(g, pool)
    ensures found <==> Pos(r, c) in ValidList(Put(w, PosOf(info), Empty), infos[k], ctx)
    ensures king.Info() == info
  {
    TakeKing(g, prev, ps, king, w, ep, infos, info, pool);
    found := ScanFinds(g, wIn, bIn, prev, ps, k, king, r, c, Put(w, PosOf(info), Empty), ep, infos, Some(PosOf(info)), ctx);
  }

  /** removeOccupying on the king's origin before a scan of kingMoveValid: the origin shows empty. */
  method TakeKing(g: array2<Square>, prev: Piece?, ps: seq<Piece>, king: Piece, ghost w: View, ghost ep: Option<Pos>,
                  ghost infos: seq<PieceInfo>, ghost info: PieceInfo, ghost pool: set<Piece>)
    requires info == king.Info() && Scope(g, prev, ps, king, w, ep, infos, Some(PosOf(info))) && Within(g, pool)
    modifies g[info.row, info.col]`isOccupied, g[info.row, info.col]`occupying
    ensures Scope(g, prev, ps, king, Put(w, PosOf(info), Empty), ep, infos, Some(PosOf(info))) && Within(g, pool)
    ensures king.Info() == info
  {
    Vacate(g, w, king.oldRow, king.oldCol);
    assert forall r, c | 0 <= r < BOARD_WIDTH && 0 <= c < BOARD_WIDTH && (r != info.row || c != info.col) ::
      g[r, c] != g[info.row, info.col];
    ReseatWithin(g, PosOf(info), pool);
  }

  /**
   * setOccupying(king, origin) and king.movePiece(origin) after a scan of kingMoveValid
   * or notMovingAProtector: the origin shows the piece again, which keeps its coordinates.
   */
  method PutKing(g: array2<Square>, prev: Piece?, ps: seq<Piece>, king: Piece, ghost w: View, ghost ep: Option<Pos>,
                 ghost infos: seq<PieceInfo>, ghost info: PieceInfo, ghost pool: set<Piece>)
    requires info == king.Info() && Scope(g, prev, ps, king, w, ep, infos, Some(PosOf(info)))
    requires Within(g, pool) && king in pool
    modifies g[info.row, info.col]`isOccupied, g[info.row, info.col]`occupying, king`oldRow, king`oldCol
    ensures Scope(g, prev, ps, king, Put(w, PosOf(info), CellOfInfo(info)), ep, infos, Some(PosOf(info))) && Within(g, pool)
    ensures king.Info() == info
  {
    Place(g, w, king.oldRow, king.oldCol, king);
    assert forall r, c | 0 <= r < BOARD_WIDTH && 0 <= c < BOARD_WIDTH && (r != info.row || c != info.col) ::
      g[r, c] != g[info.row, info.col];
    ReseatWithin(g, PosOf(info), pool);
  }

  /**
   * What a scan over the list `ps` keeps fixed: the board and its view, the en-passant
   * square of the previous piece, the snapshots of the scanned pieces and the king's square.
   */
  ghost predicate Scope(g: array2<Square>, prev: Piece?, ps: seq<Piece>, king: Piece?,
                        v: View, ep: Option<Pos>, infos: seq<PieceInfo>, kp: Option<Pos>)
    reads g, Cells(g)`isOccupied, Cells(g)`occupying, Occupants(g)`isWhite, Occupants(g)`isFirstMove
    reads Opt(prev)`epSquare, Opt(prev)`isFirstMove
    reads PieceSet(ps)`isWhite, PieceSet(ps)`isFirstMove, PieceSet(ps)`oldRow, PieceSet(ps)`oldCol
    reads Opt(king)`oldRow, Opt(king)`oldCol
  {
    GridOk(g) && Settled(prev) && v == ViewOf(g) && ep == EpOf(g, prev) &&
    |infos| == |ps| && (forall j | 0 <= j < |ps| :: infos[j] == ps[j].Info()) && kp == KingPos(king)
  }

  /** The flags, counter and attacker isInCheck keeps agree with the state `s` of its loop over `ps`. */
  predicate Tracks(s: Check, wIn: bool, bIn: bool, num: nat, checking: Piece?, ps: seq<Piece>) {
    wIn == s.wIn && bIn == s.bIn && num == s.num &&
    (s.checking.None? ==> checking == null) &&
    (s.checking.Some? ==> s.checking.value < |ps| && checking == ps[s.checking.value])
  }

  /**
   * The outer loop of isInCheck (Board.java:108-126), from cleared fields: the flags,
   * counter and attacker it leaves.  The flags it has set so far are what the
   * castling rule of each later scan reads.
   */
  method ScanPieces(g: array2<Square>, player: string, prev: Piece?, ps: seq<Piece>, king: Piece?,
                    ghost v: View, ghost ep: Option<Pos>, ghost infos: seq<PieceInfo>, ghost kp: Option<Pos>)
    returns (wIn: bool, bIn: bool, num: nat, checking: Piece?)
    requires Scope(g, prev, ps, king, v, ep, infos, kp) && Placed(infos)
    modifies PieceSet(ps)`validSquares, PieceSet(ps)`epSquare
    ensures Scope(g, prev, ps, king, v, ep, infos, kp)
    ensures Tracks(CheckScan(v, infos, ep, player == WHITE, kp, |ps|), wIn, bIn, num, checking, ps)
  {
    wIn, bIn, num, checking := false, false, 0, null;
    for k := 0 to |ps|
      invariant Scope(g, prev, ps, king, v, ep, infos, kp)
      invariant Tracks(CheckScan(v, infos, ep, player == WHITE, kp, k), wIn, bIn, num, checking, ps)
    {
      var h := CheckPiece(g, wIn, bIn, prev, ps, k, king, v, ep, infos, kp);
      if h > 0 {
        if player == WHITE {
          bIn := true;
        } else {
          wIn := true;
        }
        checking := ps[k];
        num := num + h;
      }
    }
  }

  /** One pass of the outer loop of isInCheck: piece `k` recomputes its squares and those on the king's are counted. */
  method CheckPiece(g: array2<Square>, wIn: bool, bIn: bool, prev: Piece?, ps: seq<Piece>, k: nat, king: Piece?,
                    ghost v: View, ghost ep: Option<Pos>, ghost infos: seq<PieceInfo>, ghost kp: Option<Pos>)
    returns (h: nat)
    requires k < |ps| && Scope(g, prev, ps, king, v, ep, infos, kp)
    modifies {ps[k]}`validSquares, {ps[k]}`epSquare
    ensures Scope(g, prev, ps, king, v, ep, infos, kp)
    ensures h == Hits(v, infos[k], Ctx(wIn, bIn, ep), kp)
  {
    ps[k].SetValidSquares(g, wIn, bIn, prev);
    h := CountHits(g, prev, ps, king, ps[k].validSquares, v, ep, infos, kp, ValidList(v, infos[k], Ctx(wIn, bIn, ep)));
  }

  /**
   * The inner loop of isInCheck (Board.java:110-125): the number of squares of the
   * list that stand where the king does.
   */
  method CountHits(g: array2<Square>, prev: Piece?, ps: seq<Piece>, king: Piece?, squares: seq<Square>,
                   ghost v: View, ghost ep: Option<Pos>, ghost infos: seq<PieceInfo>, ghost kp: Option<Pos>, ghost qs: seq<Pos>)
    returns (h: nat)
    requires Scope(g, prev, ps, king, v, ep, infos, kp) && SquaresAt(g, squares, qs)
    ensures Scope(g, prev, ps, king, v, ep, infos, kp)
    ensures h == if KingPos(king).None? then 0 else Count(qs, KingPos(king).value)
  {
    h := 0;
    for m := 0 to |squares|
      invariant h == if king == null then 0 else Count(qs[..m], Pos(king.oldRow, king.oldCol))
    {
      assert qs[..m + 1][..m] == qs[..m];
      var square := squares[m];
      assert square.row == qs[m].row && square.col == qs[m].col;
      if king != null && square.col == king.oldCol && square.row == king.oldRow {
        h := h + 1;
      }
    }
    assert qs[..|squares|] == qs;
  }

  /** The inner loop of kingMoveValid and canCaptureAttacker: some square of the list has coordinates (r, c). */
  method Visits(squares: seq<Square>, r: int, c: int) returns (found: bool)
    ensures found <==> exists i | 0 <= i < |squares| :: squares[i].row == r && squares[i].col == c
  {
    for i := 0 to |squares|
      invariant forall j | 0 <= j < i :: !(squares[j].row == r && squares[j].col == c)
    {
      if squares[i].row == r && squares[i].col == c {
        return true;
      }
    }
    return false;
  }

  /** The list-iterator removal of removePieceLogically: scan to the first identical element and cut it out. */
  method RemoveIdentical(ps: seq<Piece>, x: Piece) returns (r: seq<Piece>)
    ensures r == RemoveFirst(ps, x)
  {
    var i := 0;
    while i < |ps|
      invariant 0 <= i <= |ps| && forall j | 0 <= j < i :: ps[j] != x
    {
      if ps[i] == x {
        RemoveFirstAt(ps, x, i);
        return ps[..i] + ps[i + 1..];
      }
      i := i + 1;
    }
    RemoveFirstAbsent(ps, x);
    return ps;
  }
}
