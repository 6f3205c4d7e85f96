/**
 * Game.java: the controller that turns clicks into moves.  A click on a piece of the
 * player to move selects it; a click on a square then runs the four gates
 * (kingMoveValid, notMovingAProtector, moveValidity, and whenInCheck while a check
 * stands), commits the move (castling, capture or en passant, relocation), applies
 * silly mode's shift after a capture, recomputes the check state, looks for a
 * checkmate and passes the turn.  Labels, buttons, images and mouse handlers are not
 * modelled; gameOver's mouse-transparency is the flag `over`.
 */
module Games {
  import opened Core
  import opened Moves
  import opened Checks
  import opened Pieces
  import opened Boards
  import opened Silly
  import opened Shifts
  import opened Commits
  import opened Transforms
  import Setups
  import Layout

  /**
   * How a square click ends: nothing was selected; a gate refused the move; castling
   * or enPassant threw, which ends handleSquareClick early; or the move was made.
   */
  datatype Click = NoSelection | Rejected | Threw | Moved

  /** switchPlayer and getOppPlayer: "white" passes to "black", any other name to "white". */
  function Other(p: string): string {
    if p == WHITE then BLACK else WHITE
  }

  /** Passing the turn alternates between the two colours. */
  lemma OtherAlternates(p: string)
    requires p == WHITE || p == BLACK
    ensures Other(p) != p && (Other(p) == WHITE || Other(p) == BLACK) && Other(Other(p)) == p
  {
    assert WHITE[0] != BLACK[0];
  }

  /** The opponent of a player is the colour name of the other side. */
  lemma OtherIsOpposing(white: bool)
    ensures Other(ColorName(white)) == ColorName(!white) == OppPlayer(white)
  {
    assert WHITE[0] != BLACK[0];
  }

  /**
   * castling fires only when the clicked square holds a KING of the mover's colour
   * (Game.java:311 compares the "rook" with KING as well), and moveValidity of a king
   * never accepts such a square: on one and the same board the relocation of
   * Game.java:321-347 cannot follow a king move that passed the move rule.
   */
  lemma CastlingNeverAccepted(v: View, m: PieceInfo, ctx: Ctx, or: int, oc: int, nr: int, nc: int)
    requires WellFormed(v) && InBounds(or, oc) && InBounds(nr, nc) && m.kind == King
    requires v[nr][nc].Holds? && v[nr][nc].man.kind == King && v[nr][nc].man.white == m.white
    ensures !MoveRule(v, m, ctx, or, oc, nr, nc)
  {
  }

  // ---------------------------------------------------------------- notMovingAProtector

  /**
   * The state notMovingAProtector's loop keeps after `k` opposing pieces: the scan
   * scope on the view `cur`, the protector unmoved, and the view and attacker that
   * ProtectorLoop gives.
   */
  ghost predicate ProtectorPass(g: array2<Square>, prev: Piece?, ps: seq<Piece>, protector: Piece, v: View, cur: View,
                                att: Option<nat>, ep: Option<Pos>, infos: seq<PieceInfo>, info: PieceInfo, ctx: Ctx,
                                kp: Option<Pos>, k: nat)
    reads g, Cells(g)`isOccupied, Cells(g)`occupying, Occupants(g)`isWhite, Occupants(g)`isFirstMove
    reads Opt(prev)`epSquare, Opt(prev)`isFirstMove
    reads PieceSet(ps)`isWhite, PieceSet(ps)`isFirstMove, PieceSet(ps)`oldRow, PieceSet(ps)`oldCol
    reads protector
  {
    Scope(g, prev, ps, protector, cur, ep, infos, Some(PosOf(info))) && protector.Info() == info &&
    ctx.prevEp == ep && WellFormed(v) && Placed(infos) && k <= |ps| &&
    (cur, att) == ProtectorLoop(v, PosOf(info), CellOfInfo(info), infos, ctx, kp, k)
  }

  /**
   * One pass of notMovingAProtector's loop (Game.java:405-416): piece `k` recomputes
   * its squares and becomes the attacker if one of them is the king's square; then the
   * protector is set back onto its origin.
   */
  method ProtectorStep(g: array2<Square>, wIn: bool, bIn: bool, prev: Piece?, ps: seq<Piece>, k: nat, protector: Piece,
                       hasKing: bool, kr: int, kc: int, att: Option<nat>,
                       ghost v: View, ghost cur: View, ghost ep: Option<Pos>, ghost infos: seq<PieceInfo>,
                       ghost info: PieceInfo, ghost ctx: Ctx, ghost kp: Option<Pos>, ghost pool: set<Piece>)
    returns (att': Option<nat>, ghost cur': View)
    requires k < |ps| && ctx == Ctx(wIn, bIn, ep)
    requires (hasKing <==> kp.Some?) && (kp.Some? ==> kp.value == Pos(kr, kc))
    requires ProtectorPass(g, prev, ps, protector, v, cur, att, ep, infos, info, ctx, kp, k)
    requires Within(g, pool) && protector in pool
    modifies g[info.row, info.col]`isOccupied, g[info.row, info.col]`occupying, protector`oldRow, protector`oldCol
    modifies {ps[k]}`validSquares, {ps[k]}`epSquare
    ensures ProtectorPass(g, prev, ps, protector, v, cur', att', ep, infos, info, ctx, kp, k + 1)
    ensures Within(g, pool)
  {
    var found := false;
    if hasKing {
      found := ScanFinds(g, wIn, bIn, prev, ps, k, protector, kr, kc, cur, ep, infos, Some(PosOf(info)), ctx);
      CountPositive(ValidList(cur, infos[k], ctx), kp.value);
    } else {
      Refresh(g, wIn, bIn, prev, ps, protector, ps[k], cur, ep, infos, Some(PosOf(info)));
    }
    att' := if found then Some(k) else att;
    PutKing(g, prev, ps, protector, cur, ep, infos, info, pool);
    cur' := Put(cur, PosOf(info), CellOfInfo(info));
  }

  /**
   * The loop of notMovingAProtector (Game.java:404-417): the protector's origin is
   * vacated and each opposing piece of `ps` in turn recomputes its squares; `att` is
   * the last that attacks the king at `kp`.
   */
  method ProtectorAttackers(g: array2<Square>, wIn: bool, bIn: bool, prev: Piece?, ps: seq<Piece>, protector: Piece,
                            hasKing: bool, kr: int, kc: int, ghost v: View, ghost ep: Option<Pos>, ghost infos: seq<PieceInfo>,
                            ghost kp: Option<Pos>, ghost info: PieceInfo, ghost pool: set<Piece>)
    returns (att: Option<nat>, ghost cur: View)
    requires Scope(g, prev, ps, protector, v, ep, infos, KingPos(protector)) && info == protector.Info()
    requires (hasKing <==> kp.Some?) && (kp.Some? ==> kp.value == Pos(kr, kc) && InBounds(kr, kc))
    requires Within(g, pool) && protector in pool
    modifies g[protector.oldRow, protector.oldCol]`isOccupied, g[protector.oldRow, protector.oldCol]`occupying
    modifies protector`oldRow, protector`oldCol, PieceSet(ps)`validSquares, PieceSet(ps)`epSquare
    ensures ProtectorPass(g, prev, ps, protector, v, cur, att, ep, infos, info, Ctx(wIn, bIn, ep), kp, |ps|)
    ensures Within(g, pool)
  {
    ghost var ctx := Ctx(wIn, bIn, ep);
    TakeKing(g, prev, ps, protector, v, ep, infos, info, pool);
    cur := Put(v, PosOf(info), Empty);
    att := None;
    for k := 0 to |ps|
      invariant ProtectorPass(g, prev, ps, protector, v, cur, att, ep, infos, info, ctx, kp, k)
      invariant Within(g, pool)
    {
      att, cur := ProtectorStep(g, wIn, bIn, prev, ps, k, protector, hasKing, kr, kc, att, v, cur, ep, infos, info, ctx, kp, pool);
    }
  }

  /**
   * notMovingAProtector for a protector that is not a king (Game.java:403-427): its
   * origin is vacated, the opposing pieces `ps` are scanned for an attacker of the
   * king at `kp`, and with an attacker the move is safe when one of the protector's
   * squares lies between attacker and king (canIntersectPath).
   */
  method ProtectorScan(g: array2<Square>, wIn: bool, bIn: bool, prev: Piece?, ps: seq<Piece>, protector: Piece,
                       hasKing: bool, kr: int, kc: int,
                       ghost v: View, ghost ep: Option<Pos>, ghost infos: seq<PieceInfo>, ghost kp: Option<Pos>, ghost pool: set<Piece>)
    returns (safe: bool)
    requires Scope(g, prev, ps, protector, v, ep, infos, KingPos(protector))
    requires (hasKing <==> kp.Some?) && (kp.Some? ==> kp.value == Pos(kr, kc) && InBounds(kr, kc))
    requires Within(g, pool) && protector in pool
    modifies g[protector.oldRow, protector.oldCol]`isOccupied, g[protector.oldRow, protector.oldCol]`occupying
    modifies protector`oldRow, protector`oldCol, PieceSet(ps)`validSquares, PieceSet(ps)`epSquare
    ensures protector.Info() == old(protector.Info()) && Within(g, pool)
    ensures var (w, att) := ProtectorLoop(v, PosOf(old(protector.Info())), CellOfInfo(old(protector.Info())), infos,
                                          Ctx(wIn, bIn, ep), kp, |ps|);
      Scope(g, prev, ps, null, w, ep, infos, None) &&
      (safe <==> att.None? || (kp.Some? && Covered(g, protector.validSquares, PosOf(infos[att.value]), kp.value)))
  {
    ghost var info := protector.Info();
    var att, cur := ProtectorAttackers(g, wIn, bIn, prev, ps, protector, hasKing, kr, kc, v, ep, infos, kp, info, pool);
    safe := att.None?;
    if att.Some? {
      var attacker := ps[att.value];
      safe := CanIntersectPath(g, protector, attacker.oldRow, attacker.oldCol, kr, kc, prev, ps, cur, ep, infos);
    }
  }

  /**
   * restart keeps the selection (Game.java:144-150), and a Java piece judges its moves
   * on the board it was built with (Piece.java:19, 40).  White has moved its pawn from
   * (3, 6) to (3, 4) and selected the knight on (1, 7) before restarting.  On the
   * knight's own board (3, 6) is empty, so the knight accepts a click there; the new
   * board shows a white pawn on (3, 6), and the commit on it takes that pawn.
   */
  lemma StaleSelectionTakesOwn()
    ensures var knight := PieceInfo(Knight, true, true, true, 1, 7);
      var before := Put(Put(Layout.Opening(), Pos(3, 6), Empty), Pos(3, 4), Holds(Man(true, Pawn, false)));
      MoveRule(before, knight, Ctx(false, false, None), 1, 7, 3, 6) &&
      Layout.Opening()[1][7] == Holds(Man(true, Knight, true)) &&
      Layout.Opening()[3][6] == Holds(Man(true, Pawn, true)) &&
      CommitSpec(Layout.Opening(), Man(true, Knight, true), 1, 7, 3, 6, false, false, false, None, false).capture
  {
    var v := Layout.Opening();
    CommitMoves(v, Man(true, Knight, true), 1, 7, 3, 6, false, false, None, false);
  }

  /**
   * The game's own board decides instead, as MoveGate reads it: on the board restart
   * builds, the same knight is refused the square of its own pawn.
   */
  lemma FreshBoardRefuses(ctx: Ctx)
    ensures !MoveRule(Layout.Opening(), PieceInfo(Knight, true, true, true, 1, 7), ctx, 1, 7, 3, 6)
  {
    OwnSquareRefused(Layout.Opening(), PieceInfo(Knight, true, true, true, 1, 7), ctx, 1, 7, 3, 6);
  }

  /**
   * moveValidity of the selection `sel` from its square to `sq`, the third gate of
   * handleSquareClick (Game.java:228).  It writes no more than the selection's en-passant
   * square, so the board and every snapshot the last gate reads stay as they were.
   */
  method MoveGate(b: Board, sel: Piece, prev: Piece?, player: string, sq: Square,
                  ghost v: View, ghost ep: Option<Pos>, ghost si: PieceInfo, ghost kp: Option<Pos>,
                  ghost ctx: Ctx, ghost ai: Option<PieceInfo>, ghost foe: Option<PieceInfo>, ghost mopp: seq<PieceInfo>,
                  ghost pool: set<Piece>)
    returns (mv: bool)
    requires GridOk(b.grid) && v == ViewOf(b.grid) && si == sel.Info() &&
      Within(b.grid, pool) && b.Pool() <= pool && kp == KingPos(FirstKing(b.GetPieces(player))) && ai == InfoOf(b.checking) &&
      foe == InfoOf(FirstKing(b.Opposing(OppPlayer(si.white)))) && |mopp| == |b.GetPieces(OppPlayer(si.white))| &&
      forall j | 0 <= j < |mopp| :: mopp[j] == b.GetPieces(OppPlayer(si.white))[j].Info()
    requires Settled(prev) && ep == EpOf(b.grid, prev)
    requires ctx == Ctx(b.wInCheck, b.bInCheck, ep)
    modifies sel`epSquare
    ensures mv == MoveRule(v, si, ctx, si.row, si.col, sq.row, sq.col)
    ensures GridOk(b.grid) && v == ViewOf(b.grid) && si == sel.Info() &&
      Within(b.grid, pool) && b.Pool() <= pool && kp == KingPos(FirstKing(b.GetPieces(player))) && ai == InfoOf(b.checking) &&
      foe == InfoOf(FirstKing(b.Opposing(OppPlayer(si.white)))) && |mopp| == |b.GetPieces(OppPlayer(si.white))| &&
      forall j | 0 <= j < |mopp| :: mopp[j] == b.GetPieces(OppPlayer(si.white))[j].Info()
    ensures Settled(prev) && EpOf(b.grid, prev) == ep
  {
    mv := sel.MoveValidity(b.grid, v, b.wInCheck, b.bInCheck, prev, ctx, sel.oldRow, sel.oldCol, sq.row, sq.col);
  }

  /**
   * The last two gates of handleSquareClick (Game.java:228-231) on board `b` for the
   * selection `sel` of `player`: moveValidity from its square to `sq`, then, while a
   * check stands, whenInCheck with getCurrKing's square `kp`, the checking piece `ai`, the
   * mover's own king `foe` and the pieces `mopp` of the mover's opponent.
   */
  method LastGates(b: Board, sel: Piece, prev: Piece?, player: string, sq: Square,
                   ghost v: View, ghost ep: Option<Pos>, ghost si: PieceInfo, ghost kp: Option<Pos>,
                   ghost ctx: Ctx, ghost ai: Option<PieceInfo>, ghost foe: Option<PieceInfo>, ghost mopp: seq<PieceInfo>,
                   ghost pool: set<Piece>)
    returns (mv: bool, wic: bool)
    requires GridOk(b.grid) && Settled(prev) && v == ViewOf(b.grid) && ep == EpOf(b.grid, prev)
    requires Within(b.grid, pool) && b.Pool() <= pool
    requires ctx == Ctx(b.wInCheck, b.bInCheck, ep)
    requires si == sel.Info() && kp == KingPos(FirstKing(b.GetPieces(player)))
    requires ai == InfoOf(b.checking) && foe == InfoOf(FirstKing(b.Opposing(OppPlayer(si.white))))
    requires mopp == InfosOf(b.GetPieces(OppPlayer(si.white)))
    modifies sel`epSquare, Cells(b.grid)`isOccupied, Cells(b.grid)`occupying
    modifies Opt(FirstKing(b.Opposing(OppPlayer(si.white))))`oldRow
    modifies Opt(FirstKing(b.Opposing(OppPlayer(si.white))))`oldCol
    modifies b.Pool()`validSquares, b.Pool()`epSquare
    ensures GridOk(b.grid) && Settled(prev) && EpOf(b.grid, prev) == ep && Within(b.grid, pool)
    ensures mv == MoveRule(v, si, ctx, si.row, si.col, sq.row, sq.col)
    ensures !b.GetCheck() ==> wic && ViewOf(b.grid) == v
    ensures b.GetCheck() ==>
      (ViewOf(b.grid), wic) == WhenInCheckSpec(v, si, si.row, si.col, Pos(sq.row, sq.col), kp, ai, foe, mopp, ctx)
  {
    var king := FirstKing(b.GetPieces(player));
    var or, oc := sel.oldRow, sel.oldCol;
    mv := MoveGate(b, sel, prev, player, sq, v, ep, si, kp, ctx, ai, foe, mopp, pool);
    wic := true;
    if b.GetCheck() {
      wic := b.WhenInCheck(sel, king, prev, or, oc, sq.row, sq.col, v, ep, si, kp, ai, foe, mopp, ctx, pool);
    }
  }

  /**
   * The two scans of updateCheck (Game.java:775-785) on board `b`: isInCheck(black), and
   * only when black's pieces give no check, isInCheck(white).  `bs` and `wk` are black's
   * pieces and white's king as the first scan reads them, `ws` and `bk` white's pieces and
   * black's king as the second does; the board stays as it was.
   */
  method ScanChecks(b: Board, prev: Piece?, ghost v: View, ghost ep: Option<Pos>)
    returns (ghost bs: seq<PieceInfo>, ghost wk: Option<Pos>, ghost ws: seq<PieceInfo>, ghost bk: Option<Pos>)
    requires GridOk(b.grid) && Settled(prev) && v == ViewOf(b.grid) && ep == EpOf(b.grid, prev)
    modifies b`wInCheck, b`bInCheck, b`numCheck, b`checking, b.Pool()`validSquares, b.Pool()`epSquare
    ensures GridOk(b.grid) && Settled(prev) && ViewOf(b.grid) == v && EpOf(b.grid, prev) == ep
    ensures bs == old(InfosOf(b.blackPieces)) && wk == old(KingPos(FirstKing(b.whitePieces)))
    ensures ws == old(InfosOf(b.whitePieces)) && bk == old(KingPos(FirstKing(b.blackPieces)))
    ensures b.numCheck == 1 ==> b.checking != null
    ensures var sb := CheckScan(v, bs, ep, false, wk, |bs|);
      (sb.wIn || sb.bIn ==> b.Reports(sb, b.blackPieces)) &&
      (!(sb.wIn || sb.bIn) ==> b.Reports(CheckScan(v, ws, ep, true, bk, |ws|), b.whitePieces))
  {
    var blackChecks;
    blackChecks, bs, wk := ScanSide(b, BLACK, prev, v, ep);
    ws, bk := InfosOf(b.whitePieces), KingPos(FirstKing(b.blackPieces));
    if !blackChecks {
      var _, ws', bk' := ScanSide(b, WHITE, prev, v, ep);
      ws, bk := ws', bk';
    }
  }

  /**
   * One isInCheck(player) scan of updateCheck on board `b`: `ps` is the player's pieces
   * and `kp` the square of the opposing king, as the scan reads them.
   */
  method ScanSide(b: Board, player: string, prev: Piece?, ghost v: View, ghost ep: Option<Pos>)
    returns (r: bool, ghost ps: seq<PieceInfo>, ghost kp: Option<Pos>)
    requires player == WHITE || player == BLACK
    requires GridOk(b.grid) && Settled(prev) && v == ViewOf(b.grid) && ep == EpOf(b.grid, prev)
    modifies b`wInCheck, b`bInCheck, b`numCheck, b`checking, b.Pool()`validSquares, b.Pool()`epSquare
    ensures GridOk(b.grid) && Settled(prev) && ViewOf(b.grid) == v && EpOf(b.grid, prev) == ep
    ensures ps == old(InfosOf(b.GetPieces(player))) && kp == old(KingPos(FirstKing(b.Opposing(player))))
    ensures InfosOf(b.whitePieces) == old(InfosOf(b.whitePieces)) && KingPos(FirstKing(b.blackPieces)) == old(KingPos(FirstKing(b.blackPieces)))
    ensures b.numCheck == 1 ==> b.checking != null
    ensures var s := CheckScan(v, ps, ep, player == WHITE, kp, |ps|);
      b.Reports(s, b.GetPieces(player)) && r == (s.wIn || s.bIn)
  {
    ps, kp := InfosOf(b.GetPieces(player)), KingPos(FirstKing(b.Opposing(player)));
    CheckScanFlags(v, ps, ep, player == WHITE, kp, |ps|);
    r := b.IsInCheck(player, prev, v, ep);
  }

  /**
   * The two searches of gameOver (Game.java:791-806) on board `b`: isCheckmate(white),
   * and only when it finds no mate, isCheckmate(black) on the board the first search
   * leaves.  `wm` is the first search's board and verdict.  The first search puts
   * black's king back, so the second reads the pieces as they were.
   */
  method MateSearch(b: Board, prev: Piece?, ghost v: View, ghost ep: Option<Pos>, ghost pool: set<Piece>,
                    ghost ck: Option<PieceInfo>, ghost wk: Option<PieceInfo>, ghost bk: Option<PieceInfo>,
                    ghost wkp: Option<Pos>, ghost bkp: Option<Pos>, ghost ws: seq<PieceInfo>, ghost bs: seq<PieceInfo>,
                    ghost ctx: Ctx)
    returns (found: bool, ghost wm: (View, bool))
    requires GridOk(b.grid) && Settled(prev) && v == ViewOf(b.grid) && ep == EpOf(b.grid, prev)
    requires b.numCheck == 1 ==> b.checking != null
    requires Within(b.grid, pool) && b.Pool() <= pool
    requires ck == InfoOf(b.checking) && ctx == b.CtxOf(prev)
    requires wk == InfoOf(FirstKing(b.whitePieces)) && bk == InfoOf(FirstKing(b.blackPieces))
    requires wkp == KingPos(FirstKing(b.whitePieces)) && bkp == KingPos(FirstKing(b.blackPieces))
    requires ws == InfosOf(b.whitePieces) && bs == InfosOf(b.blackPieces)
    modifies Cells(b.grid)`isOccupied, Cells(b.grid)`occupying
    modifies Opt(FirstKing(b.whitePieces))`oldRow, Opt(FirstKing(b.whitePieces))`oldCol
    modifies Opt(FirstKing(b.blackPieces))`oldRow, Opt(FirstKing(b.blackPieces))`oldCol
    modifies b.Pool()`validSquares, b.Pool()`epSquare
    ensures GridOk(b.grid) && Settled(prev) && EpOf(b.grid, prev) == ep && Within(b.grid, pool)
    ensures wm == Mate(v, b.numCheck, ck, bk, wkp, ws, ctx)
    ensures (ViewOf(b.grid), found) == GameOverSpec(v, b.numCheck, ck, wk, bk, wkp, bkp, ws, bs, ctx)
  {
    found, wm := WhiteSearch(b, prev, v, ep, pool);
    if !found {
      found := BlackSearch(b, prev, wm.0, ep, pool, ck, wk, bkp, bs, ctx);
    }
  }

  /**
   * The first search of gameOver, isCheckmate(white), on board `b`.  It puts black's king
   * back and leaves every piece's fields as they were, so what the second search reads is
   * unchanged.
   */
  method WhiteSearch(b: Board, prev: Piece?, ghost v: View, ghost ep: Option<Pos>, ghost pool: set<Piece>)
    returns (found: bool, ghost wm: (View, bool))
    requires GridOk(b.grid) && Settled(prev) && v == ViewOf(b.grid) && ep == EpOf(b.grid, prev)
    requires b.numCheck == 1 ==> b.checking != null
    requires Within(b.grid, pool) && b.Pool() <= pool
    modifies Cells(b.grid)`isOccupied, Cells(b.grid)`occupying
    modifies Opt(FirstKing(b.blackPieces))`oldRow, Opt(FirstKing(b.blackPieces))`oldCol
    modifies b.Pool()`validSquares, b.Pool()`epSquare
    ensures GridOk(b.grid) && Settled(prev) && EpOf(b.grid, prev) == ep && Within(b.grid, pool)
    ensures wm == old(Mate(v, b.numCheck, InfoOf(b.checking), InfoOf(FirstKing(b.blackPieces)),
                           KingPos(FirstKing(b.whitePieces)), InfosOf(b.whitePieces), b.CtxOf(prev)))
    ensures wm == (ViewOf(b.grid), found)
    ensures InfoOf(b.checking) == old(InfoOf(b.checking)) && b.CtxOf(prev) == old(b.CtxOf(prev))
    ensures InfoOf(FirstKing(b.whitePieces)) == old(InfoOf(FirstKing(b.whitePieces)))
    ensures KingPos(FirstKing(b.blackPieces)) == old(KingPos(FirstKing(b.blackPieces)))
    ensures InfosOf(b.blackPieces) == old(InfosOf(b.blackPieces))
  {
    ghost var bs := InfosOf(b.blackPieces);
    ghost var ai, foe, kk, own;
    found, ai, foe, kk, own := MateSide(b, WHITE, prev, v, ep, pool);
    wm := (ViewOf(b.grid), found);
    InfosAgree(b.blackPieces, bs);
  }

  /** The second search of gameOver, isCheckmate(black), on the board `v` the first left. */
  method BlackSearch(b: Board, prev: Piece?, ghost v: View, ghost ep: Option<Pos>, ghost pool: set<Piece>,
                     ghost ck: Option<PieceInfo>, ghost wk: Option<PieceInfo>, ghost bkp: Option<Pos>,
                     ghost bs: seq<PieceInfo>, ghost ctx: Ctx)
    returns (found: bool)
    requires GridOk(b.grid) && Settled(prev) && v == ViewOf(b.grid) && ep == EpOf(b.grid, prev)
    requires b.numCheck == 1 ==> b.checking != null
    requires Within(b.grid, pool) && b.Pool() <= pool
    requires ck == InfoOf(b.checking) && wk == InfoOf(FirstKing(b.whitePieces)) && bkp == KingPos(FirstKing(b.blackPieces))
    requires bs == InfosOf(b.blackPieces) && ctx == b.CtxOf(prev)
    modifies Cells(b.grid)`isOccupied, Cells(b.grid)`occupying
    modifies Opt(FirstKing(b.whitePieces))`oldRow, Opt(FirstKing(b.whitePieces))`oldCol
    modifies b.Pool()`validSquares, b.Pool()`epSquare
    ensures GridOk(b.grid) && Settled(prev) && EpOf(b.grid, prev) == ep && Within(b.grid, pool)
    ensures (ViewOf(b.grid), found) == Mate(v, b.numCheck, ck, wk, bkp, bs, ctx)
  {
    ghost var ai, foe, kk, own;
    found, ai, foe, kk, own := MateSide(b, BLACK, prev, v, ep, pool);
  }

  /**
   * One isCheckmate(player) search of gameOver on board `b`: `ai` is the checking piece,
   * `foe` the king opposite `player`, `kk` the square of `player`'s own king and `own` the
   * player's pieces, as the search reads them.
   */
  method MateSide(b: Board, player: string, prev: Piece?, ghost v: View, ghost ep: Option<Pos>, ghost pool: set<Piece>)
    returns (r: bool, ghost ai: Option<PieceInfo>, ghost foe: Option<PieceInfo>, ghost kk: Option<Pos>,
             ghost own: seq<PieceInfo>)
    requires player == WHITE || player == BLACK
    requires GridOk(b.grid) && Settled(prev) && v == ViewOf(b.grid) && ep == EpOf(b.grid, prev)
    requires b.numCheck == 1 ==> b.checking != null
    requires Within(b.grid, pool) && b.Pool() <= pool
    modifies Cells(b.grid)`isOccupied, Cells(b.grid)`occupying
    modifies Opt(FirstKing(b.Opposing(player)))`oldRow, Opt(FirstKing(b.Opposing(player)))`oldCol
    modifies b.Pool()`validSquares, b.Pool()`epSquare
    ensures GridOk(b.grid) && Settled(prev) && EpOf(b.grid, prev) == ep && Within(b.grid, pool)
    ensures b.numCheck == 1 ==> b.checking != null
    ensures InfoOf(FirstKing(b.Opposing(player))) == old(InfoOf(FirstKing(b.Opposing(player))))
    ensures forall p: Piece | p in pool + Opt(b.checking) :: p.Info() == old(p.Info())
    ensures ai == old(InfoOf(b.checking)) && foe == old(InfoOf(FirstKing(b.Opposing(player)))) &&
      kk == old(KingPos(FirstKing(b.GetPieces(player)))) && own == old(InfosOf(b.GetPieces(player)))
    ensures (ViewOf(b.grid), r) == Mate(v, b.numCheck, ai, foe, kk, own, Ctx(b.wInCheck, b.bInCheck, ep))
    ensures r ==> b.GetCheck()
  {
    ai, foe := InfoOf(b.checking), InfoOf(FirstKing(b.Opposing(player)));
    kk, own := KingPos(FirstKing(b.GetPieces(player))), InfosOf(b.GetPieces(player));
    r := b.IsCheckmate(player, prev, v, ep, pool);
  }

  /**
   * The commit stanza of handleSquareClick (Game.java:233-251) on board `b` for the
   * selection `sel`, read at (or, oc), and the clicked square `sq`: castling, capture or
   * enPassant and the relocation, then setFirstMove(false) unless a throw ended the click.
   */
  method CommitClick(b: Board, sel: Piece, prev: Piece?, sq: Square, castle0: bool, inCheck: bool, or: Coord, oc: Coord,
                ghost pool: set<Piece>)
    returns (castle: bool, captured: Piece?, aborted: bool)
    requires GridOk(b.grid) && Within(b.grid, pool) && b.Pool() <= pool && sel in pool && sq in Cells(b.grid)
    requires Settled(prev)
    modifies Cells(b.grid)`isOccupied, Cells(b.grid)`occupying, b`whitePieces, b`blackPieces
    modifies pool`oldRow, pool`oldCol, sel`isFirstMove
    ensures GridOk(b.grid) && Within(b.grid, pool) && b.Pool() <= pool && Settled(prev)
    ensures captured != null ==> captured in pool
    ensures !aborted ==> !sel.isFirstMove
    ensures !castle && !aborted ==> b.grid[sq.row, sq.col].occupying == sel && sel.oldRow == sq.row && sel.oldCol == sq.col
  {
    SquareIdentity(b.grid, sq, sq.row, sq.col);
    ghost var pawns := prev != null && prev.kind == Pawn && sel.kind == Pawn;
    ghost var pw := prev != null && prev.isWhite;
    castle, captured, aborted := CommitMove(b, sel, prev, sq, castle0, inCheck, or, oc, ManOf(sel), pawns, pw,
                                            ViewOf(b.grid), EpOf(b.grid, prev), pool);
    if !aborted {
      Retire(b, sel, sq.row, sq.col, prev, pool);
    }
  }

  /** setFirstMove(false) on the piece `sel` that has just moved; the squares keep their occupants. */
  method Retire(b: Board, sel: Piece, r: Coord, c: Coord, prev: Piece?, ghost pool: set<Piece>)
    requires GridOk(b.grid) && Within(b.grid, pool) && Settled(prev)
    modifies sel`isFirstMove
    ensures GridOk(b.grid) && Within(b.grid, pool) && !sel.isFirstMove && Settled(prev)
    ensures b.grid[r, c].occupying == old(b.grid[r, c].occupying)
  {
    sel.SetFirstMove(false);
  }

  // ---------------------------------------------------------------- the game

  /** A new board, with `all` its pieces and occupants. */
  method NewBoard() returns (b: Board, ghost all: set<Piece>)
    ensures fresh(b) && b.Opened() && GridOk(b.grid) && !b.GetCheck()
    ensures Within(b.grid, all) && b.Pool() <= all
  {
    b := new Board();
    WithinOccupants(b.grid);
    all := b.Pool() + Occupants(b.grid);
  }

  /**
   * Game.java's controller state.  `pieces` is every piece the game has been handed or
   * has created: the board's occupants, its lists and the remembered selections stay
   * inside it, which is what lets a method name the pieces it may move.
   */
  class Game {
    var board: Board
    var clickedSquare: Square?
    var selectedPiece: Piece?
    var prevSelectedPiece: Piece?
    var currentPlayer: string
    var isSilly: bool
    var castle: bool
    /**
     * gameOver has made the 64 squares and the listed pieces ignore clicks.  A piece
     * demoted into black is never listed, so it still takes clicks.
     */
    var over: bool
    ghost var pieces: set<Piece>

    /** What every operation keeps: a consistent board whose pieces and selections stay inside `pieces`. */
    ghost predicate Valid()
      reads this`board, this`pieces, this`selectedPiece, this`prevSelectedPiece, this`currentPlayer, board`whitePieces, board`blackPieces, board.grid
      reads Cells(board.grid)`isOccupied, Cells(board.grid)`occupying, Opt(prevSelectedPiece)`isFirstMove
    {
      GridOk(board.grid) && Within(board.grid, pieces) && Linked()
    }

    /** The part of Valid that the squares do not affect: the lists and selections inside `pieces`, a known player. */
    ghost predicate Linked()
      reads this`board, this`pieces, this`selectedPiece, this`prevSelectedPiece, this`currentPlayer, board`whitePieces, board`blackPieces, Opt(prevSelectedPiece)`isFirstMove
    {
      board.Pool() <= pieces && Opt(selectedPiece) <= pieces && Opt(prevSelectedPiece) <= pieces &&
      Settled(prevSelectedPiece) && (currentPlayer == WHITE || currentPlayer == BLACK)
    }

    /** The Game constructor (Game.java:43-58): white to move, nothing selected, basic mode, a new board. */
    constructor ()
      ensures Valid() && fresh(board) && !board.GetCheck()
      ensures currentPlayer == WHITE && selectedPiece == null && prevSelectedPiece == null && clickedSquare == null
      ensures !isSilly && !castle && !over
    {
      var b, all := NewBoard();
      board, pieces := b, all;
      selectedPiece, prevSelectedPiece, clickedSquare := null, null, null;
      currentPlayer, isSilly, castle, over := WHITE, false, false, false;
    }

    /**
     * restart (Game.java:144-150): a new board in the opening position with white to
     * move.  The selections are left as they were, so they may name pieces of the old
     * board.
     */
    method Restart()
      requires Valid()
      modifies this`board, this`currentPlayer, this`over, this`pieces
      ensures Valid() && fresh(board) && board.Opened()
      ensures currentPlayer == WHITE && !over && old(pieces) <= pieces
    {
      currentPlayer := WHITE;
      over := false;
      var b := new Board();
      WithinOccupants(b.grid);
      ghost var all := pieces + b.Pool() + Occupants(b.grid);
      assert Within(b.grid, all);
      Adopt(b, all);
    }

    /** The new board of restart takes the place of the old one; `all` takes in its pieces. */
    method Adopt(b: Board, ghost all: set<Piece>)
      requires b.Opened()
      requires Within(b.grid, all) && b.Pool() <= all
      requires Opt(selectedPiece) <= all && Opt(prevSelectedPiece) <= all && Settled(prevSelectedPiece)
      requires currentPlayer == WHITE && !over && pieces <= all
      modifies this`board, this`pieces
      ensures board == b && old(pieces) <= pieces && currentPlayer == WHITE && !over && Valid()
      ensures board.Opened()
    {
      board, pieces := b, all;
    }

    /** sillyMode (Game.java:169-172): silly mode on, then a restart. */
    method SillyMode()
      requires Valid()
      modifies this`isSilly, this`board, this`currentPlayer, this`over, this`pieces
      ensures Valid() && fresh(board) && board.Opened()
      ensures isSilly && currentPlayer == WHITE && !over
    {
      isSilly := true;
      Restart();
    }

    /** basicMode (Game.java:191-194): silly mode off, then a restart. */
    method BasicMode()
      requires Valid()
      modifies this`isSilly, this`board, this`currentPlayer, this`over, this`pieces
      ensures Valid() && fresh(board) && board.Opened()
      ensures !isSilly && currentPlayer == WHITE && !over
    {
      isSilly := false;
      Restart();
    }

    /**
     * handlePieceClick (Game.java:202-207): with nothing selected, a piece of the player
     * to move becomes the selection; any other click leaves the selection alone.  The
     * castling flag is cleared.  The game may be over: an unlisted piece still takes
     * clicks then (Game.java:733, 765, 793-797).
     */
    method HandlePieceClick(clicked: Piece)
      requires Valid()
      modifies this`selectedPiece, this`castle, this`pieces
      ensures Valid() && !castle
      ensures old(selectedPiece) == null && clicked.isWhite == (currentPlayer == WHITE) ==> selectedPiece == clicked
      ensures !(old(selectedPiece) == null && clicked.isWhite == (currentPlayer == WHITE)) ==>
        selectedPiece == old(selectedPiece)
    {
      pieces := pieces + {clicked};
      ColorNameInjective(clicked.isWhite, true);
      ColorNameInjective(clicked.isWhite, false);
      if selectedPiece == null && clicked.GetColor() == currentPlayer {
        selectedPiece := clicked;
      }
      castle := false;
    }

    /**
     * kingMoveValid(getOppPlayer(), selectedPiece, sq) (Game.java:225) for a selected
     * king, against the opponent's pieces `opp`.
     */
    method KingGate(sq: Square, ghost v: View, ghost ep: Option<Pos>, ghost si: PieceInfo, ghost opp: seq<PieceInfo>,
                    ghost ctx: Ctx)
      returns (kmv: bool)
      requires Valid() && selectedPiece != null && sq in Cells(board.grid)
      requires v == ViewOf(board.grid) && ep == EpOf(board.grid, prevSelectedPiece)
      requires ctx == Ctx(board.wInCheck, board.bInCheck, ep)
      requires si == selectedPiece.Info() && opp == InfosOf(board.GetPieces(GetOppPlayer()))
      modifies Cells(board.grid)`isOccupied, Cells(board.grid)`occupying, selectedPiece`oldRow, selectedPiece`oldCol
      modifies PieceSet(board.GetPieces(GetOppPlayer()))`validSquares, PieceSet(board.GetPieces(GetOppPlayer()))`epSquare
      ensures Valid() && selectedPiece.Info() == si && EpOf(board.grid, prevSelectedPiece) == ep
      ensures (ViewOf(board.grid), kmv) == KingMoveSpec(v, si, opp, ctx, Pos(sq.row, sq.col))
      ensures InfosOf(board.GetPieces(GetOppPlayer())) == opp
      ensures si.kind != King ==>
        KingPos(FirstKing(board.GetPieces(currentPlayer))) == old(KingPos(FirstKing(board.GetPieces(currentPlayer))))
    {
      kmv := board.KingMoveValid(GetOppPlayer(), selectedPiece, sq, prevSelectedPiece, v, ep, opp, pieces);
      InfosAgree(board.GetPieces(GetOppPlayer()), opp);
    }

    /**
     * notMovingAProtector(getOppPlayer()) (Game.java:399-429): a selected king passes
     * untouched; any other selection is scanned against the opponent's pieces `opp`,
     * with `kp` the current player's king.
     */
    method ProtectorGate(ghost v: View, ghost ep: Option<Pos>, ghost si: PieceInfo, ghost opp: seq<PieceInfo>,
                         ghost kp: Option<Pos>, ghost ctx: Ctx)
      returns (nmp: bool)
      requires Valid() && selectedPiece != null
      requires v == ViewOf(board.grid) && ep == EpOf(board.grid, prevSelectedPiece)
      requires ctx == Ctx(board.wInCheck, board.bInCheck, ep)
      requires si == selectedPiece.Info() && opp == InfosOf(board.GetPieces(GetOppPlayer()))
      requires si.kind != King ==> kp == KingPos(FirstKing(board.GetPieces(currentPlayer)))
      modifies Cells(board.grid)`isOccupied, Cells(board.grid)`occupying, selectedPiece`oldRow, selectedPiece`oldCol
      modifies PieceSet(board.GetPieces(GetOppPlayer()))`validSquares, PieceSet(board.GetPieces(GetOppPlayer()))`epSquare
      ensures Valid() && selectedPiece.Info() == si && EpOf(board.grid, prevSelectedPiece) == ep
      ensures si.kind == King ==> nmp && ViewOf(board.grid) == v
      ensures si.kind != King ==>
        var (w, att) := ProtectorLoop(v, PosOf(si), CellOfInfo(si), opp, ctx, kp, |opp|);
        ViewOf(board.grid) == w &&
        (nmp <==> att.None? || (kp.Some? && Covered(board.grid, selectedPiece.validSquares, PosOf(opp[att.value]), kp.value)))
    {
      nmp := true;
      if selectedPiece.GetType() != TypeName(King) {
        var king := FirstKing(board.GetPieces(currentPlayer));
        var kr, kc := 0, 0;
        if king != null {
          kr, kc := king.oldRow, king.oldCol;
        }
        nmp := ProtectorScan(board.grid, board.wInCheck, board.bInCheck, prevSelectedPiece, board.GetPieces(GetOppPlayer()),
                             selectedPiece, king != null, kr, kc, v, ep, opp, kp, pieces);
      }
    }

    /**
     * The four gates of handleSquareClick (Game.java:225-233) for the selection and the
     * clicked square `sq`, in the source's order: kingMoveValid, notMovingAProtector,
     * moveValidity and, while a check stands, whenInCheck.  `seen` is the board
     * moveValidity reads; a move that passes obeys the move rule on it.
     */
    method Gates(sq: Square) returns (ok: bool, ghost seen: View)
      requires Valid() && selectedPiece != null && sq in Cells(board.grid)
      modifies Cells(board.grid)`isOccupied, Cells(board.grid)`occupying
      modifies pieces`oldRow, pieces`oldCol, pieces`validSquares, pieces`epSquare
      ensures Valid() && WellFormed(seen)
      ensures ok ==> MoveRule(seen, old(selectedPiece.Info()), old(board.CtxOf(prevSelectedPiece)),
                              old(selectedPiece.oldRow), old(selectedPiece.oldCol), sq.row, sq.col)
      ensures !board.GetCheck() ==> ViewOf(board.grid) == seen
      ensures old(Restoring(ViewOf(board.grid), selectedPiece.Info(), InfosOf(board.GetPieces(GetOppPlayer())))) ==>
        seen == old(ViewOf(board.grid)) && (!board.GetCheck() ==> ViewOf(board.grid) == old(ViewOf(board.grid)))
    {
      var kmv, nmp := FirstGates(sq);
      seen := ViewOf(board.grid);
      var mv, wic := EndGates(sq);
      ok := mv && kmv && wic && nmp;
    }

    /**
     * The last two gates of handleSquareClick (Game.java:228-231) for the selection and
     * the clicked square `sq`, on the board the first two left.
     */
    method EndGates(sq: Square) returns (mv: bool, wic: bool)
      requires Valid() && selectedPiece != null && sq in Cells(board.grid)
      modifies Cells(board.grid)`isOccupied, Cells(board.grid)`occupying
      modifies pieces`oldRow, pieces`oldCol, pieces`validSquares, pieces`epSquare
      ensures Valid()
      ensures mv == old(MoveRule(ViewOf(board.grid), selectedPiece.Info(), board.CtxOf(prevSelectedPiece),
                                 selectedPiece.oldRow, selectedPiece.oldCol, sq.row, sq.col))
      ensures !board.GetCheck() ==> wic && ViewOf(board.grid) == old(ViewOf(board.grid))
    {
      ghost var si := selectedPiece.Info();
      mv, wic := LastGates(board, selectedPiece, prevSelectedPiece, currentPlayer, sq, ViewOf(board.grid),
                           EpOf(board.grid, prevSelectedPiece), si,
                           KingPos(FirstKing(board.GetPieces(currentPlayer))), board.CtxOf(prevSelectedPiece),
                           InfoOf(board.checking), InfoOf(FirstKing(board.Opposing(OppPlayer(si.white)))),
                           InfosOf(board.GetPieces(OppPlayer(si.white))), pieces);
    }

    /**
     * The first two gates of handleSquareClick (Game.java:225-227), kingMoveValid and
     * notMovingAProtector, each against the opponent's pieces as they stand when it
     * runs.  Both put the selection back where it was.
     */
    method FirstGates(sq: Square) returns (kmv: bool, nmp: bool)
      requires Valid() && selectedPiece != null && sq in Cells(board.grid)
      modifies Cells(board.grid)`isOccupied, Cells(board.grid)`occupying
      modifies pieces`oldRow, pieces`oldCol, pieces`validSquares, pieces`epSquare
      ensures Valid() && selectedPiece.Info() == old(selectedPiece.Info())
      ensures EpOf(board.grid, prevSelectedPiece) == old(EpOf(board.grid, prevSelectedPiece))
      ensures var si, opp := old(selectedPiece.Info()), old(InfosOf(board.GetPieces(GetOppPlayer())));
        var ctx, kp := old(board.CtxOf(prevSelectedPiece)), old(KingPos(FirstKing(board.GetPieces(currentPlayer))));
        var k := KingMoveSpec(old(ViewOf(board.grid)), si, opp, ctx, Pos(sq.row, sq.col));
        kmv == k.1 &&
        (si.kind == King ==> nmp && ViewOf(board.grid) == k.0) &&
        (si.kind != King ==>
          var (w, att) := ProtectorLoop(k.0, PosOf(si), CellOfInfo(si), opp, ctx, kp, |opp|);
          ViewOf(board.grid) == w &&
          (nmp <==> att.None? || (kp.Some? && Covered(board.grid, selectedPiece.validSquares, PosOf(opp[att.value]), kp.value))))
      ensures old(Restoring(ViewOf(board.grid), selectedPiece.Info(), InfosOf(board.GetPieces(GetOppPlayer())))) ==>
        ViewOf(board.grid) == old(ViewOf(board.grid))
    {
      ghost var ep := EpOf(board.grid, prevSelectedPiece);
      ghost var v, si, opp := ViewOf(board.grid), selectedPiece.Info(), InfosOf(board.GetPieces(GetOppPlayer()));
      ghost var ctx, kp := board.CtxOf(prevSelectedPiece), KingPos(FirstKing(board.GetPieces(currentPlayer)));
      kmv := KingGate(sq, v, ep, si, opp, ctx);
      nmp := ProtectorGate(ViewOf(board.grid), ep, si, opp, kp, ctx);
      if Restoring(v, si, opp) {
        KingMoveRestores(v, si, opp, ctx, Pos(sq.row, sq.col));
        if si.kind != King {
          ProtectorLoopRestores(v, PosOf(si), CellOfInfo(si), opp, ctx, kp, |opp|);
        }
      }
    }

    /** The check flag castling reads (Game.java:316-320): the current player's. */
    function InCheck(): bool
      reads this, board`wInCheck, board`bInCheck
    {
      if currentPlayer == WHITE then board.wInCheck else board.bInCheck
    }

    /**
     * The commit stanza of handleSquareClick (Game.java:233-251) for the selection read
     * at (or, oc) and the clicked square `sq`: castling, capture or enPassant, the
     * relocation, then setFirstMove(false) and the selection becoming the previous
     * piece.  When castling or enPassant throws, the rest of the click is skipped.
     */
    method Move(sq: Square, or: Coord, oc: Coord) returns (aborted: bool, captured: Piece?)
      requires Valid() && selectedPiece != null && sq in Cells(board.grid)
      modifies this`selectedPiece, this`prevSelectedPiece, this`castle
      modifies Cells(board.grid)`isOccupied, Cells(board.grid)`occupying, board`whitePieces, board`blackPieces
      modifies pieces`oldRow, pieces`oldCol, selectedPiece`isFirstMove
      ensures Valid() && (captured != null ==> captured in pieces)
      ensures aborted ==> selectedPiece == old(selectedPiece) && prevSelectedPiece == old(prevSelectedPiece)
      ensures !aborted ==> prevSelectedPiece == old(selectedPiece) && selectedPiece == null && !prevSelectedPiece.isFirstMove
      ensures !aborted && !castle ==>
        board.grid[sq.row, sq.col].occupying == prevSelectedPiece &&
        prevSelectedPiece.oldRow == sq.row && prevSelectedPiece.oldCol == sq.col
    {
      var sel := selectedPiece;
      castle, captured, aborted := CommitClick(board, sel, prevSelectedPiece, sq, castle, InCheck(), or, oc, pieces);
      if !aborted {
        prevSelectedPiece := sel;
        selectedPiece := null;
      }
    }

    /**
     * The silly-mode stanza of handleSquareClick (Game.java:253-257) after a capture:
     * sillyShift(captured) with the draws `dir`, `pick` and `lower`; the pieces it
     * creates join `pieces`.
     */
    method SillyStep(captured: Piece, dir: Unit, pick: Unit, lower: Unit)
      requires Valid() && UnitOk(dir) && UnitOk(pick) && UnitOk(lower)
      modifies this`pieces, Cells(board.grid)`isOccupied, Cells(board.grid)`occupying, board`whitePieces, board`blackPieces
      modifies pieces`oldRow, pieces`oldCol
      ensures Valid() && old(pieces) <= pieces && fresh(pieces - old(pieces))
      ensures captured.kind == Pawn ==> ViewOf(board.grid) == old(ViewOf(board.grid))
      ensures captured.kind != Pawn ==>
        var d := DirectionOf(dir);
        ViewOf(board.grid) == Transformed(Shifted(old(ViewOf(board.grid)), d), Vertical(d), WrapLine(d), pick, lower)
      ensures old(Seated(board.grid)) ==> Seated(board.grid)
    {
      var made := SillyShift(board, captured, dir, pick, lower, ViewOf(board.grid), pieces);
      pieces := pieces + made;
    }

    /**
     * updateCheck (Game.java:775-785): isInCheck(black), and only when black's pieces
     * give no check, isInCheck(white); the board stays as it was.  The label is not
     * modelled.
     */
    method UpdateCheck()
      requires Valid()
      modifies board`wInCheck, board`bInCheck, board`numCheck, board`checking
      modifies board.Pool()`validSquares, board.Pool()`epSquare
      ensures Valid() && ViewOf(board.grid) == old(ViewOf(board.grid))
      ensures EpOf(board.grid, prevSelectedPiece) == old(EpOf(board.grid, prevSelectedPiece))
      ensures board.numCheck == 1 ==> board.checking != null
    {
      ghost var bs, wk, ws, bk := ScanChecks(board, prevSelectedPiece, ViewOf(board.grid), EpOf(board.grid, prevSelectedPiece));
    }

    /**
     * gameOver (Game.java:791-806): isCheckmate(white), and only when it finds none,
     * isCheckmate(black); a mate stops the squares and the listed pieces from taking
     * clicks, which is `over`.  A mate is only ever found while a check stands.
     */
    method GameOver() returns (ghost mate: bool)
      requires Valid() && (board.numCheck == 1 ==> board.checking != null)
      modifies this`over, Cells(board.grid)`isOccupied, Cells(board.grid)`occupying
      modifies pieces`oldRow, pieces`oldCol, pieces`validSquares, pieces`epSquare
      ensures Valid() && over == (old(over) || mate)
      ensures (ViewOf(board.grid), mate) ==
        old(GameOverSpec(ViewOf(board.grid), board.numCheck, InfoOf(board.checking),
                         InfoOf(FirstKing(board.whitePieces)), InfoOf(FirstKing(board.blackPieces)),
                         KingPos(FirstKing(board.whitePieces)), KingPos(FirstKing(board.blackPieces)),
                         InfosOf(board.whitePieces), InfosOf(board.blackPieces), board.CtxOf(prevSelectedPiece)))
      ensures mate ==> board.GetCheck()
    {
      var found := Searches();
      if found {
        over := true;
      }
      mate := found;
    }

    /** The two searches of gameOver on this game's board and previous piece. */
    method Searches() returns (found: bool)
      requires Valid() && (board.numCheck == 1 ==> board.checking != null)
      modifies Cells(board.grid)`isOccupied, Cells(board.grid)`occupying
      modifies pieces`oldRow, pieces`oldCol, pieces`validSquares, pieces`epSquare
      ensures GridOk(board.grid) && Settled(prevSelectedPiece) && Within(board.grid, pieces)
      ensures (ViewOf(board.grid), found) ==
        old(GameOverSpec(ViewOf(board.grid), board.numCheck, InfoOf(board.checking),
                         InfoOf(FirstKing(board.whitePieces)), InfoOf(FirstKing(board.blackPieces)),
                         KingPos(FirstKing(board.whitePieces)), KingPos(FirstKing(board.blackPieces)),
                         InfosOf(board.whitePieces), InfosOf(board.blackPieces), board.CtxOf(prevSelectedPiece)))
    {
      ghost var wm;
      found, wm := MateSearch(board, prevSelectedPiece, ViewOf(board.grid), EpOf(board.grid, prevSelectedPiece), pieces,
                              InfoOf(board.checking), InfoOf(FirstKing(board.whitePieces)),
                              InfoOf(FirstKing(board.blackPieces)), KingPos(FirstKing(board.whitePieces)),
                              KingPos(FirstKing(board.blackPieces)), InfosOf(board.whitePieces),
                              InfosOf(board.blackPieces), board.CtxOf(prevSelectedPiece));
    }

    /**
     * handleSquareClick (Game.java:216-272) with the draws of silly mode as parameters:
     * with a selection, the gates decide; a refused move clears the selection and the
     * castle flag; a made move ends with the selection as the previous piece, marked as
     * moved, silly mode's shift after a capture of anything but a pawn, the check state
     * recomputed, the mate search while a check stands, and the turn passed.
     */
    method HandleSquareClick(sq: Square, dir: Unit, pick: Unit, lower: Unit) returns (ghost click: Click)
      requires Valid() && !over && sq in Cells(board.grid) && UnitOk(dir) && UnitOk(pick) && UnitOk(lower)
      modifies this, Cells(board.grid)`isOccupied, Cells(board.grid)`occupying
      modifies board`whitePieces, board`blackPieces, board`wInCheck, board`bInCheck, board`numCheck, board`checking
      modifies pieces`oldRow, pieces`oldCol, pieces`validSquares, pieces`epSquare, pieces`isFirstMove
      ensures Valid() && clickedSquare == sq && board == old(board) && old(pieces) <= pieces
      ensures click == NoSelection <==> old(selectedPiece) == null
      ensures click != Moved ==> currentPlayer == old(currentPlayer) && prevSelectedPiece == old(prevSelectedPiece) && !over
      ensures click == NoSelection ==>
        selectedPiece == null && castle == old(castle) && ViewOf(board.grid) == old(ViewOf(board.grid)) &&
        board.whitePieces == old(board.whitePieces) && board.blackPieces == old(board.blackPieces)
      ensures click == Rejected ==>
        selectedPiece == null && !castle &&
        board.whitePieces == old(board.whitePieces) && board.blackPieces == old(board.blackPieces)
      ensures (click == Rejected && !board.GetCheck() &&
               old(selectedPiece != null &&
                   Restoring(ViewOf(board.grid), selectedPiece.Info(), InfosOf(board.GetPieces(GetOppPlayer()))))) ==>
        ViewOf(board.grid) == old(ViewOf(board.grid))
      ensures click == Threw ==> selectedPiece == old(selectedPiece)
      ensures click == Moved ==>
        prevSelectedPiece == old(selectedPiece) && selectedPiece == null && !prevSelectedPiece.isFirstMove &&
        currentPlayer == Other(old(currentPlayer)) && (over ==> board.GetCheck())
    {
      clickedSquare := sq;
      if selectedPiece == null {
        return NoSelection;
      }
      click := Attempt(sq, dir, pick, lower);
    }

    /** handleSquareClick with a selection (Game.java:222-270): the gates, then the move or the refusal. */
    method Attempt(sq: Square, dir: Unit, pick: Unit, lower: Unit) returns (ghost click: Click)
      requires Valid() && !over && selectedPiece != null && sq in Cells(board.grid)
      requires UnitOk(dir) && UnitOk(pick) && UnitOk(lower)
      modifies this`selectedPiece, this`prevSelectedPiece, this`castle, this`pieces, this`over, this`currentPlayer
      modifies Cells(board.grid)`isOccupied, Cells(board.grid)`occupying
      modifies board`whitePieces, board`blackPieces, board`wInCheck, board`bInCheck, board`numCheck, board`checking
      modifies pieces`oldRow, pieces`oldCol, pieces`validSquares, pieces`epSquare, pieces`isFirstMove
      ensures Valid() && old(pieces) <= pieces && click != NoSelection
      ensures click != Moved ==> currentPlayer == old(currentPlayer) && prevSelectedPiece == old(prevSelectedPiece) && !over
      ensures click == Rejected ==>
        selectedPiece == null && !castle &&
        board.whitePieces == old(board.whitePieces) && board.blackPieces == old(board.blackPieces)
      ensures (click == Rejected && !board.GetCheck() &&
               old(Restoring(ViewOf(board.grid), selectedPiece.Info(), InfosOf(board.GetPieces(GetOppPlayer()))))) ==>
        ViewOf(board.grid) == old(ViewOf(board.grid))
      ensures click == Threw ==> selectedPiece == old(selectedPiece)
      ensures click == Moved ==>
        prevSelectedPiece == old(selectedPiece) && selectedPiece == null && !prevSelectedPiece.isFirstMove &&
        currentPlayer == Other(old(currentPlayer)) && (over ==> board.GetCheck())
    {
      var oldRow, oldCol := selectedPiece.oldRow, selectedPiece.oldCol;
      var ok := Screen(sq);
      if !ok {
        return Rejected;
      }
      click := Proceed(sq, oldRow, oldCol, dir, pick, lower);
    }

    /**
     * The gates of handleSquareClick (Game.java:225-233), and for a move they refuse
     * (Game.java:266-269), the selection and the castle flag cleared.
     */
    method Screen(sq: Square) returns (ok: bool)
      requires Valid() && selectedPiece != null && sq in Cells(board.grid)
      modifies this`selectedPiece, this`castle, Cells(board.grid)`isOccupied, Cells(board.grid)`occupying
      modifies pieces`oldRow, pieces`oldCol, pieces`validSquares, pieces`epSquare
      ensures Valid() && (ok ==> selectedPiece == old(selectedPiece) && castle == old(castle))
      ensures !ok ==> selectedPiece == null && !castle
      ensures (!ok && !board.GetCheck() &&
               old(Restoring(ViewOf(board.grid), selectedPiece.Info(), InfosOf(board.GetPieces(GetOppPlayer()))))) ==>
        ViewOf(board.grid) == old(ViewOf(board.grid))
    {
      ghost var seen;
      ok, seen := Gates(sq);
      if !ok {
        Refuse();
      }
    }

    /** A refused move (Game.java:266-269): the selection and the castle flag are cleared. */
    method Refuse()
      requires Valid()
      modifies this`selectedPiece, this`castle
      ensures Valid() && selectedPiece == null && !castle
      ensures ViewOf(board.grid) == old(ViewOf(board.grid))
    {
      selectedPiece := null;
      castle := false;
    }

    /** A move the gates passed (Game.java:233-264): the commit, and unless it threw, the end of the click. */
    method Proceed(sq: Square, or: Coord, oc: Coord, dir: Unit, pick: Unit, lower: Unit) returns (ghost click: Click)
      requires Valid() && !over && selectedPiece != null && sq in Cells(board.grid)
      requires UnitOk(dir) && UnitOk(pick) && UnitOk(lower)
      modifies this`selectedPiece, this`prevSelectedPiece, this`castle, this`pieces, this`over, this`currentPlayer
      modifies Cells(board.grid)`isOccupied, Cells(board.grid)`occupying
      modifies board`whitePieces, board`blackPieces, board`wInCheck, board`bInCheck, board`numCheck, board`checking
      modifies pieces`oldRow, pieces`oldCol, pieces`validSquares, pieces`epSquare, selectedPiece`isFirstMove
      ensures Valid() && old(pieces) <= pieces && (click == Threw || click == Moved)
      ensures click == Threw ==>
        currentPlayer == old(currentPlayer) && prevSelectedPiece == old(prevSelectedPiece) && !over &&
        selectedPiece == old(selectedPiece)
      ensures click == Moved ==>
        prevSelectedPiece == old(selectedPiece) && selectedPiece == null && !prevSelectedPiece.isFirstMove &&
        currentPlayer == Other(old(currentPlayer)) && (over ==> board.GetCheck())
    {
      var aborted, captured := Move(sq, or, oc);
      if aborted {
        return Threw;
      }
      AfterMove(captured, dir, pick, lower);
      return Moved;
    }

    /**
     * The end of handleSquareClick after a made move (Game.java:253-264): silly mode's
     * shift after a capture, updateCheck, gameOver while a check stands, switchPlayer.
     */
    method AfterMove(captured: Piece?, dir: Unit, pick: Unit, lower: Unit)
      requires Valid() && !over && UnitOk(dir) && UnitOk(pick) && UnitOk(lower)
      modifies this`pieces, this`over, this`currentPlayer, Cells(board.grid)`isOccupied, Cells(board.grid)`occupying
      modifies board`whitePieces, board`blackPieces, board`wInCheck, board`bInCheck, board`numCheck, board`checking
      modifies pieces`oldRow, pieces`oldCol, pieces`validSquares, pieces`epSquare
      ensures Valid() && old(pieces) <= pieces && fresh(pieces - old(pieces))
      ensures currentPlayer == Other(old(currentPlayer)) && (over ==> board.GetCheck())
    {
      Recheck(captured, dir, pick, lower);
      MateCheck();
      SwitchPlayer();
    }

    /** gameOver, run only while a check stands (Game.java:259-262). */
    method MateCheck()
      requires Valid() && !over && (board.numCheck == 1 ==> board.checking != null)
      modifies this`over, Cells(board.grid)`isOccupied, Cells(board.grid)`occupying
      modifies pieces`oldRow, pieces`oldCol, pieces`validSquares, pieces`epSquare
      ensures Valid() && (over ==> board.GetCheck())
    {
      if board.GetCheck() {
        var mate := GameOver();
      }
    }

    /** Silly mode's shift after a capture, then updateCheck (Game.java:253-258). */
    method Recheck(captured: Piece?, dir: Unit, pick: Unit, lower: Unit)
      requires Valid() && UnitOk(dir) && UnitOk(pick) && UnitOk(lower)
      modifies this`pieces, Cells(board.grid)`isOccupied, Cells(board.grid)`occupying
      modifies board`whitePieces, board`blackPieces, board`wInCheck, board`bInCheck, board`numCheck, board`checking
      modifies pieces`oldRow, pieces`oldCol, pieces`validSquares, pieces`epSquare
      ensures Valid() && old(pieces) <= pieces && fresh(pieces - old(pieces))
      ensures board.numCheck == 1 ==> board.checking != null
    {
      if isSilly && captured != null {
        SillyStep(captured, dir, pick, lower);
      }
      UpdateCheck();
    }

    /** switchPlayer (Game.java:812-821): the turn passes to the other colour. */
    method SwitchPlayer()
      modifies this`currentPlayer
      ensures currentPlayer == Other(old(currentPlayer))
    {
      if currentPlayer == WHITE {
        currentPlayer := BLACK;
      } else {
        currentPlayer := WHITE;
      }
    }

    /** getOppPlayer (Game.java:884-889). */
    function GetOppPlayer(): string
      reads this`currentPlayer
    {
      Other(currentPlayer)
    }

    /** getWhiteKing (Game.java:826-833): the first king of the white list. */
    method GetWhiteKing() returns (k: Piece?)
      ensures k == FirstKing(board.whitePieces)
    {
      k := FindKing(board.whitePieces);
    }

    /** getBlackKing (Game.java:838-845): the first king of the black list. */
    method GetBlackKing() returns (k: Piece?)
      ensures k == FirstKing(board.blackPieces)
    {
      k := FindKing(board.blackPieces);
    }

    /** getCurrKing (Game.java:852-869): the first king of the list of the player to move. */
    method GetCurrKing() returns (k: Piece?)
      ensures k == FirstKing(board.GetPieces(currentPlayer))
    {
      if currentPlayer == WHITE {
        k := FindKing(board.whitePieces);
      } else {
        k := FindKing(board.blackPieces);
      }
    }
  }
}
