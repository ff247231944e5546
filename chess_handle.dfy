/**
 * The handlers of the chess plug-in. The move handler moves a piece and
 * captures whatever stands on its target square, irrespective of colour or
 * legality; the custom property handler marks a check or checkmate (CHK) and
 * sets up the standard starting position (DEF).
 *
 * Each handler is a function on the state's fields taken as one value
 * (`StateValue`), and a method on `SgfState` proved to have the same effect.
 */
module ChessHandle {
  import opened Wrappers
  import opened SgfTree
  import opened SgfData
  import opened BoardState
  import opened State
  import opened SgfValues

  // ------------------------------------------------------------- looking up pieces

  /** Kotlin's `indexOfFirst`: the index of the first piece `f` accepts, or -1 when it accepts none. */
  function FirstIndex(b: seq<Piece>, f: Piece -> bool): (r: int)
    ensures -1 <= r < |b|
    ensures r >= 0 ==> f(b[r]) && forall j :: 0 <= j < r ==> !f(b[j])
    ensures r == -1 <==> forall j :: 0 <= j < |b| ==> !f(b[j])
  {
    if |b| == 0 then -1
    else if f(b[0]) then 0
    else
      var k := FirstIndex(b[1..], f);
      if k == -1 then -1 else k + 1
  }

  /** Kotlin's `find`: the first piece `f` accepts. */
  function First(b: seq<Piece>, f: Piece -> bool): (r: Option<Piece>)
    ensures r.None? <==> forall q :: q in b ==> !f(q)
    ensures r.Some? ==> r.value in b && f(r.value)
  {
    var i := FirstIndex(b, f);
    if i >= 0 then Some(b[i]) else None
  }

  /** `(stone as? ChessStone)?.type`: the type of a chess piece; Go stones and stoneless pieces have none. */
  function ChessKind(p: Piece): (r: Option<ChessStoneType>)
    ensures r.Some? ==> p.stone.Some? && p.stone.value == ChessStone(r.value, p.stone.value.point)
  {
    match p.stone
    case Some(ChessStone(k, _)) => Some(k)
    case _ => None
  }

  /** `it.stone?.point == point`. */
  function StandsAt(pt: XYPoint): Piece -> bool
  {
    q => PiecePoint(q) == Some(pt)
  }

  /** The king search of castling: a king of the moving colour. */
  function KingOf(color: Color): Piece -> bool
  {
    q => ChessKind(q) == Some(KING) && q.color == color
  }

  /** The rook search of castling: a rook of the moving colour whose column lies `d` away from `kingX`. */
  function RookFor(color: Color, kingX: int, d: int): Piece -> bool
  {
    q => ChessKind(q) == Some(ROOK) && q.color == color && PiecePoint(q).Some? && Abs(PiecePoint(q).value.x - kingX) == d
  }

  function Abs(n: int): nat
  {
    if n < 0 then -n else n
  }

  // ------------------------------------------------------------- captures

  /** The material a captured piece is worth: a king and a non-chess piece count nothing. */
  function Worth(kind: Option<ChessStoneType>): (r: int)
    ensures 0 <= r <= 9
    ensures r == 0 <==> kind == None || kind == Some(KING)
  {
    match kind
    case Some(KING) => 0
    case Some(QUEEN) => 9
    case Some(ROOK) => 5
    case Some(BISHOP) => 3
    case Some(KNIGHT) => 3
    case Some(PAWN) => 1
    case None => 0
  }

  /**
   * `checkCapture`: the first piece standing at `pt`, of any colour, is
   * removed from the board and returned; with none there, nothing changes.
   */
  function CheckCapture(v: StateValue, pt: XYPoint): (r: (StateValue, Option<Piece>))
    requires |v.incrementalPieces| > 0
    ensures r.1 == First(v.currentPieces, StandsAt(pt))
    ensures r.1.None? ==> r.0 == v
    ensures r.1.Some? ==> multiset(r.0.currentPieces) == multiset(v.currentPieces) - multiset{r.1.value}
    ensures |r.0.incrementalPieces| == |v.incrementalPieces|
    ensures r.0 == v.(incrementalPieces := r.0.incrementalPieces, currentPieces := r.0.currentPieces)
  {
    var found := First(v.currentPieces, StandsAt(pt));
    if found.Some? then (RemovePiece(v, found.value), found) else (v, None)
  }

  /**
   * The prisoner pair of a move: the captured piece's worth, on black's side
   * when a black piece was taken and on white's otherwise; nothing taken is
   * counted on black's side as 0.
   */
  function Prisoners(captured: Option<Piece>): (int, int)
  {
    var worth := if captured.Some? then Worth(ChessKind(captured.value)) else 0;
    var prisonerColor := if captured.Some? then captured.value.color else BLACK;
    if prisonerColor == BLACK then (worth, 0) else (0, worth)
  }

  // ------------------------------------------------------------- moves that displace one piece

  /** The standard, promotion and en passant moves: one piece leaves `from` for `to`. */
  predicate Displaces(move: Move)
  {
    move.StandardChessMove? || move.PromotionMove? || move.EnPassantMove?
  }

  /** The piece that leaves its square. */
  function Mover(color: Color, move: Move): Piece
    requires Displaces(move)
  {
    Piece(color, Some(ChessStone(move.kind, move.from)))
  }

  /** Where the captured piece stands: the target, or for en passant the square beside it on the mover's row. */
  function CapturePoint(move: Move): XYPoint
    requires Displaces(move)
  {
    if move.EnPassantMove? then XYPoint(move.to.x, move.from.y) else move.to
  }

  /** The piece that arrives at the target: the mover, or for a promotion the piece it becomes. */
  function Landing(color: Color, move: Move): Piece
    requires Displaces(move)
  {
    Piece(color, Some(ChessStone(if move.PromotionMove? then move.promotedTo else move.kind, move.to)))
  }

  /** `removePiece(mover); checkCapture(at); addPiece(landed)`. */
  function Displace(v: StateValue, mover: Piece, at: XYPoint, landed: Piece): (r: (StateValue, Option<Piece>))
    requires |v.incrementalPieces| > 0
    ensures |r.0.incrementalPieces| == |v.incrementalPieces|
    ensures r.0 == v.(incrementalPieces := r.0.incrementalPieces, currentPieces := r.0.currentPieces)
  {
    var left := RemovePiece(v, mover);
    var (taken, captured) := CheckCapture(left, at);
    (AddPiece(taken, landed), captured)
  }

  // ------------------------------------------------------------- castling

  /** The row a colour castles on. */
  function HomeRow(color: Color): int
  {
    if color == BLACK then 8 else 1
  }

  function KingColumn(long: bool): int { if long then 3 else 7 }
  function RookColumn(long: bool): int { if long then 4 else 6 }

  /**
   * The king and rook castling moves: the first king of the colour, and the
   * first rook of the colour standing 4 columns (long) or 3 columns (short)
   * from that king, or from column 0 when there is no king.
   */
  function CastlingPieces(b: seq<Piece>, color: Color, long: bool): (r: (Option<Piece>, Option<Piece>))
    ensures r.0 == First(b, KingOf(color))
    ensures r.1.Some? ==> r.1.value in b && ChessKind(r.1.value) == Some(ROOK) && r.1.value.color == color
  {
    var king := First(b, KingOf(color));
    var kingX := if king.Some? then king.value.stone.value.point.x else 0;
    (king, First(b, RookFor(color, kingX, if long then 4 else 3)))
  }

  /** Both castling pieces, where found, are removed. */
  function Vacate(v: StateValue, color: Color, long: bool): (r: StateValue)
    requires |v.incrementalPieces| > 0
    ensures |r.incrementalPieces| == |v.incrementalPieces|
    ensures r == v.(incrementalPieces := r.incrementalPieces, currentPieces := r.currentPieces)
  {
    var (king, rook) := CastlingPieces(v.currentPieces, color, long);
    var noKing := if king.Some? then RemovePiece(v, king.value) else v;
    if rook.Some? then RemovePiece(noKing, rook.value) else noKing
  }

  /** The castled king and rook. */
  function CastledKing(color: Color, long: bool): Piece
  {
    Piece(color, Some(ChessStone(KING, XYPoint(KingColumn(long), HomeRow(color)))))
  }

  function CastledRook(color: Color, long: bool): Piece
  {
    Piece(color, Some(ChessStone(ROOK, XYPoint(RookColumn(long), HomeRow(color)))))
  }

  /** Castling as written: the king and rook are put back only for long castling. */
  function CastleAsWritten(v: StateValue, color: Color, long: bool): (r: StateValue)
    requires |v.incrementalPieces| > 0
  {
    var vacated := Vacate(v, color, long);
    if long then AddPiece(AddPiece(vacated, CastledKing(color, long)), CastledRook(color, long)) else vacated
  }

  /** Castling as intended: the king and rook are put on their castled squares on either side. */
  function Castle(v: StateValue, color: Color, long: bool): (r: StateValue)
    requires |v.incrementalPieces| > 0
    ensures |r.incrementalPieces| == |v.incrementalPieces|
    ensures r == v.(incrementalPieces := r.incrementalPieces, currentPieces := r.currentPieces)
  {
    AddPiece(AddPiece(Vacate(v, color, long), CastledKing(color, long)), CastledRook(color, long))
  }

  // ------------------------------------------------------------- the move handler

  /**
   * `ChessMoveHandler`, with castling as intended: a Go move is refused, a
   * pass changes nothing, and every chess move is reported as one move by
   * `color`, with the moved-over prisoner pair.
   */
  function ChessMove(v: StateValue, color: Color, move: Move): (r: (StateValue, Option<MoveInfo>))
    requires |v.incrementalPieces| > 0
    ensures r.1.None? <==> move.XYMove?
    ensures move.XYMove? || move.ChessPass? ==> r.0 == v
    ensures r.1.Some? ==> r.1.value.moveNumber == 1 && r.1.value.lastColor == color && r.1.value.lastPlayed == move
    ensures move.CastlingMove? || move.ChessPass? ==> r.1.Some? && r.1.value.prisoners == (0, 0)
    ensures |r.0.incrementalPieces| == |v.incrementalPieces|
    ensures r.0 == v.(incrementalPieces := r.0.incrementalPieces, currentPieces := r.0.currentPieces)
  {
    if move.XYMove? then (v, None)
    else if move.ChessPass? then (v, Some(MoveInfo(1, color, move, (0, 0))))
    else if move.CastlingMove? then (Castle(v, color, move.long), Some(MoveInfo(1, color, move, (0, 0))))
    else
      var (w, captured) := Displace(v, Mover(color, move), CapturePoint(move), Landing(color, move));
      (w, Some(MoveInfo(1, color, move, Prisoners(captured))))
  }

  /** `ChessMoveHandler` as written: short castling takes the king and rook off and puts nothing back. */
  function ChessMoveAsWritten(v: StateValue, color: Color, move: Move): (r: (StateValue, Option<MoveInfo>))
    requires |v.incrementalPieces| > 0
  {
    if move.CastlingMove? then (CastleAsWritten(v, color, move.long), Some(MoveInfo(1, color, move, (0, 0))))
    else ChessMove(v, color, move)
  }

  /** `p` is on the board once, and no other piece stands on its point. */
  predicate Alone(b: seq<Piece>, p: Piece)
  {
    p in b && multiset(b)[p] == 1 && forall q :: q in b && PiecePoint(q) == PiecePoint(p) ==> q == p
  }

  /** The board `m` without the piece taken, if one was. */
  function Without(m: multiset<Piece>, taken: Option<Piece>): multiset<Piece>
  {
    if taken.Some? then m - multiset{taken.value} else m
  }

  /** After `addPiece(p)`, `p` stands alone on its point and every point but its own is as before. */
  lemma AddAlone(v: StateValue, p: Piece)
    requires |v.incrementalPieces| > 0
    ensures Alone(AddPiece(v, p).currentPieces, p)
    ensures forall q :: PiecePoint(q) != PiecePoint(p) ==>
      multiset(AddPiece(v, p).currentPieces)[q] == multiset(v.currentPieces)[q]
  {
    AddPieceAlone(v, p);
  }

  /** A piece stays alone on its point when the board changes only elsewhere. */
  lemma AloneKept(b: seq<Piece>, c: seq<Piece>, p: Piece, pt: Option<XYPoint>)
    requires Alone(b, p) && PiecePoint(p) != pt
    requires forall q :: PiecePoint(q) != pt ==> multiset(c)[q] == multiset(b)[q]
    ensures Alone(c, p)
  {
    forall q | q in c && PiecePoint(q) == PiecePoint(p)
      ensures q == p
    {
      assert multiset(c)[q] == multiset(b)[q];
    }
  }

  /**
   * `removePiece(mover); checkCapture(at); addPiece(landed)`: the landed
   * piece stands alone on its point, and elsewhere the board has lost the
   * mover, if it was there, and the captured piece, which is the first piece
   * standing at `at` once the mover has left.
   */
  lemma DisplaceFacts(v: StateValue, mover: Piece, at: XYPoint, landed: Piece)
    requires |v.incrementalPieces| > 0
    ensures var (w, captured) := Displace(v, mover, at, landed);
      && captured == First(RemoveFirst(v.currentPieces, mover), StandsAt(at))
      && Alone(w.currentPieces, landed)
      && (forall q :: PiecePoint(q) != PiecePoint(landed) ==>
            multiset(w.currentPieces)[q] == Without(multiset(v.currentPieces) - multiset{mover}, captured)[q])
  {
    var left := RemovePiece(v, mover);
    assert left.currentPieces == RemoveFirst(v.currentPieces, mover);
    var (taken, captured) := CheckCapture(left, at);
    assert multiset(taken.currentPieces) == Without(multiset(left.currentPieces), captured);
    AddAlone(taken, landed);
  }

  /**
   * A standard, promotion or en passant move leaves the landed piece alone on
   * the target square, and elsewhere takes off the mover, if it was there, and
   * the captured piece: the first piece standing on the capture square once
   * the mover has left. Its worth goes to its own colour's side of the
   * prisoner pair.
   */
  lemma ChessMoveDisplaces(v: StateValue, color: Color, move: Move)
    requires |v.incrementalPieces| > 0 && Displaces(move)
    ensures var (w, info) := ChessMove(v, color, move);
      var captured := First(RemoveFirst(v.currentPieces, Mover(color, move)), StandsAt(CapturePoint(move)));
      && Alone(w.currentPieces, Landing(color, move))
      && (forall q :: PiecePoint(q) != Some(move.to) ==>
            multiset(w.currentPieces)[q] == Without(multiset(v.currentPieces) - multiset{Mover(color, move)}, captured)[q])
      && (captured.Some? ==> captured.value in v.currentPieces && PiecePoint(captured.value) == Some(CapturePoint(move)))
      && info == Some(MoveInfo(1, color, move, Prisoners(captured)))
  {
    DisplaceFacts(v, Mover(color, move), CapturePoint(move), Landing(color, move));
    var captured := First(RemoveFirst(v.currentPieces, Mover(color, move)), StandsAt(CapturePoint(move)));
    if captured.Some? {
      assert multiset(RemoveFirst(v.currentPieces, Mover(color, move)))[captured.value] > 0;
    }
  }

  /** The prisoner pair counts what was taken, on the side of the colour that lost it. */
  lemma PrisonersCount(captured: Option<Piece>)
    ensures var (b, w) := Prisoners(captured);
      && (captured.None? ==> b == 0 && w == 0)
      && (captured.Some? && captured.value.color == BLACK ==> b == Worth(ChessKind(captured.value)) && w == 0)
      && (captured.Some? && captured.value.color == WHITE ==> b == 0 && w == Worth(ChessKind(captured.value)))
      && 0 <= b + w <= 9
  {
  }

  /**
   * Castling as intended leaves the king of the colour alone on its castled
   * square and the rook alone on its own; off those two squares the board
   * loses the king and the rook the move found, and nothing else.
   */
  lemma CastleFacts(v: StateValue, color: Color, long: bool)
    requires |v.incrementalPieces| > 0
    ensures var b := Castle(v, color, long).currentPieces;
      var (king, rook) := CastlingPieces(v.currentPieces, color, long);
      var k, t := CastledKing(color, long), CastledRook(color, long);
      && Alone(b, k) && Alone(b, t)
      && (forall q :: PiecePoint(q) != PiecePoint(k) && PiecePoint(q) != PiecePoint(t) ==>
            multiset(b)[q] == Without(Without(multiset(v.currentPieces), king), rook)[q])
  {
    VacateCount(v, color, long);
    var vacated := Vacate(v, color, long);
    var k, t := CastledKing(color, long), CastledRook(color, long);
    var withKing := AddPiece(vacated, k);
    AddAlone(vacated, k);
    AddAlone(withKing, t);
    AloneKept(withKing.currentPieces, AddPiece(withKing, t).currentPieces, k, PiecePoint(t));
  }

  /** Vacating removes exactly the king and the rook found. */
  lemma VacateCount(v: StateValue, color: Color, long: bool)
    requires |v.incrementalPieces| > 0
    ensures var (king, rook) := CastlingPieces(v.currentPieces, color, long);
      multiset(Vacate(v, color, long).currentPieces) == Without(Without(multiset(v.currentPieces), king), rook)
  {
    var (king, rook) := CastlingPieces(v.currentPieces, color, long);
    if king.Some? && rook.Some? {
      assert ChessKind(king.value) != ChessKind(rook.value);
      assert rook.value in RemoveFirst(v.currentPieces, king.value) by {
        assert multiset(RemoveFirst(v.currentPieces, king.value))[rook.value] == multiset(v.currentPieces)[rook.value];
      }
    }
  }

  /** As written, short castling takes the king and the rook it found off the board and puts nothing back. */
  lemma CastleAsWrittenShort(v: StateValue, color: Color)
    requires |v.incrementalPieces| > 0
    ensures var (king, rook) := CastlingPieces(v.currentPieces, color, false);
      multiset(CastleAsWritten(v, color, false).currentPieces) == Without(Without(multiset(v.currentPieces), king), rook)
  {
    VacateCount(v, color, false);
  }

  /** The white king and the king's rook on their starting squares. */
  function KingsideStart(): (v: StateValue)
    ensures |v.incrementalPieces| > 0
  {
    Fresh().(incrementalPieces := [[]],
             currentPieces := [Piece(WHITE, Some(ChessStone(KING, XYPoint(5, 1)))),
                               Piece(WHITE, Some(ChessStone(ROOK, XYPoint(8, 1))))])
  }

  /** The king and rook short castling finds on the board of `KingsideStart`. */
  lemma KingsideFound()
    ensures var b := KingsideStart().currentPieces;
      CastlingPieces(b, WHITE, false) == (Some(b[0]), Some(b[1]))
  {
    var b := KingsideStart().currentPieces;
    assert FirstIndex(b, KingOf(WHITE)) == 0;
    assert !RookFor(WHITE, 5, 3)(b[0]);
    assert FirstIndex(b[1..], RookFor(WHITE, 5, 3)) == 0;
  }

  /**
   * White castles short from the board of `KingsideStart`: as written the
   * board is left empty, as intended the king stands alone on g1.
   */
  lemma ShortCastlingLosesKing()
    ensures CastleAsWritten(KingsideStart(), WHITE, false).currentPieces == []
    ensures Alone(Castle(KingsideStart(), WHITE, false).currentPieces, Piece(WHITE, Some(ChessStone(KING, XYPoint(7, 1)))))
  {
    var v := KingsideStart();
    KingsideFound();
    CastleAsWrittenShort(v, WHITE);
    var r := CastleAsWritten(v, WHITE, false).currentPieces;
    assert multiset(r) == multiset{};
    CastleFacts(v, WHITE, false);
  }

  // ------------------------------------------------------------- the custom properties

  /** The pieces of one rank, from column 1 on. */
  function Rank(color: Color, y: int, kinds: seq<ChessStoneType>): (r: seq<Piece>)
    ensures |r| == |kinds|
    ensures forall i :: 0 <= i < |kinds| ==> r[i] == Piece(color, Some(ChessStone(kinds[i], XYPoint(i + 1, y))))
  {
    if |kinds| == 0 then []
    else Rank(color, y, kinds[..|kinds| - 1]) + [Piece(color, Some(ChessStone(kinds[|kinds| - 1], XYPoint(|kinds|, y))))]
  }

  const BackRank: seq<ChessStoneType> := [ROOK, KNIGHT, BISHOP, QUEEN, KING, BISHOP, KNIGHT, ROOK]
  const PawnRank: seq<ChessStoneType> := [PAWN, PAWN, PAWN, PAWN, PAWN, PAWN, PAWN, PAWN]

  /** The 32 pieces DEF adds, in its order: white pawns, white back rank, black pawns, black back rank. */
  const StandardSetup: seq<Piece> :=
    Rank(WHITE, 2, PawnRank) + Rank(WHITE, 1, BackRank) + Rank(BLACK, 7, PawnRank) + Rank(BLACK, 8, BackRank)

  /** No two of the pieces stand on the same point. */
  predicate DistinctPoints(ps: seq<Piece>)
  {
    forall i, j :: 0 <= i < j < |ps| ==> PiecePoint(ps[i]) != PiecePoint(ps[j])
  }

  /**
   * `ChessCustomPropertyHandler`: CHK adds a check (1) or checkmate (2)
   * information and ignores any other value; DEF makes white the player to
   * move and adds the starting position; other properties are ignored.
   */
  function ChessCustom(v: StateValue, ident: string, value: string): (r: StateValue)
    requires ident == "DEF" ==> |v.incrementalPieces| > 0
    ensures ident == "CHK" && value == "1" ==> r == v.(nodeInfo := v.nodeInfo + [NodeInfo(Some(CheckKey(MUCH)), None)])
    ensures ident == "CHK" && value == "2" ==> r == v.(nodeInfo := v.nodeInfo + [NodeInfo(Some(CheckKey(VERY_MUCH)), None)])
    ensures ident == "CHK" && value != "1" && value != "2" ==> r == v
    ensures ident != "CHK" && ident != "DEF" ==> r == v
    ensures ident == "DEF" ==>
      && r.colorJustSet == Some(WHITE)
      && r == v.(incrementalPieces := r.incrementalPieces, currentPieces := r.currentPieces, colorJustSet := r.colorJustSet)
      && |r.incrementalPieces| == |v.incrementalPieces|
  {
    if ident == "CHK" then
      match ParseDouble(value)
      case Some(e) => AddNodeInfo(v, NodeInfo(Some(CheckKey(e)), None))
      case None => v
    else if ident == "DEF" then
      AddPieces(v.(colorJustSet := Some(WHITE)), StandardSetup)
    else v
  }

  /** On any board, each piece added stands alone on its point afterwards, and off their points nothing changes. */
  lemma {:induction false} AddPiecesAlone(v: StateValue, ps: seq<Piece>)
    requires |v.incrementalPieces| > 0 && DistinctPoints(ps)
    ensures var b := AddPieces(v, ps).currentPieces;
      && (forall i :: 0 <= i < |ps| ==> Alone(b, ps[i]))
      && (forall q :: (forall i :: 0 <= i < |ps| ==> PiecePoint(q) != PiecePoint(ps[i])) ==>
            multiset(b)[q] == multiset(v.currentPieces)[q])
  {
    if |ps| > 0 {
      var init, p := ps[..|ps| - 1], ps[|ps| - 1];
      AddPiecesAlone(v, init);
      var before := AddPieces(v, init);
      AddAlone(before, p);
      var b := AddPieces(v, ps).currentPieces;
      forall i | 0 <= i < |ps| - 1
        ensures Alone(b, ps[i])
      {
        assert init[i] == ps[i];
        AloneKept(before.currentPieces, b, ps[i], PiecePoint(p));
      }
      forall q | forall i :: 0 <= i < |ps| ==> PiecePoint(q) != PiecePoint(ps[i])
        ensures multiset(b)[q] == multiset(v.currentPieces)[q]
      {
        assert forall i :: 0 <= i < |init| ==> init[i] == ps[i];
        assert PiecePoint(q) != PiecePoint(ps[|ps| - 1]);
      }
    }
  }

  /** Adding pieces on points that are free, and distinct from each other, appends them in order. */
  lemma {:induction false} AddPiecesOnto(v: StateValue, ps: seq<Piece>)
    requires |v.incrementalPieces| > 0 && DistinctPoints(ps)
    requires forall q, i :: q in v.currentPieces && 0 <= i < |ps| ==> PiecePoint(q) != PiecePoint(ps[i])
    ensures AddPieces(v, ps).currentPieces == v.currentPieces + ps
  {
    if |ps| > 0 {
      var init, p := ps[..|ps| - 1], ps[|ps| - 1];
      AddPiecesOnto(v, init);
      var before := AddPieces(v, init);
      FreeAfter(v.currentPieces, init, p);
      EmptySamePoint(before.currentPieces, p);
      assert v.currentPieces + ps == (v.currentPieces + init) + [p];
    }
  }

  /** A point free on the board and not taken by `init` is free on the board followed by `init`. */
  lemma FreeAfter(b: seq<Piece>, init: seq<Piece>, p: Piece)
    requires forall q :: q in b ==> PiecePoint(q) != PiecePoint(p)
    requires forall i :: 0 <= i < |init| ==> PiecePoint(init[i]) != PiecePoint(p)
    ensures forall q :: q in b + init ==> PiecePoint(q) != PiecePoint(p)
  {
    forall q | q in b + init
      ensures PiecePoint(q) != PiecePoint(p)
    {
      if q !in b {
        var i :| 0 <= i < |init| && init[i] == q;
      }
    }
  }

  lemma EmptySamePoint(s: seq<Piece>, p: Piece)
    requires forall q :: q in s ==> PiecePoint(q) != PiecePoint(p)
    ensures SamePoint(s, p) == []
  {
    if SamePoint(s, p) != [] {
      assert SamePoint(s, p)[0] in SamePoint(s, p);
    }
  }

  /** The starting position has 32 pieces, each with its own square. */
  lemma StandardSetupDistinct()
    ensures |StandardSetup| == 32 && DistinctPoints(StandardSetup)
    ensures forall p :: p in StandardSetup ==> p.stone.Some? && p.stone.value.ChessStone?
  {
    var s := StandardSetup;
    forall i | 0 <= i < 32
      ensures s[i].stone.Some? && s[i].stone.value.ChessStone?
      ensures PiecePoint(s[i]) == Some(XYPoint(i % 8 + 1, if i < 8 then 2 else if i < 16 then 1 else if i < 24 then 7 else 8))
    {
      RankAt(s, i);
    }
  }

  lemma RankAt(s: seq<Piece>, i: int)
    requires s == StandardSetup && 0 <= i < 32
    ensures s[i].stone.Some? && s[i].stone.value.ChessStone?
    ensures PiecePoint(s[i]) == Some(XYPoint(i % 8 + 1, if i < 8 then 2 else if i < 16 then 1 else if i < 24 then 7 else 8))
  {
    var w2, w1, b7, b8 := Rank(WHITE, 2, PawnRank), Rank(WHITE, 1, BackRank), Rank(BLACK, 7, PawnRank), Rank(BLACK, 8, BackRank);
    if i < 8 { assert s[i] == w2[i]; }
    else if i < 16 { assert s[i] == w1[i - 8]; }
    else if i < 24 { assert s[i] == b7[i - 16]; }
    else { assert s[i] == b8[i - 24]; }
  }

  /**
   * DEF on any board: white is to play, every piece of the starting position
   * stands alone on its square, and off those squares the board is as it was;
   * on an empty board the result is exactly the starting position.
   */
  lemma DefSetsUp(v: StateValue)
    requires |v.incrementalPieces| > 0
    ensures var r := ChessCustom(v, "DEF", "");
      && r.colorJustSet == Some(WHITE)
      && (forall i :: 0 <= i < |StandardSetup| ==> Alone(r.currentPieces, StandardSetup[i]))
      && (forall q :: (forall i :: 0 <= i < |StandardSetup| ==> PiecePoint(q) != PiecePoint(StandardSetup[i])) ==>
            multiset(r.currentPieces)[q] == multiset(v.currentPieces)[q])
      && (v.currentPieces == [] ==> r.currentPieces == StandardSetup)
  {
    StandardSetupDistinct();
    var u := v.(colorJustSet := Some(WHITE));
    assert ChessCustom(v, "DEF", "") == AddPieces(u, StandardSetup);
    SetUp(u, StandardSetup);
  }

  /** `AddPiecesAlone` and `AddPiecesOnto` together. */
  lemma SetUp(v: StateValue, ps: seq<Piece>)
    requires |v.incrementalPieces| > 0 && DistinctPoints(ps)
    ensures var b := AddPieces(v, ps).currentPieces;
      && (forall i :: 0 <= i < |ps| ==> Alone(b, ps[i]))
      && (forall q :: (forall i :: 0 <= i < |ps| ==> PiecePoint(q) != PiecePoint(ps[i])) ==>
            multiset(b)[q] == multiset(v.currentPieces)[q])
      && (v.currentPieces == [] ==> b == ps)
  {
    AddPiecesAlone(v, ps);
    if v.currentPieces == [] {
      AddPiecesOnto(v, ps);
    }
  }

  // ------------------------------------------------------------- the handlers on SgfState

  /** `checkCapture` on the state. */
  method CheckCaptureOn(state: SgfState, pt: XYPoint) returns (captured: Option<Piece>)
    requires |state.incrementalPieces| > 0
    modifies state
    ensures (state.Value(), captured) == CheckCapture(old(state.Value()), pt)
    ensures state.snapshots == old(state.snapshots)
    ensures old(state.Valid()) ==> state.Valid()
  {
    captured := First(state.currentPieces, StandsAt(pt));
    if captured.Some? {
      state.RemovePiece(captured.value);
    }
  }

  /** `ChessMoveHandler` on the state, with castling as intended. */
  method MoveHandler(state: SgfState, color: Color, move: Move) returns (info: Option<MoveInfo>)
    requires |state.incrementalPieces| > 0
    modifies state
    ensures (state.Value(), info) == ChessMove(old(state.Value()), color, move)
    ensures state.snapshots == old(state.snapshots)
    ensures old(state.Valid()) ==> state.Valid()
  {
    if move.XYMove? {
      return None;
    }
    if move.ChessPass? {
      return Some(MoveInfo(1, color, move, (0, 0)));
    }
    if move.CastlingMove? {
      CastleOn(state, color, move.long);
      return Some(MoveInfo(1, color, move, (0, 0)));
    }
    state.RemovePiece(Mover(color, move));
    var captured := CheckCaptureOn(state, CapturePoint(move));
    state.AddPiece(Landing(color, move));
    info := Some(MoveInfo(1, color, move, Prisoners(captured)));
  }

  /** The castling branch of the move handler. */
  method CastleOn(state: SgfState, color: Color, long: bool)
    requires |state.incrementalPieces| > 0
    modifies state
    ensures state.Value() == Castle(old(state.Value()), color, long)
    ensures state.snapshots == old(state.snapshots)
    ensures old(state.Valid()) ==> state.Valid()
  {
    VacateOn(state, color, long);
    state.AddPiece(CastledKing(color, long));
    state.AddPiece(CastledRook(color, long));
  }

  /** `king?.let { removePiece(it) }; rook?.let { removePiece(it) }`. */
  method VacateOn(state: SgfState, color: Color, long: bool)
    requires |state.incrementalPieces| > 0
    modifies state
    ensures state.Value() == Vacate(old(state.Value()), color, long)
    ensures state.snapshots == old(state.snapshots)
    ensures old(state.Valid()) ==> state.Valid()
  {
    var (king, rook) := CastlingPieces(state.currentPieces, color, long);
    if king.Some? {
      state.RemovePiece(king.value);
    }
    if rook.Some? {
      state.RemovePiece(rook.value);
    }
  }

  /** `ChessCustomPropertyHandler` on the state. */
  method CustomPropertyHandler(state: SgfState, ident: string, value: string)
    requires ident == "DEF" ==> |state.incrementalPieces| > 0
    modifies state
    ensures state.Value() == ChessCustom(old(state.Value()), ident, value)
    ensures state.snapshots == old(state.snapshots)
    ensures old(state.Valid()) ==> state.Valid()
  {
    if ident == "CHK" {
      var e := ParseDouble(value);
      if e.Some? {
        state.AddNodeInfo(NodeInfo(Some(CheckKey(e.value)), None));
      }
    } else if ident == "DEF" {
      state.colorJustSet := Some(WHITE);
      state.AddPieces(StandardSetup);
    }
  }
}
