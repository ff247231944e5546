/**
 * What the handlers hand to a view (`SgfData`): pieces on the board, move
 * information, markup, node information, variation hints and the game
 * configuration.
 */
module SgfData {
  import opened Wrappers
  import opened SgfTree

  /** A gaming piece: its colour and its stone, or no stone for a move without one. */
  datatype Piece = Piece(color: Color, stone: Option<Stone>)

  /** `piece.stone?.point`: where a piece stands, if it has a stone. */
  function PiecePoint(p: Piece): (r: Option<XYPoint>)
    ensures r.Some? <==> p.stone.Some?
    ensures r.Some? ==> r.value == p.stone.value.point
  {
    match p.stone
    case Some(s) => Some(s.point)
    case None => None
  }

  /** `(piece.stone as? XYStone)?.point`: the point of a Go stone; chess stones have none. */
  function GoPoint(p: Piece): (r: Option<XYPoint>)
    ensures r.Some? <==> p.stone.Some? && p.stone.value.XYStone?
    ensures r.Some? ==> r == PiecePoint(p)
  {
    match p.stone
    case Some(XYStone(pt)) => Some(pt)
    case _ => None
  }

  /**
   * Information about the last move: its number, the colour that moved, the
   * move played (a move without a point is a pass) and the black and white
   * prisoner counts.
   */
  datatype MoveInfo = MoveInfo(moveNumber: int, lastColor: Color, lastPlayed: Move, prisoners: (int, int))

  /** The kinds of board markup. */
  datatype MarkupType =
    | VARIATION | ARROW | CIRCLE | DIM | LABEL | LINE | X | SELECT | SQUARE | TRIANGLE | VISIBLE
    | BLACK_TERRITORY | WHITE_TERRITORY

  /** Markup at a point, with a second point for arrows and lines and a text for labels. */
  datatype Markup = Markup(kind: MarkupType, point: XYPoint, target: Option<XYPoint>, text: Option<string>)

  /**
   * The key of a node information, naming the property it came from: a plain
   * property, a property with an emphasis (DM, GB, GW, HO, UC, BM, TE), the
   * player to move (PL), the two halves of AP, and the chess check marker.
   */
  datatype InfoKey =
    | PropertyKey(id: Id)
    | EmphasisKey(id: Id, emphasis: Emphasis)
    | PlayerKey(color: Color)
    | AppNameKey
    | AppVersionKey
    | CheckKey(emphasis: Emphasis)

  /** A piece of node information for the text window. */
  datatype NodeInfo = NodeInfo(key: Option<InfoKey>, message: Option<string>)

  /** A variation hint: the variation's index and its move, if it has one. */
  datatype VariationData = VariationData(index: int, move: Option<Move>)

  /** One element of the data a view receives. */
  datatype SgfDatum =
    | PieceDatum(piece: Piece)
    | InfoDatum(info: NodeInfo)
    | MarkupDatum(markup: Markup)
    | VariationDatum(variation: VariationData)
    | GameConfig(gameId: int, columns: int, rows: int)
    | MoveInfoDatum(moveInfo: MoveInfo)
}
