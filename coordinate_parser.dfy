/**
 * `SgfParser.CoordinateParser`: the game-specific reading of points, stones
 * and moves, and the shared reading of (compressed) point and stone lists.
 * The two parsers of the library are the Go parser and the chess parser.
 */
module CoordinateParser {
  import opened Wrappers
  import opened SgfTree
  import opened SgfValues
  import Go = GoCoordinates
  import Chess = ChessParse

  datatype Codec = GoCodec | ChessCodec

  function ParsePoint(codec: Codec, s: string): Option<XYPoint>
  {
    match codec
    case GoCodec => Go.ParsePoint(s)
    case ChessCodec => Chess.ParsePoint(s)
  }

  function ParseStone(codec: Codec, s: string): Option<Stone>
  {
    match codec
    case GoCodec => Go.ParseStone(s)
    case ChessCodec => Chess.ParseStone(s)
  }

  function ParseMove(codec: Codec, s: string): Move
  {
    match codec
    case GoCodec => Go.ParseMove(s)
    case ChessCodec => Chess.ParseMove(s)
  }

  function RangeTo(codec: Codec, p: XYPoint, q: XYPoint): seq<XYPoint>
  {
    match codec
    case GoCodec => Go.RangeTo(p, q)
    case ChessCodec => Chess.RangeTo(p, q)
  }

  /**
   * `pointToStone`: Go points and stones are the same, so a point becomes a
   * stone; the chess parser keeps the default, which converts nothing.
   */
  function PointToStone(codec: Codec, p: XYPoint): (r: Option<Stone>)
    ensures codec.GoCodec? ==> r == Some(XYStone(p))
    ensures codec.ChessCodec? ==> r.None?
  {
    match codec
    case GoCodec => Some(XYStone(p))
    case ChessCodec => None
  }

  /** Kotlin's `mapNotNull`. */
  function MapPointsToStones(codec: Codec, ps: seq<XYPoint>): (r: seq<Stone>)
    ensures codec.GoCodec? ==> |r| == |ps| && forall i :: 0 <= i < |ps| ==> r[i] == XYStone(ps[i])
    ensures codec.ChessCodec? ==> r == []
  {
    if |ps| == 0 then []
    else
      match PointToStone(codec, ps[0])
      case Some(st) => [st] + MapPointsToStones(codec, ps[1..])
      case None => MapPointsToStones(codec, ps[1..])
  }

  /**
   * `parsePointList`: with a ':' the rectangle between the first two parts,
   * otherwise the single point; an unreadable value gives the empty list.
   */
  function ParsePointList(codec: Codec, s: string): (r: seq<XYPoint>)
    ensures ':' !in s ==> r == match ParsePoint(codec, s) case Some(p) => [p] case None => []
  {
    if ':' in s then
      var parts := Split(s, ':');
      match (ParsePoint(codec, parts[0]), ParsePoint(codec, parts[1]))
      case (Some(p), Some(q)) => RangeTo(codec, p, q)
      case _ => []
    else
      match ParsePoint(codec, s)
      case Some(p) => [p]
      case None => []
  }

  /**
   * `parseStoneList`: as `ParsePointList`, with the rectangle's points turned
   * into stones by `PointToStone`.
   */
  function ParseStoneList(codec: Codec, s: string): (r: seq<Stone>)
    ensures ':' !in s ==> r == match ParseStone(codec, s) case Some(st) => [st] case None => []
  {
    if ':' in s then
      var parts := Split(s, ':');
      match (ParsePoint(codec, parts[0]), ParsePoint(codec, parts[1]))
      case (Some(p), Some(q)) => MapPointsToStones(codec, RangeTo(codec, p, q))
      case _ => []
    else
      match ParseStone(codec, s)
      case Some(st) => [st]
      case None => []
  }

  /** In Go every stone list is the point list read as stones, compressed or not. */
  lemma GoStoneListIsPointList(s: string)
    ensures |ParseStoneList(GoCodec, s)| == |ParsePointList(GoCodec, s)|
    ensures forall i :: 0 <= i < |ParseStoneList(GoCodec, s)| ==>
      ParseStoneList(GoCodec, s)[i] == XYStone(ParsePointList(GoCodec, s)[i])
  {
  }

  /** A chess stone list cannot be compressed: a ':' gives the empty list. */
  lemma ChessCompressedStoneListEmpty(s: string)
    requires ':' in s
    ensures ParseStoneList(ChessCodec, s) == []
  {
  }

  /** A compressed Go point list holds exactly the points of its rectangle. */
  lemma CompressedGoPointList(a: string, b: string, p: XYPoint, q: XYPoint)
    requires |a| == 2 && |b| == 2
    requires Go.ParsePoint(a) == Some(p) && Go.ParsePoint(b) == Some(q)
    ensures forall pt :: pt in ParsePointList(GoCodec, a + ":" + b) <==>
      p.x <= pt.x <= q.x && p.y <= pt.y <= q.y
  {
    assert ':' !in a && ':' !in b;
    SplitTwo(a, b, ':');
    Go.RangeToMembers(p, q);
  }

  /** A compressed value with an unreadable corner gives the empty list. */
  lemma CompressedListBadCorner(codec: Codec, a: string, b: string)
    requires ':' !in a && ':' !in b
    requires ParsePoint(codec, a).None? || ParsePoint(codec, b).None?
    ensures ParsePointList(codec, a + ":" + b) == []
    ensures ParseStoneList(codec, a + ":" + b) == []
  {
    SplitTwo(a, b, ':');
  }
}
