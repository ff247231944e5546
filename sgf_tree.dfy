/**
 * The SGF game tree and its property and value types.
 *
 * A Kotlin `SgfTree` is a mutable object with a parent reference and a list of
 * child objects. Here every tree of a collection lives in one arena, a sequence
 * of `TreeRec` records, and trees refer to each other by their arena index.
 */
module SgfTree {
  import opened Wrappers

  /** SGF Color values. */
  datatype Color = BLACK | WHITE

  /** Switches black to white and vice versa. */
  function Not(c: Color): (r: Color)
    ensures r != c
  {
    match c
    case WHITE => BLACK
    case BLACK => WHITE
  }

  lemma NotInvolution(c: Color)
    ensures Not(Not(c)) == c
  {
  }

  /** SGF Double (emphasis) values. */
  datatype Emphasis = MUCH | VERY_MUCH

  /** A point in (column, row) coordinates, both starting at 1. */
  datatype XYPoint = XYPoint(x: int, y: int)

  /** Chess piece types, from the chess plug-in. */
  datatype ChessStoneType = KING | QUEEN | ROOK | BISHOP | KNIGHT | PAWN

  /** The game-specific Stone types: a Go stone or a typed chess piece. */
  datatype Stone =
    | XYStone(point: XYPoint)
    | ChessStone(kind: ChessStoneType, point: XYPoint)

  /**
   * The game-specific Move types. A chess move carries the moving stone as its
   * type `kind` and its square `from`, and the target square `to`.
   */
  datatype Move =
    | XYMove(target: Option<XYPoint>)
    | StandardChessMove(kind: ChessStoneType, from: XYPoint, to: XYPoint)
    | CastlingMove(long: bool)
    | ChessPass
    | PromotionMove(kind: ChessStoneType, from: XYPoint, to: XYPoint, promotedTo: ChessStoneType)
    | EnPassantMove(kind: ChessStoneType, from: XYPoint, to: XYPoint)

  /** The target point of a move, if any (`SgfType.Move.point`). */
  function MovePoint(m: Move): (r: Option<XYPoint>)
    ensures m.XYMove? ==> r == m.target
    ensures m.CastlingMove? || m.ChessPass? ==> r.None?
    ensures m.StandardChessMove? || m.PromotionMove? || m.EnPassantMove? ==> r == Some(m.to)
  {
    match m
    case XYMove(t) => t
    case StandardChessMove(_, _, to) => Some(to)
    case PromotionMove(_, _, to, _) => Some(to)
    case EnPassantMove(_, _, to) => Some(to)
    case CastlingMove(_) => None
    case ChessPass => None
  }

  /** An SGF Real value, kept as the numeral text it was read from. */
  datatype Real = Real(text: string)

  /**
   * The typed content of a property value (`SgfType`): SGF None, Move,
   * Number, Color, Double, Real, Text and SimpleText, the lists, and the three
   * composed types that occur (AP, SZ and FG).
   */
  datatype SgfValue =
    | NoValue
    | MoveValue(move: Move)
    | NumberValue(number: int)
    | ColorValue(color: Color)
    | DoubleValue(emphasis: Emphasis)
    | RealValue(amount: Real)
    | TextValue(text: string)
    | StoneList(stones: seq<Stone>)
    | PointList(points: seq<XYPoint>)
    | PairList(pairs: seq<(XYPoint, XYPoint)>)
    | LabelList(labels: seq<(XYPoint, string)>)
    | AppValue(name: string, version: string)
    | SizeValue(columns: int, rows: int)
    | FigureValue(number: int, text: string)

  /** One tag per property class (`SgfProperty.B`, `SgfProperty.KO`, ...). */
  datatype Id =
    | IdB | IdKO | IdMN | IdW | IdAB | IdAE | IdAW | IdPL | IdC
    | IdDM | IdGB | IdGW | IdHO | IdN | IdUC | IdV | IdBM | IdDO
    | IdIT | IdTE | IdAR | IdCR | IdDD | IdLB | IdLN | IdMA | IdSL
    | IdSQ | IdTR | IdAP | IdCA | IdFF | IdGM | IdST | IdSZ | IdAN
    | IdBR | IdBT | IdCP | IdDT | IdEV | IdGN | IdGC | IdON | IdOT
    | IdPB | IdPC | IdPW | IdRE | IdRO | IdRU | IdSO | IdTM | IdUS
    | IdWR | IdWT | IdBL | IdOB | IdOW | IdWL | IdFG | IdPM | IdVW
    | IdHA | IdKM | IdTB | IdTW

  /** The SGF identifier of a property class. */
  function IdName(id: Id): string
  {
    match id
    case IdB => "B" case IdKO => "KO" case IdMN => "MN" case IdW => "W"
    case IdAB => "AB" case IdAE => "AE" case IdAW => "AW" case IdPL => "PL"
    case IdC => "C" case IdDM => "DM" case IdGB => "GB" case IdGW => "GW"
    case IdHO => "HO" case IdN => "N" case IdUC => "UC" case IdV => "V"
    case IdBM => "BM" case IdDO => "DO" case IdIT => "IT" case IdTE => "TE"
    case IdAR => "AR" case IdCR => "CR" case IdDD => "DD" case IdLB => "LB"
    case IdLN => "LN" case IdMA => "MA" case IdSL => "SL" case IdSQ => "SQ"
    case IdTR => "TR" case IdAP => "AP" case IdCA => "CA" case IdFF => "FF"
    case IdGM => "GM" case IdST => "ST" case IdSZ => "SZ" case IdAN => "AN"
    case IdBR => "BR" case IdBT => "BT" case IdCP => "CP" case IdDT => "DT"
    case IdEV => "EV" case IdGN => "GN" case IdGC => "GC" case IdON => "ON"
    case IdOT => "OT" case IdPB => "PB" case IdPC => "PC" case IdPW => "PW"
    case IdRE => "RE" case IdRO => "RO" case IdRU => "RU" case IdSO => "SO"
    case IdTM => "TM" case IdUS => "US" case IdWR => "WR" case IdWT => "WT"
    case IdBL => "BL" case IdOB => "OB" case IdOW => "OW" case IdWL => "WL"
    case IdFG => "FG" case IdPM => "PM" case IdVW => "VW" case IdHA => "HA"
    case IdKM => "KM" case IdTB => "TB" case IdTW => "TW"
  }

  /**
   * An SGF property: an instance of one of the classes, holding its typed
   * value, or a CUSTOM property for any other identifier, holding the
   * identifier and the raw value text.
   */
  datatype Property =
    | Prop(id: Id, value: SgfValue)
    | Custom(ident: string, raw: string)

  /** The SGF identifier of a property. */
  function Ident(p: Property): string
  {
    match p
    case Prop(id, _) => IdName(id)
    case Custom(ident, _) => ident
  }

  /** The classes whose value is a list that further values extend. */
  predicate IsList(id: Id)
  {
    id.IdAB? || id.IdAE? || id.IdAW? || id.IdAR? || id.IdCR? || id.IdDD? || id.IdLB? || id.IdLN? || id.IdMA? || id.IdSL? || id.IdSQ? || id.IdTR? || id.IdVW? || id.IdTB? || id.IdTW?
  }

  /** An SGF node: its properties in the order they were read. */
  type Node = seq<Property>

  /** One game tree: its parent (by arena index), its node sequence and its children. */
  datatype TreeRec = TreeRec(parent: Option<nat>, nodes: seq<Node>, children: seq<nat>)

  /**
   * The child and parent references of tree `t` agree: every child lies later
   * in the arena, names `t` as its parent, and no child is listed twice.
   */
  ghost predicate LinksOk(a: seq<TreeRec>, t: nat)
    requires t < |a|
  {
    && (forall j :: 0 <= j < |a[t].children| ==>
          t < a[t].children[j] < |a| && a[a[t].children[j]].parent == Some(t))
    && (forall j, k :: 0 <= j < k < |a[t].children| ==> a[t].children[j] != a[t].children[k])
  }

  /** Every tree from index `from` on has consistent links and an earlier parent. */
  ghost predicate WellFormedFrom(a: seq<TreeRec>, from: nat)
  {
    forall t {:trigger LinksOk(a, t)} :: from <= t < |a| ==>
      LinksOk(a, t) && (a[t].parent.Some? ==> a[t].parent.value < t)
  }

  /** Kotlin's `MutableList.indexOf` over arena indices: -1 when absent. */
  function IndexOf(s: seq<nat>, t: nat): (r: int)
    ensures -1 <= r < |s|
    ensures r >= 0 ==> s[r] == t && forall j :: 0 <= j < r ==> s[j] != t
    ensures r == -1 <==> t !in s
  {
    if |s| == 0 then -1
    else if s[0] == t then 0
    else var k := IndexOf(s[1..], t); if k < 0 then -1 else k + 1
  }
}
