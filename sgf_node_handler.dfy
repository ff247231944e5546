/**
 * `SgfNodeHandler`: turns the properties of one node into changes of the
 * state. Every node opens new frames (`initStep`); then each property is
 * handled in node order by the private helper its class calls: moves go to
 * the move handler of the current game, setup properties add or remove
 * pieces, annotations become node information, markup becomes markup or
 * inherited markup, and the root properties configure the game.
 *
 * The `when` over property classes is the table `Action` from identifier to
 * helper; `Apply` is the helper's effect on the state's fields. The methods
 * at the end run the same helpers on an `SgfState` and are proved to have
 * exactly that effect.
 */
module NodeHandler {
  import opened Wrappers
  import opened SgfTree
  import opened SgfData
  import opened BoardState
  import opened State
  import opened SgfValues
  import GoMoveHandler
  import ChessHandle

  /** The move handlers there are: Go's and the chess plug-in's. */
  datatype MoveHandlerKind = GoHandler | ChessHandler

  /** The custom property handlers there are: none (the default) and the chess plug-in's. */
  datatype CustomHandlerKind = NoCustomHandler | ChessCustomHandler

  /** What the companion object holds: the move handler registered per game id, and the custom property handler. */
  datatype Registry = Registry(strategies: map<int, MoveHandlerKind>, custom: CustomHandlerKind)

  /** `GameId.GO`. */
  const GO: int := 1

  /** The companion object's initial registrations: Go's handler for game 1 and no custom handler. */
  function DefaultRegistry(): (r: Registry)
    ensures r.strategies.Keys == {GO} && r.strategies[GO] == GoHandler && r.custom == NoCustomHandler
  {
    Registry(map[GO := GoHandler], NoCustomHandler)
  }

  /** The frames a property handler writes to exist: `initStep` has run. */
  predicate Ready(v: StateValue)
  {
    |v.incrementalPieces| > 0 && |v.moveInfo| > 0 && |v.inherited| > 0
  }

  /** The three histories have the same lengths in both states. */
  predicate SameFrames(v: StateValue, w: StateValue)
  {
    |w.incrementalPieces| == |v.incrementalPieces| && |w.moveInfo| == |v.moveInfo| && |w.inherited| == |v.inherited|
  }

  // ------------------------------------------------------------- the dispatch table

  /** The private helper a property class is handled by. */
  datatype Act =
    | ActMove(color: Color)         // makeMove
    | ActNone                       // KO, CA, FF, FG, PM: nothing
    | ActMoveNumber                 // setMoveNumber
    | ActStones(color: Color)       // addStones
    | ActRemovePoints               // removePoints
    | ActColor                      // setColor
    | ActText(id: Id)               // addNodeInfo(key, text)
    | ActEmphasis(id: Id)           // addNodeInfo(key[emphasis])
    | ActNumber(id: Id)             // addNodeInfo(key, "${number}")
    | ActKey(id: Id)                // addNodeInfo(key)
    | ActCompose(kind: MarkupType)  // addComposeMarkup
    | ActPoints(kind: MarkupType)   // addPointMarkup
    | ActLabels(kind: MarkupType)   // addLabelMarkup
    | ActInherits(kind: MarkupType) // addPointInherits
    | ActApp                        // the two AP infos
    | ActGameId                     // setGameId
    | ActVariations                 // configureVariations
    | ActSize                       // setBoardSize

  /** The `when` of `processNode` as written, where GB is reported under DM's key. */
  function ActionAsWritten(id: Id): Act
  {
    match id
    case IdB => ActMove(BLACK)
    case IdW => ActMove(WHITE)
    case IdKO | IdCA | IdFF | IdFG | IdPM => ActNone
    case IdMN => ActMoveNumber
    case IdAB => ActStones(BLACK)
    case IdAW => ActStones(WHITE)
    case IdAE => ActRemovePoints
    case IdPL => ActColor
    case IdGB => ActEmphasis(IdDM)
    case IdDM | IdGW | IdHO | IdUC | IdBM | IdTE => ActEmphasis(id)
    case IdV | IdTM | IdBL | IdOB | IdOW | IdWL | IdHA | IdKM => ActNumber(id)
    case IdDO | IdIT => ActKey(id)
    case IdAR => ActCompose(ARROW)
    case IdLN => ActCompose(LINE)
    case IdCR => ActPoints(CIRCLE)
    case IdMA => ActPoints(X)
    case IdSL => ActPoints(SELECT)
    case IdSQ => ActPoints(SQUARE)
    case IdTR => ActPoints(TRIANGLE)
    case IdTB => ActPoints(BLACK_TERRITORY)
    case IdTW => ActPoints(WHITE_TERRITORY)
    case IdLB => ActLabels(LABEL)
    case IdDD => ActInherits(DIM)
    case IdVW => ActInherits(VISIBLE)
    case IdAP => ActApp
    case IdGM => ActGameId
    case IdST => ActVariations
    case IdSZ => ActSize
    case IdC | IdN | IdAN | IdBR | IdBT | IdCP | IdDT | IdEV | IdGN | IdGC | IdON | IdOT | IdPB | IdPC | IdPW
      | IdRE | IdRO | IdRU | IdSO | IdUS | IdWR | IdWT => ActText(id)
  }

  /** The dispatch table as intended: GB under its own key; every other class as written. */
  function Action(id: Id): (r: Act)
    ensures id != IdGB ==> r == ActionAsWritten(id)
    ensures id == IdGB ==> r == ActEmphasis(IdGB)
  {
    if id == IdGB then ActEmphasis(IdGB) else ActionAsWritten(id)
  }

  // ------------------------------------------------------------- moves and setup

  /** `moveHandler(colorValue, move)` for the handler kind. */
  function RunMoveHandler(h: MoveHandlerKind, v: StateValue, color: Color, move: Move): (r: (StateValue, Option<MoveInfo>))
    requires |v.incrementalPieces| > 0
    ensures |r.0.incrementalPieces| == |v.incrementalPieces|
    ensures r.0 == v.(incrementalPieces := r.0.incrementalPieces, currentPieces := r.0.currentPieces)
  {
    match h
    case GoHandler => GoMoveHandler.GoMove(v, color, move)
    case ChessHandler => ChessHandle.ChessMove(v, color, move)
  }

  /** `makeMove`: the move handler moves, and the information it returns, if any, is added. */
  function MakeMove(h: MoveHandlerKind, v: StateValue, color: Color, move: Move): (r: StateValue)
    requires Ready(v)
    ensures SameFrames(v, r)
  {
    var (w, info) := RunMoveHandler(h, v, color, move);
    if info.Some? then AddMoveInfo(w, info.value) else w
  }

  /** `stones.map { Piece(colorValue, it) }`. */
  function StonePieces(color: Color, stones: seq<Stone>): (r: seq<Piece>)
  {
    seq(|stones|, i requires 0 <= i < |stones| => Piece(color, Some(stones[i])))
  }

  /** `board.filter { it.stone?.point == point }`. */
  function StandingOn(b: seq<Piece>, pt: XYPoint): (r: seq<Piece>)
    ensures forall q :: multiset(r)[q] == if PiecePoint(q) == Some(pt) then multiset(b)[q] else 0
  {
    if |b| == 0 then []
    else
      var last := b[|b| - 1];
      assert b == b[..|b| - 1] + [last];
      StandingOn(b[..|b| - 1], pt) + (if PiecePoint(last) == Some(pt) then [last] else [])
  }

  /** `points.flatMap { point -> board.filter { it.stone?.point == point } }`. */
  function OnPoints(b: seq<Piece>, pts: seq<XYPoint>): (r: seq<Piece>)
  {
    if |pts| == 0 then [] else OnPoints(b, pts[..|pts| - 1]) + StandingOn(b, pts[|pts| - 1])
  }

  /** A piece is listed once for every listed point it stands on, as often as it is on the board. */
  lemma {:induction false} OnPointsCount(b: seq<Piece>, pts: seq<XYPoint>, q: Piece)
    ensures PiecePoint(q).None? || PiecePoint(q).value !in pts ==> multiset(OnPoints(b, pts))[q] == 0
    ensures PiecePoint(q).Some? && PiecePoint(q).value in pts ==> multiset(OnPoints(b, pts))[q] >= multiset(b)[q]
  {
    if |pts| > 0 {
      var init := pts[..|pts| - 1];
      OnPointsCount(b, init, q);
      assert pts == init + [pts[|pts| - 1]];
    }
  }

  /** `removePoints`: the pieces standing on the listed points, on the board as it was, are removed. */
  function RemovePoints(v: StateValue, pts: seq<XYPoint>): (r: StateValue)
    requires |v.incrementalPieces| > 0
    ensures |r.incrementalPieces| == |v.incrementalPieces|
    ensures r == v.(incrementalPieces := r.incrementalPieces, currentPieces := r.currentPieces)
  {
    RemovePieces(v, OnPoints(v.currentPieces, pts))
  }

  /** AE removes every piece standing on a listed point, and only those. */
  lemma RemovePointsFacts(v: StateValue, pts: seq<XYPoint>)
    requires |v.incrementalPieces| > 0
    ensures forall q :: PiecePoint(q).Some? && PiecePoint(q).value in pts ==> q !in RemovePoints(v, pts).currentPieces
    ensures forall q :: PiecePoint(q).None? || PiecePoint(q).value !in pts ==>
      multiset(RemovePoints(v, pts).currentPieces)[q] == multiset(v.currentPieces)[q]
  {
    RemovePiecesCount(v, OnPoints(v.currentPieces, pts));
    forall q {
      OnPointsCount(v.currentPieces, pts, q);
    }
  }

  /** AB and AW place each listed stone alone on its point, when the stones' points differ, and leave every other point as it was. */
  lemma AddStonesFacts(v: StateValue, color: Color, stones: seq<Stone>)
    requires |v.incrementalPieces| > 0
    requires forall i, j :: 0 <= i < j < |stones| ==> stones[i].point != stones[j].point
    ensures var b := AddPieces(v, StonePieces(color, stones)).currentPieces;
      && (forall i :: 0 <= i < |stones| ==> ChessHandle.Alone(b, Piece(color, Some(stones[i]))))
      && (forall q :: (forall i :: 0 <= i < |stones| ==> PiecePoint(q) != Some(stones[i].point)) ==>
            multiset(b)[q] == multiset(v.currentPieces)[q])
  {
    var ps := StonePieces(color, stones);
    assert forall i :: 0 <= i < |ps| ==> PiecePoint(ps[i]) == Some(stones[i].point);
    ChessHandle.AddPiecesAlone(v, ps);
  }

  // ------------------------------------------------------------- node information

  /** `"${property.value.number}"`: an integer in decimal, a real as the numeral it was read from. */
  function NumberText(value: SgfValue): Option<string>
  {
    match value
    case NumberValue(n) => Some(IntDecimal(n))
    case RealValue(x) => Some(x.text)
    case _ => None
  }

  /** `setColor`: the colour to play is set, and the player is reported. */
  function SetColor(v: StateValue, c: Color): StateValue
  {
    AddNodeInfo(v.(colorJustSet := Some(c)), NodeInfo(Some(PlayerKey(c)), None))
  }

  /** PL makes its colour the next to play, whatever was played before. */
  lemma SetColorNext(v: StateValue, c: Color)
    ensures BoardState.NextColor(SetColor(v, c)) == c
    ensures SetColor(v, c).nodeInfo == v.nodeInfo + [NodeInfo(Some(PlayerKey(c)), None)]
  {
  }

  // ------------------------------------------------------------- markup

  /** `values.map { Markup(type, it) }`. */
  function PointMarks(kind: MarkupType, pts: seq<XYPoint>): seq<Markup>
  {
    seq(|pts|, i requires 0 <= i < |pts| => Markup(kind, pts[i], None, None))
  }

  /** `values.map { Markup(type, it.first, it.second) }`. */
  function ComposeMarks(kind: MarkupType, pairs: seq<(XYPoint, XYPoint)>): seq<Markup>
  {
    seq(|pairs|, i requires 0 <= i < |pairs| => Markup(kind, pairs[i].0, Some(pairs[i].1), None))
  }

  /** `values.map { Markup(type, it.first, label = it.second.text) }`. */
  function LabelMarks(kind: MarkupType, labels: seq<(XYPoint, string)>): seq<Markup>
  {
    seq(|labels|, i requires 0 <= i < |labels| => Markup(kind, labels[i].0, None, Some(labels[i].1)))
  }

  /** `addPointInherits`: the points' markup, or a single null that clears the inherited markup. */
  function InheritMarks(kind: MarkupType, pts: seq<XYPoint>): (r: seq<Option<Markup>>)
  {
    if |pts| > 0 then seq(|pts|, i requires 0 <= i < |pts| => Some(Markup(kind, pts[i], None, None))) else [None]
  }

  /** The markup a DD or VW property adds is exactly its points' markup, and an empty list adds none. */
  lemma InheritMarksPresent(kind: MarkupType, pts: seq<XYPoint>)
    ensures InheritMarks(kind, pts) != []
    ensures pts == [] ==> Present(InheritMarks(kind, pts)) == []
    ensures forall m :: m in Present(InheritMarks(kind, pts)) <==> m in PointMarks(kind, pts)
  {
    var ms := InheritMarks(kind, pts);
    forall m
      ensures Some(m) in ms <==> m in PointMarks(kind, pts)
    {
      if m in PointMarks(kind, pts) {
        var i :| 0 <= i < |pts| && PointMarks(kind, pts)[i] == m;
        assert ms[i] == Some(m);
      }
      if Some(m) in ms {
        var i :| 0 <= i < |ms| && ms[i] == Some(m);
        if pts != [] {
          assert PointMarks(kind, pts)[i] == m;
        }
      }
    }
    if pts == [] {
      assert Present(ms) == Present([]) + [];
    }
  }

  /**
   * DD or VW as the node's first inherited markup: the markup shown is
   * exactly the listed points', and an empty list clears what earlier nodes
   * left.
   */
  lemma InheritsShown(v: StateValue, kind: MarkupType, pts: seq<XYPoint>)
    requires |v.inherited| > 0 && v.inherited[|v.inherited| - 1] == []
    ensures var shown := InheritedMarkup(AddInherits(v, InheritMarks(kind, pts)).inherited);
      && (pts == [] ==> shown == [])
      && (forall m :: m in shown <==> m in PointMarks(kind, pts))
  {
    var n := |v.inherited| - 1;
    var ms := InheritMarks(kind, pts);
    var inh := AddInherits(v, ms).inherited;
    assert v.inherited[n] + ms == ms;
    assert inh == inh[..n] + [inh[n]];
    InheritMarksPresent(kind, pts);
    InheritedMarkupFrames(v.inherited[..n], ms);
  }

  // ------------------------------------------------------------- game configuration

  /** `setGameId`: the game id, a 19x19 board for Go and 8x8 otherwise. */
  function SetGameId(v: StateValue, n: int): StateValue
  {
    var side := if n == GO then 19 else 8;
    v.(gameId := n, numCols := side, numRows := side)
  }

  /** `moveHandlerStrategies[number] ?: GoMoveHandler`. */
  function Strategy(reg: Registry, n: int): MoveHandlerKind
  {
    if n in reg.strategies then reg.strategies[n] else GoHandler
  }

  /** GM: Go gets a 19x19 board, every other game 8x8; the handler is the one registered for the game, or Go's. */
  lemma GameIdFacts(v: StateValue, reg: Registry, n: int)
    requires Ready(v)
    ensures var (r, h) := Apply(reg, GoHandler, v, ActGameId, NumberValue(n));
      && r.gameId == n
      && (n == GO ==> r.numCols == 19 && r.numRows == 19)
      && (n != GO ==> r.numCols == 8 && r.numRows == 8)
      && (n in reg.strategies ==> h == reg.strategies[n])
      && (n !in reg.strategies ==> h == GoHandler)
      && (reg == DefaultRegistry() ==> h == GoHandler)
  {
  }

  /** `configureVariations`: an even value shows successors, an odd one siblings; a value below 2 shows them. */
  function ConfigureVariations(v: StateValue, n: int): StateValue
  {
    v.(variationMode := if n % 2 == 0 then SUCCESSORS else SIBLINGS, showVariations := n < 2)
  }

  /**
   * ST is the sum of 0 (successors) or 1 (siblings) and 0 (show) or 2
   * (hide): the two parts are read back from the sum.
   */
  lemma VariationsDecode(v: StateValue, siblings: bool, hidden: bool)
    ensures var r := ConfigureVariations(v, (if siblings then 1 else 0) + (if hidden then 2 else 0));
      && (r.variationMode == SIBLINGS <==> siblings)
      && (r.showVariations <==> !hidden)
      && r == v.(variationMode := r.variationMode, showVariations := r.showVariations)
  {
  }

  // ------------------------------------------------------------- the effect of one property

  /** The helpers that change the board. */
  predicate BoardAct(act: Act)
  {
    act.ActMove? || act.ActStones? || act.ActRemovePoints?
  }

  /** The helpers that add node information or set the numbers and colour of the node. */
  predicate InfoAct(act: Act)
  {
    act.ActMoveNumber? || act.ActColor? || act.ActText? || act.ActEmphasis? || act.ActNumber? || act.ActKey? || act.ActApp?
  }

  /** The helpers that add markup. */
  predicate MarkupAct(act: Act)
  {
    act.ActCompose? || act.ActPoints? || act.ActLabels? || act.ActInherits?
  }

  /** makeMove, addStones, removePoints. A value of another type than the class's does nothing. */
  function BoardEffect(h: MoveHandlerKind, v: StateValue, act: Act, value: SgfValue): (r: StateValue)
    requires Ready(v) && BoardAct(act)
    ensures SameFrames(v, r)
  {
    match act
    case ActMove(color) => if value.MoveValue? then MakeMove(h, v, color, value.move) else v
    case ActStones(color) => if value.StoneList? then AddPieces(v, StonePieces(color, value.stones)) else v
    case ActRemovePoints => if value.PointList? then RemovePoints(v, value.points) else v
  }

  /** setMoveNumber, setColor and the addNodeInfo calls. */
  function InfoEffect(v: StateValue, act: Act, value: SgfValue): (r: StateValue)
    requires Ready(v) && InfoAct(act)
    ensures SameFrames(v, r)
    ensures r.currentPieces == v.currentPieces && r.incrementalPieces == v.incrementalPieces
    ensures r.markup == v.markup && r.inherited == v.inherited
  {
    match act
    case ActMoveNumber => if value.NumberValue? then SetMoveNumber(v, Some(value.number)) else v
    case ActColor => if value.ColorValue? then SetColor(v, value.color) else v
    case ActText(id) => if value.TextValue? then AddNodeInfo(v, NodeInfo(Some(PropertyKey(id)), Some(value.text))) else v
    case ActEmphasis(id) => if value.DoubleValue? then AddNodeInfo(v, NodeInfo(Some(EmphasisKey(id, value.emphasis)), None)) else v
    case ActNumber(id) =>
      (match NumberText(value) case Some(t) => AddNodeInfo(v, NodeInfo(Some(PropertyKey(id)), Some(t))) case None => v)
    case ActKey(id) => AddNodeInfo(v, NodeInfo(Some(PropertyKey(id)), None))
    case ActApp =>
      if value.AppValue? then
        AddNodeInfo(AddNodeInfo(v, NodeInfo(Some(AppNameKey), Some(value.name))), NodeInfo(Some(AppVersionKey), Some(value.version)))
      else v
  }

  /** addComposeMarkup, addPointMarkup, addLabelMarkup, addPointInherits. */
  function MarkupEffect(v: StateValue, act: Act, value: SgfValue): (r: StateValue)
    requires Ready(v) && MarkupAct(act)
    ensures SameFrames(v, r)
    ensures r == v.(markup := r.markup, inherited := r.inherited)
  {
    match act
    case ActCompose(kind) => if value.PairList? then AddMarkups(v, ComposeMarks(kind, value.pairs)) else v
    case ActPoints(kind) => if value.PointList? then AddMarkups(v, PointMarks(kind, value.points)) else v
    case ActLabels(kind) => if value.LabelList? then AddMarkups(v, LabelMarks(kind, value.labels)) else v
    case ActInherits(kind) => if value.PointList? then AddInherits(v, InheritMarks(kind, value.points)) else v
  }

  /** setGameId (which also picks the move handler), configureVariations, setBoardSize. */
  function ConfigEffect(reg: Registry, h: MoveHandlerKind, v: StateValue, act: Act, value: SgfValue): (r: (StateValue, MoveHandlerKind))
    requires act.ActGameId? || act.ActVariations? || act.ActSize?
    ensures r.0 == v.(gameId := r.0.gameId, numCols := r.0.numCols, numRows := r.0.numRows,
                      variationMode := r.0.variationMode, showVariations := r.0.showVariations)
    ensures !act.ActGameId? ==> r.1 == h
  {
    match act
    case ActGameId => if value.NumberValue? then (SetGameId(v, value.number), Strategy(reg, value.number)) else (v, h)
    case ActVariations => (if value.NumberValue? then ConfigureVariations(v, value.number) else v, h)
    case ActSize => (if value.SizeValue? then v.(numCols := value.columns, numRows := value.rows) else v, h)
  }

  /** The effect of one helper with the property's value; only GM changes the move handler. */
  function Apply(reg: Registry, h: MoveHandlerKind, v: StateValue, act: Act, value: SgfValue): (r: (StateValue, MoveHandlerKind))
    requires Ready(v)
    ensures SameFrames(v, r.0)
    ensures !act.ActGameId? ==> r.1 == h
  {
    if BoardAct(act) then (BoardEffect(h, v, act, value), h)
    else if InfoAct(act) then (InfoEffect(v, act, value), h)
    else if MarkupAct(act) then (MarkupEffect(v, act, value), h)
    else if act.ActNone? then (v, h)
    else ConfigEffect(reg, h, v, act, value)
  }

  /** `customPropertyHandler(ident, value)`. */
  function HandleCustom(reg: Registry, v: StateValue, ident: string, raw: string): (r: StateValue)
    requires Ready(v)
    ensures SameFrames(v, r)
    ensures reg.custom == NoCustomHandler ==> r == v
  {
    match reg.custom
    case NoCustomHandler => v
    case ChessCustomHandler => ChessHandle.ChessCustom(v, ident, raw)
  }

  /** One property of the node. */
  function HandleProperty(reg: Registry, h: MoveHandlerKind, v: StateValue, p: Property): (r: (StateValue, MoveHandlerKind))
    requires Ready(v)
    ensures SameFrames(v, r.0)
  {
    match p
    case Custom(ident, raw) => (HandleCustom(reg, v, ident, raw), h)
    case Prop(id, value) => Apply(reg, h, v, Action(id), value)
  }

  /** The properties handled in order, from state `v` and move handler `h`. */
  function HandleProperties(reg: Registry, h: MoveHandlerKind, v: StateValue, props: seq<Property>): (r: (StateValue, MoveHandlerKind))
    requires Ready(v)
    ensures SameFrames(v, r.0)
  {
    if |props| == 0 then (v, h)
    else
      var (w, g) := HandleProperties(reg, h, v, props[..|props| - 1]);
      HandleProperty(reg, g, w, props[|props| - 1])
  }

  /** `processNode`: one `initStep`, then the properties in node order. */
  function HandleNode(reg: Registry, h: MoveHandlerKind, v: StateValue, node: Node): (r: (StateValue, MoveHandlerKind))
  {
    HandleProperties(reg, h, BoardState.InitStep(v), node)
  }

  /** Handling two runs of properties one after the other is handling them joined. */
  lemma {:induction false} HandlePropertiesAppend(reg: Registry, h: MoveHandlerKind, v: StateValue, a: seq<Property>, b: seq<Property>)
    requires Ready(v)
    ensures var (w, g) := HandleProperties(reg, h, v, a);
      HandleProperties(reg, h, v, a + b) == HandleProperties(reg, g, w, b)
  {
    if |b| == 0 {
      assert a + b == a;
    } else {
      HandlePropertiesAppend(reg, h, v, a, b[..|b| - 1]);
      assert (a + b)[..|a + b| - 1] == a + b[..|b| - 1];
      assert (a + b)[|a + b| - 1] == b[|b| - 1];
    }
  }

  /**
   * A node opens exactly one new frame in each history, and handling it
   * property by property is handling each property in node order.
   */
  lemma ProcessNodeFrames(reg: Registry, h: MoveHandlerKind, v: StateValue, node: Node)
    ensures var r := HandleNode(reg, h, v, node).0;
      && |r.incrementalPieces| == |v.incrementalPieces| + 1
      && |r.moveInfo| == |v.moveInfo| + 1
      && |r.inherited| == |v.inherited| + 1
    ensures |node| > 0 ==>
      var (w, g) := HandleNode(reg, h, v, node[..|node| - 1]);
      HandleNode(reg, h, v, node) == HandleProperty(reg, g, w, node[|node| - 1])
  {
  }

  /** A move handler that refuses the move leaves its state, and no move information is added. */
  lemma RefusedMoveIgnored(h: MoveHandlerKind, v: StateValue, color: Color, move: Move)
    requires Ready(v)
    ensures RunMoveHandler(h, v, color, move).1.None? ==> MakeMove(h, v, color, move) == RunMoveHandler(h, v, color, move).0
    ensures h == ChessHandler && move.XYMove? ==> MakeMove(h, v, color, move) == v
    ensures h == GoHandler && !move.XYMove? ==> MakeMove(h, v, color, move) == v
    ensures RunMoveHandler(h, v, color, move).1.Some? ==>
      var (w, info) := RunMoveHandler(h, v, color, move);
      MakeMove(h, v, color, move) == AddMoveInfo(w, info.value)
  {
    GoMoveHandler.GoMovePasses(v, color, move);
  }

  /**
   * As written, GB[e] and DM[e] report the same node information, so a
   * position good for black reads as an even one; with GB's own key they differ.
   */
  lemma GoodForBlackAsWritten(reg: Registry, h: MoveHandlerKind, v: StateValue, e: Emphasis)
    requires Ready(v)
    ensures Apply(reg, h, v, ActionAsWritten(IdGB), DoubleValue(e)) == Apply(reg, h, v, ActionAsWritten(IdDM), DoubleValue(e))
    ensures Apply(reg, h, v, Action(IdGB), DoubleValue(e)) != Apply(reg, h, v, Action(IdDM), DoubleValue(e))
  {
    var a := Apply(reg, h, v, Action(IdGB), DoubleValue(e)).0.nodeInfo;
    var b := Apply(reg, h, v, Action(IdDM), DoubleValue(e)).0.nodeInfo;
    assert a[|a| - 1] != b[|b| - 1];
  }

  // ------------------------------------------------------------- the handler on SgfState

  /** The companion object of `SgfNodeHandler`: its registrations, shared by every handler. */
  class Companion {
    var moveHandlerStrategies: map<int, MoveHandlerKind>
    var customPropertyHandler: CustomHandlerKind

    constructor()
      ensures Registry(moveHandlerStrategies, customPropertyHandler) == DefaultRegistry()
    {
      moveHandlerStrategies := map[GO := GoHandler];
      customPropertyHandler := NoCustomHandler;
    }

    /** The registrations as a value. */
    function Value(): Registry
      reads this
    {
      Registry(moveHandlerStrategies, customPropertyHandler)
    }

    /** `useMoveHandler`: the handler for the game id is set, or replaced. */
    method UseMoveHandler(gameId: int, h: MoveHandlerKind)
      modifies this
      ensures moveHandlerStrategies == old(moveHandlerStrategies)[gameId := h]
      ensures customPropertyHandler == old(customPropertyHandler)
    {
      moveHandlerStrategies := moveHandlerStrategies[gameId := h];
    }

    /** `useCustomPropertyHandler`. */
    method UseCustomPropertyHandler(h: CustomHandlerKind)
      modifies this
      ensures customPropertyHandler == h
      ensures moveHandlerStrategies == old(moveHandlerStrategies)
    {
      customPropertyHandler := h;
    }
  }

  class SgfNodeHandler {
    /** The move handler of the current game; Go's until a GM property picks another. */
    var moveHandler: MoveHandlerKind
    const companion: Companion

    constructor(companion: Companion)
      ensures moveHandler == GoHandler && this.companion == companion
    {
      moveHandler := GoHandler;
      this.companion := companion;
    }

    /** `processNode`. */
    method ProcessNode(state: SgfState, node: Node)
      modifies this, state
      ensures (state.Value(), moveHandler) == HandleNode(companion.Value(), old(moveHandler), old(state.Value()), node)
      ensures state.snapshots == old(state.snapshots) + [multiset(old(state.currentPieces))]
      ensures old(state.Valid()) ==> state.Valid()
    {
      state.InitStep();
      ghost var v0 := state.Value();
      ghost var h0 := moveHandler;
      ghost var valid := state.Valid();
      var reg := companion.Value();
      for i := 0 to |node|
        invariant Ready(state.Value())
        invariant (state.Value(), moveHandler) == HandleProperties(reg, h0, v0, node[..i])
        invariant state.snapshots == old(state.snapshots) + [multiset(old(state.currentPieces))]
        invariant valid ==> state.Valid()
      {
        assert node[..i + 1][..i] == node[..i];
        moveHandler := HandlePropertyOn(state, reg, moveHandler, node[i]);
      }
      assert node[..|node|] == node;
    }
  }

  /** One property of `processNode` on the state; the result is the move handler afterwards. */
  method HandlePropertyOn(state: SgfState, reg: Registry, h: MoveHandlerKind, p: Property) returns (g: MoveHandlerKind)
    requires Ready(state.Value())
    modifies state
    ensures (state.Value(), g) == HandleProperty(reg, h, old(state.Value()), p)
    ensures state.snapshots == old(state.snapshots)
    ensures old(state.Valid()) ==> state.Valid()
  {
    g := h;
    match p
    case Custom(ident, raw) =>
      if reg.custom == ChessCustomHandler {
        ChessHandle.CustomPropertyHandler(state, ident, raw);
      }
    case Prop(id, value) =>
      var act := Action(id);
      if BoardAct(act) {
        BoardOn(state, h, act, value);
      } else if InfoAct(act) {
        InfoOn(state, act, value);
      } else if MarkupAct(act) {
        MarkupOn(state, act, value);
      } else if !act.ActNone? {
        g := ConfigOn(state, reg, h, act, value);
      }
  }

  /** makeMove, addStones and removePoints on the state. */
  method BoardOn(state: SgfState, h: MoveHandlerKind, act: Act, value: SgfValue)
    requires Ready(state.Value()) && BoardAct(act)
    modifies state
    ensures state.Value() == BoardEffect(h, old(state.Value()), act, value)
    ensures state.snapshots == old(state.snapshots)
    ensures old(state.Valid()) ==> state.Valid()
  {
    match act
    case ActMove(color) =>
      if value.MoveValue? {
        MakeMoveOn(state, h, color, value.move);
      }
    case ActStones(color) =>
      if value.StoneList? {
        state.AddPieces(StonePieces(color, value.stones));
      }
    case ActRemovePoints =>
      if value.PointList? {
        var board := state.currentPieces;
        state.RemovePieces(OnPoints(board, value.points));
      }
  }

  /** `makeMove` on the state. */
  method MakeMoveOn(state: SgfState, h: MoveHandlerKind, color: Color, move: Move)
    requires Ready(state.Value())
    modifies state
    ensures state.Value() == MakeMove(h, old(state.Value()), color, move)
    ensures state.snapshots == old(state.snapshots)
    ensures old(state.Valid()) ==> state.Valid()
  {
    var info: Option<MoveInfo>;
    match h {
      case GoHandler => info := GoMoveHandler.MakeMove(state, color, move);
      case ChessHandler => info := ChessHandle.MoveHandler(state, color, move);
    }
    if info.Some? {
      state.AddMoveInfo(info.value);
    }
  }

  /** setMoveNumber, setColor and the addNodeInfo calls on the state. */
  method InfoOn(state: SgfState, act: Act, value: SgfValue)
    requires Ready(state.Value()) && InfoAct(act)
    modifies state
    ensures state.Value() == InfoEffect(old(state.Value()), act, value)
    ensures state.snapshots == old(state.snapshots)
    ensures old(state.Valid()) ==> state.Valid()
  {
    match act
    case ActMoveNumber =>
      if value.NumberValue? {
        state.SetMoveNumber(Some(value.number));
      }
    case ActColor =>
      if value.ColorValue? {
        state.colorJustSet := Some(value.color);
        state.AddNodeInfo(NodeInfo(Some(PlayerKey(value.color)), None));
      }
    case ActText(id) =>
      if value.TextValue? {
        state.AddNodeInfo(NodeInfo(Some(PropertyKey(id)), Some(value.text)));
      }
    case ActEmphasis(id) =>
      if value.DoubleValue? {
        state.AddNodeInfo(NodeInfo(Some(EmphasisKey(id, value.emphasis)), None));
      }
    case ActNumber(id) =>
      var text := NumberText(value);
      if text.Some? {
        state.AddNodeInfo(NodeInfo(Some(PropertyKey(id)), Some(text.value)));
      }
    case ActKey(id) =>
      state.AddNodeInfo(NodeInfo(Some(PropertyKey(id)), None));
    case ActApp =>
      if value.AppValue? {
        state.AddNodeInfo(NodeInfo(Some(AppNameKey), Some(value.name)));
        state.AddNodeInfo(NodeInfo(Some(AppVersionKey), Some(value.version)));
      }
  }

  /** The markup helpers on the state. */
  method MarkupOn(state: SgfState, act: Act, value: SgfValue)
    requires Ready(state.Value()) && MarkupAct(act)
    modifies state
    ensures state.Value() == MarkupEffect(old(state.Value()), act, value)
    ensures state.snapshots == old(state.snapshots)
    ensures old(state.Valid()) ==> state.Valid()
  {
    match act
    case ActCompose(kind) =>
      if value.PairList? {
        state.AddMarkups(ComposeMarks(kind, value.pairs));
      }
    case ActPoints(kind) =>
      if value.PointList? {
        state.AddMarkups(PointMarks(kind, value.points));
      }
    case ActLabels(kind) =>
      if value.LabelList? {
        state.AddMarkups(LabelMarks(kind, value.labels));
      }
    case ActInherits(kind) =>
      if value.PointList? {
        state.AddInherits(InheritMarks(kind, value.points));
      }
  }

  /** setGameId, configureVariations and setBoardSize on the state; the result is the move handler afterwards. */
  method ConfigOn(state: SgfState, reg: Registry, h: MoveHandlerKind, act: Act, value: SgfValue) returns (g: MoveHandlerKind)
    requires act.ActGameId? || act.ActVariations? || act.ActSize?
    modifies state
    ensures (state.Value(), g) == ConfigEffect(reg, h, old(state.Value()), act, value)
    ensures state.snapshots == old(state.snapshots)
    ensures old(state.Valid()) ==> state.Valid()
  {
    g := h;
    match act
    case ActGameId =>
      if value.NumberValue? {
        var n := value.number;
        state.gameId := n;
        state.numCols := if n == GO then 19 else 8;
        state.numRows := if n == GO then 19 else 8;
        g := if n in reg.strategies then reg.strategies[n] else GoHandler;
      }
    case ActVariations =>
      if value.NumberValue? {
        state.variationMode := if value.number % 2 == 0 then SUCCESSORS else SIBLINGS;
        state.showVariations := value.number < 2;
      }
    case ActSize =>
      if value.SizeValue? {
        state.numCols := value.columns;
        state.numRows := value.rows;
      }
  }
}
