/**
 * `SgfController`: the glue between the input of a view, the navigator and
 * the state. It loads a game and walks to a position, and turns the user's
 * moves, undo and redo into navigator calls whose nodes it has the node
 * handler process, listing the variations to show after each node.
 *
 * `Ctl` is what the controller's operations change: the navigator's and the
 * state's fields (`Game`, present once a game is loaded) and the node
 * handler's move handler. Each operation is a function on `Ctl`; the class
 * at the end holds the objects and its methods are proved to have the
 * effect of those functions.
 */
module Controller {
  import opened Wrappers
  import opened SgfTree
  import opened BoardState
  import opened State
  import opened Navigator
  import opened NodeHandler
  import SgfParser
  import CoordinateParser

  datatype InteractionMode = FREE_PLAY | COUNTERMOVE | DISABLE

  /** A loaded game: the navigator's fields, the root it was made on, and the state's fields. */
  datatype Game = Game(cur: Cursor, base: nat, st: StateValue)

  /** The loaded game, if any, and the move handler of the node handler. */
  datatype Ctl = Ctl(game: Option<Game>, h: MoveHandlerKind)

  /** The result of an operation in which `stepBack` may throw: what is left, and whether it threw. */
  datatype Outcome = Outcome(c: Ctl, thrown: bool)

  /** The navigator keeps its invariant and the state has one frame of each history per node. */
  ghost predicate GameOk(g: Game)
  {
    NavOk(g.cur, g.base) && Aligned(g.st)
  }

  ghost predicate CtlOk(c: Ctl)
  {
    c.game.Some? ==> GameOk(c.game.value)
  }

  /** The number of nodes the state can step back over. */
  function Frames(g: Game): nat
  {
    |g.st.incrementalPieces|
  }

  /** `showVariations ?: state.showVariations`: the controller's setting overrides the game's. */
  function ShowsVariations(show: Option<bool>, v: StateValue): (r: bool)
    ensures show.Some? ==> r == show.value
    ensures show.None? ==> r == v.showVariations
  {
    match show
    case Some(b) => b
    case None => v.showVariations
  }

  // ------------------------------------------------------------- process

  /**
   * `process`: the node is handled, then, if variations are shown, the
   * navigator's variations (of the successors or of the siblings, as the
   * processed node left the mode) become the state's variation data.
   */
  function ProcessStep(reg: Registry, show: Option<bool>, h: MoveHandlerKind, g: Game, node: Node): (r: (MoveHandlerKind, StateValue))
    requires NavOk(g.cur, g.base)
  {
    var (w, g') := HandleNode(reg, h, g.st, node);
    if ShowsVariations(show, w) then
      (g', SetVariationInfos(w, VariationMoves(g.cur, w.variationMode == SUCCESSORS, g.base)))
    else (g', w)
  }

  /**
   * Processing sets the variation data only when variations are shown, by
   * the controller's setting or else by the one the node leaves in the
   * state: then to the navigator's variations, in the mode the node leaves;
   * otherwise the handled node's data stays. Nothing else differs from
   * handling the node.
   */
  lemma ProcessShowsVariations(reg: Registry, show: Option<bool>, h: MoveHandlerKind, g: Game, node: Node)
    requires NavOk(g.cur, g.base)
    ensures var r := ProcessStep(reg, show, h, g, node);
      var (w, g') := HandleNode(reg, h, g.st, node);
      && r.0 == g'
      && r.1 == w.(variationData := r.1.variationData)
      && (ShowsVariations(show, w) ==> r.1.variationData == Numbered(VariationMoves(g.cur, w.variationMode == SUCCESSORS, g.base)))
      && (!ShowsVariations(show, w) ==> r.1.variationData == w.variationData)
  {
  }

  /** Processing a node opens one frame of each history in the state. */
  lemma ProcessFrames(reg: Registry, show: Option<bool>, h: MoveHandlerKind, g: Game, node: Node)
    requires GameOk(g)
    ensures var st := ProcessStep(reg, show, h, g, node).1;
      Aligned(st) && |st.incrementalPieces| == |g.st.incrementalPieces| + 1
  {
    ProcessNodeFrames(reg, h, g.st, node);
  }

  /** `forEach { it.process() }`: the nodes processed in order, each against the navigator where it stands. */
  function ProcessAll(reg: Registry, show: Option<bool>, h: MoveHandlerKind, g: Game, nodes: seq<Node>): (r: (MoveHandlerKind, StateValue))
    requires NavOk(g.cur, g.base)
    decreases |nodes|
  {
    if |nodes| == 0 then (h, g.st)
    else
      var (h', st) := ProcessAll(reg, show, h, g, nodes[..|nodes| - 1]);
      ProcessStep(reg, show, h', g.(st := st), nodes[|nodes| - 1])
  }

  /** Processing a list of nodes opens one frame per node. */
  lemma {:induction false} ProcessAllFrames(reg: Registry, show: Option<bool>, h: MoveHandlerKind, g: Game, nodes: seq<Node>)
    requires GameOk(g)
    ensures var st := ProcessAll(reg, show, h, g, nodes).1;
      Aligned(st) && |st.incrementalPieces| == |g.st.incrementalPieces| + |nodes|
    decreases |nodes|
  {
    if |nodes| > 0 {
      ProcessAllFrames(reg, show, h, g, nodes[..|nodes| - 1]);
      var (h', st) := ProcessAll(reg, show, h, g, nodes[..|nodes| - 1]);
      ProcessFrames(reg, show, h', g.(st := st), nodes[|nodes| - 1]);
    }
  }

  // ------------------------------------------------------------- redo and undo

  /**
   * `onRedo`: the navigator's `nextNode`; the node it returns is processed.
   * Without a game, or when no node is returned, only the cursor moves (if
   * `nextNode` descended into a variation without nodes).
   */
  function RedoStep(reg: Registry, show: Option<bool>, c: Ctl): (r: Ctl)
    requires CtlOk(c)
    ensures CtlOk(r)
    ensures c.game.None? ==> r == c
    ensures c.game.Some? ==>
      var g := c.game.value;
      var (cur, node) := Next(g.cur, g.base);
      && r.game.Some? && r.game.value.cur == cur && r.game.value.base == g.base
      && (node.None? ==> r == Ctl(Some(g.(cur := cur)), c.h))
      && (node.Some? ==> Frames(r.game.value) == Frames(g) + 1)
  {
    match c.game
    case None => c
    case Some(g) =>
      NextSteps(g.cur, g.base);
      var (cur, node) := Next(g.cur, g.base);
      match node
      case None => Ctl(Some(g.(cur := cur)), c.h)
      case Some(nd) =>
        ProcessFrames(reg, show, c.h, g.(cur := cur), nd);
        var (h, st) := ProcessStep(reg, show, c.h, g.(cur := cur), nd);
        Ctl(Some(Game(cur, g.base, st)), h)
  }

  /**
   * `stepBack` on the state: two frames are dropped. With fewer, the list
   * removal of the second (or first) round throws, after the first round
   * has dropped the one frame there was.
   */
  function StepBackOrThrow(v: StateValue): (r: (StateValue, bool))
    requires Aligned(v)
    ensures r.1 <==> |v.incrementalPieces| < 2
    ensures !r.1 ==> r.0 == StepBack(v)
    ensures |v.incrementalPieces| == 1 ==> r.0 == PopFrame(v)
    ensures |v.incrementalPieces| == 0 ==> r.0 == v
    ensures Aligned(r.0)
  {
    if |v.incrementalPieces| >= 2 then (StepBack(v), false)
    else if |v.incrementalPieces| == 1 then (PopFrame(v), true)
    else (v, true)
  }

  /**
   * `onUndo`: the navigator's `previousNode`; when it returns a node, the
   * state steps back two nodes and the node is processed again, so that it
   * is the last node processed. The result says whether `stepBack` threw.
   */
  function UndoStep(reg: Registry, show: Option<bool>, c: Ctl): (r: Outcome)
    requires CtlOk(c)
    ensures CtlOk(r.c)
    ensures c.game.None? ==> r == Outcome(c, false)
    ensures c.game.Some? ==>
      var g := c.game.value;
      var (cur, node) := Previous(g.cur, g.base);
      && r.c.game.Some? && r.c.game.value.cur == cur && r.c.game.value.base == g.base
      && (node.None? ==> r == Outcome(Ctl(Some(g.(cur := cur)), c.h), false))
      && (node.Some? ==> (r.thrown <==> Frames(g) < 2))
      && (node.Some? && !r.thrown ==> Frames(r.c.game.value) == Frames(g) - 1)
      && (r.thrown ==> r.c.h == c.h)
  {
    match c.game
    case None => Outcome(c, false)
    case Some(g) =>
      PreviousSteps(g.cur, g.base);
      var (cur, node) := Previous(g.cur, g.base);
      match node
      case None => Outcome(Ctl(Some(g.(cur := cur)), c.h), false)
      case Some(nd) =>
        var (back, thrown) := StepBackOrThrow(g.st);
        if thrown then Outcome(Ctl(Some(Game(cur, g.base, back)), c.h), true)
        else
          ProcessFrames(reg, show, c.h, Game(cur, g.base, back), nd);
          var (h, st) := ProcessStep(reg, show, c.h, Game(cur, g.base, back), nd);
          Outcome(Ctl(Some(Game(cur, g.base, st)), h), false)
  }

  /**
   * Redo followed by undo, inside a sequence or into a variation: the
   * cursor is back where it was, no exception is thrown while there is a
   * processed node to step back over, and the state has as many frames as
   * before, with the node the cursor is on processed last.
   */
  lemma RedoThenUndo(reg: Registry, show: Option<bool>, c: Ctl)
    requires CtlOk(c) && c.game.Some?
    requires var g := c.game.value;
      g.cur.tree.Some? && 0 <= g.cur.index < |g.cur.trees[g.cur.tree.value].nodes|
      && Next(g.cur, g.base).1.Some? && Frames(g) >= 1
    ensures var r := UndoStep(reg, show, RedoStep(reg, show, c));
      var g := c.game.value;
      && !r.thrown && r.c.game.Some?
      && r.c.game.value.cur == g.cur
      && Frames(r.c.game.value) == Frames(g)
  {
    var g := c.game.value;
    NextSteps(g.cur, g.base);
    ChildrenAfter(g.cur, g.base);
    assert Next(g.cur, g.base).0 != g.cur;
    NextThenPrevious(g.cur, g.base);
  }

  // ------------------------------------------------------------- moves

  /** `SgfProperty.B(move)` or `SgfProperty.W(move)`, after the colour to play. */
  function MoveProperty(color: Color, move: Move): (p: Property)
    ensures p.Prop? && p.value == MoveValue(move)
    ensures p.id == (if color == BLACK then IdB else IdW)
  {
    match color
    case BLACK => Prop(IdB, MoveValue(move))
    case WHITE => Prop(IdW, MoveValue(move))
  }

  /** Going into a sibling variation: in siblings mode, with variations shown and a variation index given. */
  function SiblingsFirst(show: Option<bool>, v: StateValue, variation: Option<int>): bool
  {
    v.variationMode == SIBLINGS && ShowsVariations(show, v) && variation.Some?
  }

  /**
   * After the optional undo: the move, as a property of the colour to play
   * next, goes to the navigator's `makeMove`; the node it returns is
   * processed, and in countermove mode, once the view has received the
   * state, redo follows.
   */
  function PlayStep(reg: Registry, show: Option<bool>, mode: InteractionMode, view: bool, c: Ctl, move: Move, variation: Option<int>): (r: Ctl)
    requires CtlOk(c) && c.game.Some?
    ensures CtlOk(r)
  {
    var (done, played) := Played(reg, show, c, move, variation);
    if played && mode == COUNTERMOVE && view then RedoStep(reg, show, done) else done
  }

  /** The move through `makeMove` and the processing of the node it returns; `true` when one was returned. */
  function Played(reg: Registry, show: Option<bool>, c: Ctl, move: Move, variation: Option<int>): (r: (Ctl, bool))
    requires CtlOk(c) && c.game.Some?
    ensures CtlOk(r.0) && r.0.game.Some?
  {
    var g := c.game.value;
    var p := MoveProperty(NextColor(g.st), move);
    PlayOk(g.cur, p, variation, g.base);
    var (cur, node) := Play(g.cur, p, variation, g.base);
    match node
    case None => (Ctl(Some(g.(cur := cur)), c.h), false)
    case Some(nd) =>
      ProcessFrames(reg, show, c.h, g.(cur := cur), nd);
      var (h, st) := ProcessStep(reg, show, c.h, g.(cur := cur), nd);
      (Ctl(Some(Game(cur, g.base, st)), h), true)
  }

  /**
   * `onMove`: nothing in disable mode or without a game; else undo first
   * when going into a sibling variation (an exception there ends the call),
   * then the move.
   */
  function MoveStep(reg: Registry, show: Option<bool>, mode: InteractionMode, view: bool, c: Ctl, move: Move, variation: Option<int>): (r: Outcome)
    requires CtlOk(c)
    ensures CtlOk(r.c)
    ensures mode == DISABLE || c.game.None? ==> r == Outcome(c, false)
    ensures mode != DISABLE && c.game.Some? && !SiblingsFirst(show, c.game.value.st, variation) ==>
      r == Outcome(PlayStep(reg, show, mode, view, c, move, variation), false)
    ensures mode != DISABLE && c.game.Some? && SiblingsFirst(show, c.game.value.st, variation) ==>
      var u := UndoStep(reg, show, c);
      r == if u.thrown then u else Outcome(PlayStep(reg, show, mode, view, u.c, move, variation), false)
  {
    if mode == DISABLE then Outcome(c, false)
    else match c.game
    case None => Outcome(c, false)
    case Some(g) =>
      var u := if SiblingsFirst(show, g.st, variation) then UndoStep(reg, show, c) else Outcome(c, false);
      if u.thrown then u
      else Outcome(PlayStep(reg, show, mode, view, u.c, move, variation), false)
  }

  /**
   * The move played is the colour to play next: outside a user branch, when
   * the next node does not hold it, no variation is asked for and the
   * cursor is not at the last node, the user branches off with a tree whose
   * only node is `B[move]` or `W[move]` after `nextColor`, and that node is
   * processed as one new frame.
   */
  lemma MoveBranchesWithNextColor(reg: Registry, show: Option<bool>, c: Ctl, move: Move)
    requires CtlOk(c) && c.game.Some?
    requires var g := c.game.value;
      var p := MoveProperty(NextColor(g.st), move);
      var nodes := NodesOf(g.cur.trees, g.cur.tree);
      && !g.cur.userBranch && g.cur.tree.Some?
      && !(0 <= g.cur.index + 1 < |nodes| && p in nodes[g.cur.index + 1])
      && g.cur.index != |nodes| - 1
    ensures var r := MoveStep(reg, show, FREE_PLAY, false, c, move, None);
      var g := c.game.value;
      var p := MoveProperty(NextColor(g.st), move);
      && !r.thrown && r.c.game.Some?
      && r.c.game.value.cur == Branch(g.cur, p)
      && r.c.game.value.cur.trees[|g.cur.trees|].nodes == [[p]]
      && Frames(r.c.game.value) == Frames(g) + 1
  {
    var g := c.game.value;
    var p := MoveProperty(NextColor(g.st), move);
    PlayFollows(g.cur, p, None, g.base);
    BranchShapes(g.cur, g.base, p);
    var (cur, node) := Play(g.cur, p, None, g.base);
    assert node == Some([p]);
    ProcessFrames(reg, show, c.h, g.(cur := cur), [p]);
  }

  // ------------------------------------------------------------- loading

  /** `SgfParser().parseSgfCollection(sgfString)`: a fresh parser, with Go coordinates. */
  function Parse(sgf: string): (c: SgfParser.Collection)
    ensures |c.roots| > 0 ==>
      c.roots[0] < |c.arena| && c.arena[c.roots[0]].parent.None? && WellFormedFrom(c.arena, c.roots[0])
  {
    var s := SgfParser.Run(SgfParser.PropDecoder(CoordinateParser.GoCodec),
                           SgfParser.Initial(SgfParser.EXPECT_ANYTHING), SgfParser.Normalize(sgf));
    var c := SgfParser.Finish(s);
    if |c.roots| > 0 then
      WellFormedLater(c.arena, s.cur + 1, c.roots[0]);
      c
    else c
  }

  /** A well-formed arena is well formed from any later index on. */
  lemma WellFormedLater(a: seq<TreeRec>, from: nat, later: nat)
    requires WellFormedFrom(a, from) && from <= later
    ensures WellFormedFrom(a, later)
  {
    forall t | later <= t < |a|
      ensures LinksOk(a, t) && (a[t].parent.Some? ==> a[t].parent.value < t)
    {
      assert LinksOk(a, t);
    }
  }

  /** The game a parsed collection gives, on its first tree: a navigator before its first node, and a fresh state. */
  function NewGame(coll: SgfParser.Collection): (r: Option<Game>)
    requires |coll.roots| > 0 ==>
      coll.roots[0] < |coll.arena| && coll.arena[coll.roots[0]].parent.None? && WellFormedFrom(coll.arena, coll.roots[0])
    ensures r.Some? <==> |coll.roots| > 0
    ensures r.Some? ==> GameOk(r.value) && Frames(r.value) == 0
    ensures r.Some? ==> r.value == Game(Cursor(coll.arena, Some(coll.roots[0]), -1, false), coll.roots[0], Fresh())
  {
    if |coll.roots| == 0 then None
    else
      var root := coll.roots[0];
      Some(Game(Cursor(coll.arena, Some(root), -1, false), root, Fresh()))
  }

  /** The game `loadAtIndices` goes on with: the parsed one, else the one loaded before. */
  function Start(c: Ctl, sgf: string): (r: Option<Game>)
    requires CtlOk(c)
    ensures r.Some? ==> GameOk(r.value)
  {
    var parsed := NewGame(Parse(sgf));
    if parsed.Some? then parsed else c.game
  }

  /** `goToIndices`, then the nodes on the way processed in order. */
  function WalkStep(reg: Registry, show: Option<bool>, c: Ctl, indices: seq<int>): (r: Ctl)
    requires CtlOk(c) && |indices| > 0 && indices[0] >= -1
    requires c.game.Some? ==> !c.game.value.cur.userBranch
    ensures CtlOk(r)
    ensures c.game.None? ==> r == c
    ensures c.game.Some? ==>
      var g := c.game.value;
      var (cur, nodes) := GoTo(g.cur, indices, g.base);
      && r.game.Some? && r.game.value.cur == cur && r.game.value.base == g.base
      && (r.h, r.game.value.st) == ProcessAll(reg, show, c.h, g.(cur := cur), nodes)
      && Frames(r.game.value) == Frames(g) + |nodes|
  {
    match c.game
    case None => c
    case Some(g) =>
      var (cur, nodes) := GoTo(g.cur, indices, g.base);
      ProcessAllFrames(reg, show, c.h, g.(cur := cur), nodes);
      var (h, st) := ProcessAll(reg, show, c.h, g.(cur := cur), nodes);
      Ctl(Some(Game(cur, g.base, st)), h)
  }

  /**
   * `loadAtIndices`: when the text holds a game tree, a navigator over its
   * first tree and a fresh state replace the old ones (else the old ones
   * stay); then the navigator goes to the indices and the nodes on the way
   * are processed in order, one new frame each.
   */
  function LoadStep(reg: Registry, show: Option<bool>, c: Ctl, sgf: string, indices: seq<int>): (r: Ctl)
    requires CtlOk(c) && |indices| > 0 && indices[0] >= -1
    requires NewGame(Parse(sgf)).None? && c.game.Some? ==> !c.game.value.cur.userBranch
    ensures CtlOk(r)
    ensures var parsed := NewGame(Parse(sgf));
      var start := if parsed.Some? then parsed else c.game;
      && (start.None? ==> r == c)
      && (start.Some? ==>
            var g := start.value;
            var (cur, nodes) := GoTo(g.cur, indices, g.base);
            && r.game.Some? && r.game.value.cur == cur && r.game.value.base == g.base
            && (r.h, r.game.value.st) == ProcessAll(reg, show, c.h, g.(cur := cur), nodes)
            && Frames(r.game.value) == Frames(g) + |nodes|)
  {
    WalkStep(reg, show, Ctl(Start(c, sgf), c.h), indices)
  }

  /**
   * `load`, at the default indices `[0]`: the navigator stands on the first
   * node of the first tree, and only that node is processed.
   */
  lemma LoadAtFirstNode(reg: Registry, show: Option<bool>, c: Ctl, sgf: string)
    requires CtlOk(c) && NewGame(Parse(sgf)).Some?
    ensures var r := LoadStep(reg, show, c, sgf, [0]);
      var g := NewGame(Parse(sgf)).value;
      && r.game.Some? && r.game.value.cur == g.cur.(index := 0)
      && Frames(r.game.value) == (if |g.cur.trees[g.cur.tree.value].nodes| == 0 then 0 else 1)
  {
    var g := NewGame(Parse(sgf)).value;
    var indices := [0];
    assert indices[1..] == [];
    assert Walk(g.cur.trees, g.cur.tree, [], g.base) == ([], g.cur.tree);
    var nodes := GoTo(g.cur, indices, g.base).1;
    assert nodes == Take(g.cur.trees[g.cur.tree.value].nodes, 1);
  }

  // ------------------------------------------------------------- the controller object

  class SgfController {
    /** Overrides the game's own choice of showing variations when set. */
    var showVariations: Option<bool>
    var interactionMode: InteractionMode
    /** Whether a view adapter is attached (`sgfViewAdapter != null`). */
    var viewAttached: bool
    const sgfNodeHandler: SgfNodeHandler
    var navigator: SgfNavigator?
    var state: SgfState?
    var sgfString: Option<string>

    /** The navigator and the state exist together, and each keeps its invariant. */
    ghost predicate Valid()
      reads this, navigator, state
    {
      && (navigator == null <==> state == null)
      && (navigator != null ==> navigator.Valid() && state.Valid())
    }

    /** The fields the operations change, as one value. */
    ghost function Value(): Ctl
      reads this, navigator, state, sgfNodeHandler
    {
      Ctl(if navigator != null && state != null then Some(Game(navigator.Value(), navigator.base, state.Value())) else None,
          sgfNodeHandler.moveHandler)
    }

    /** The registrations of the node handler's companion. */
    function Registrations(): Registry
      reads this, sgfNodeHandler, sgfNodeHandler.companion
    {
      sgfNodeHandler.companion.Value()
    }

    /** A controller with no game loaded and no view; `companion` holds the handler registrations. */
    constructor(showVariations: Option<bool>, interactionMode: InteractionMode, companion: Companion)
      ensures this.showVariations == showVariations && this.interactionMode == interactionMode && !viewAttached
      ensures Value() == Ctl(None, GoHandler) && sgfNodeHandler.companion == companion && sgfString.None?
      ensures Valid() && fresh(sgfNodeHandler)
    {
      this.showVariations := showVariations;
      this.interactionMode := interactionMode;
      viewAttached := false;
      sgfNodeHandler := new SgfNodeHandler(companion);
      navigator := null;
      state := null;
      sgfString := None;
    }

    /** `into(adapter)`, that is the `sgfViewAdapter` setter: a view is attached and nothing else changes
      * (registering the listener and loading the current state into the view are rendering). */
    method Into()
      requires Valid()
      modifies this
      ensures viewAttached && Valid() && Value() == old(Value())
      ensures showVariations == old(showVariations) && interactionMode == old(interactionMode)
      ensures navigator == old(navigator) && state == old(state) && sgfString == old(sgfString)
    {
      viewAttached := true;
    }

    /** `SgfNode.process`. */
    method Process(node: Node)
      requires Valid() && navigator != null
      modifies state, sgfNodeHandler
      ensures Valid() && navigator != null
      ensures var g := old(Value()).game.value;
        Value() == Ctl(Some(g.(st := state.Value())), sgfNodeHandler.moveHandler)
        && (sgfNodeHandler.moveHandler, state.Value()) == ProcessStep(Registrations(), showVariations, old(sgfNodeHandler.moveHandler), g, node)
    {
      sgfNodeHandler.ProcessNode(state, node);
      if ShowsVariations(showVariations, state.Value()) {
        var variations := navigator.Variations(state.variationMode == SUCCESSORS);
        state.SetVariationInfos(variations);
      }
    }

    /** `onRedo`. */
    method OnRedo()
      requires Valid()
      modifies navigator, state, sgfNodeHandler
      ensures Valid() && Value() == RedoStep(Registrations(), showVariations, old(Value()))
    {
      if navigator != null {
        var node := navigator.NextNode();
        if node.Some? {
          Process(node.value);
        }
      }
    }

    /** `onUndo`; `thrown` when `stepBack` throws. */
    method OnUndo() returns (thrown: bool)
      requires Valid()
      modifies navigator, state, sgfNodeHandler
      ensures !thrown ==> Valid()
      ensures Outcome(Value(), thrown) == UndoStep(Registrations(), showVariations, old(Value()))
    {
      thrown := false;
      if navigator != null {
        var node := navigator.PreviousNode();
        if node.Some? {
          if |state.incrementalPieces| < 2 {
            if |state.incrementalPieces| == 1 {
              state.PopFrame();
            }
            return true;
          }
          state.StepBack();
          Process(node.value);
        }
      }
    }

    /** `onMove`; `thrown` when the undo into a sibling variation throws. */
    method OnMove(move: Move, variationIndex: Option<int>) returns (thrown: bool)
      requires Valid()
      modifies navigator, state, sgfNodeHandler
      ensures !thrown ==> Valid()
      ensures Outcome(Value(), thrown)
        == MoveStep(Registrations(), showVariations, interactionMode, viewAttached, old(Value()), move, variationIndex)
    {
      thrown := false;
      if interactionMode == DISABLE || state == null {
        return;
      }
      if SiblingsFirst(showVariations, state.Value(), variationIndex) {
        thrown := OnUndo();
        if thrown {
          return;
        }
      }
      PlayMove(move, variationIndex);
    }

    /** The part of `onMove` after the optional undo. */
    method PlayMove(move: Move, variationIndex: Option<int>)
      requires Valid() && navigator != null
      modifies navigator, state, sgfNodeHandler
      ensures Valid()
      ensures Value() == PlayStep(Registrations(), showVariations, interactionMode, viewAttached, old(Value()), move, variationIndex)
    {
      var played := MoveAndProcess(move, variationIndex);
      if played && interactionMode == COUNTERMOVE && viewAttached {
        OnRedo();
      }
    }

    /** `navigator?.makeMove(...)?.process()`; `played` when a node was returned. */
    method MoveAndProcess(move: Move, variationIndex: Option<int>) returns (played: bool)
      requires Valid() && navigator != null
      modifies navigator, state, sgfNodeHandler
      ensures Valid() && navigator != null
      ensures (Value(), played) == Played(Registrations(), showVariations, old(Value()), move, variationIndex)
    {
      var node := navigator.MakeMove(MoveProperty(state.NextColor(), move), variationIndex);
      played := node.Some?;
      if played {
        Process(node.value);
      }
    }

    /** `loadAtIndices`. */
    method LoadAtIndices(sgf: string, indices: seq<int>)
      requires Valid() && |indices| > 0 && indices[0] >= -1
      requires NewGame(Parse(sgf)).None? && navigator != null ==> !navigator.userBranch
      modifies this, navigator, state, sgfNodeHandler
      ensures Valid() && sgfString == Some(sgf)
      ensures Value() == LoadStep(Registrations(), showVariations, old(Value()), sgf, indices)
    {
      sgfString := Some(sgf);
      LoadGame(sgf);
      if navigator != null {
        GoAndProcess(indices);
      }
    }

    /** The parse of `loadAtIndices`: a tree in the text gives a new navigator and a new state. */
    method LoadGame(sgf: string)
      requires Valid()
      modifies this
      ensures Valid() && Value() == Ctl(Start(old(Value()), sgf), old(Value()).h)
      ensures showVariations == old(showVariations) && interactionMode == old(interactionMode)
      ensures viewAttached == old(viewAttached) && sgfString == old(sgfString)
      ensures NewGame(Parse(sgf)).None? ==> navigator == old(navigator) && state == old(state)
      ensures NewGame(Parse(sgf)).Some? ==> fresh(navigator) && fresh(state)
    {
      var coll := ParseText(sgf);
      Install(coll);
    }

    /** `SgfParser().parseSgfCollection(sgf)`: a fresh parser, so it starts expecting anything. */
    static method ParseText(sgf: string) returns (coll: SgfParser.Collection)
      ensures coll == Parse(sgf)
    {
      var parser := new SgfParser.Parser(CoordinateParser.GoCodec);
      coll := parser.ParseSgfCollection(sgf);
    }

    /** A collection with a tree gives a new navigator on its first tree and a new state. */
    method Install(coll: SgfParser.Collection)
      requires Valid()
      requires |coll.roots| > 0 ==>
        coll.roots[0] < |coll.arena| && coll.arena[coll.roots[0]].parent.None? && WellFormedFrom(coll.arena, coll.roots[0])
      modifies this
      ensures Valid()
      ensures Value() == Ctl(if NewGame(coll).Some? then NewGame(coll) else old(Value()).game, old(Value()).h)
      ensures showVariations == old(showVariations) && interactionMode == old(interactionMode)
      ensures viewAttached == old(viewAttached) && sgfString == old(sgfString)
      ensures NewGame(coll).None? ==> navigator == old(navigator) && state == old(state)
      ensures NewGame(coll).Some? ==> fresh(navigator) && fresh(state)
    {
      if |coll.roots| > 0 {
        navigator := new SgfNavigator(coll.arena, coll.roots[0]);
        state := new SgfState();
      }
    }

    /** `navigator?.goToIndices(indices)?.forEach { it.process() }`. */
    method GoAndProcess(indices: seq<int>)
      requires Valid() && navigator != null && !navigator.userBranch && |indices| > 0 && indices[0] >= -1
      modifies navigator, state, sgfNodeHandler
      ensures Valid() && Value() == WalkStep(Registrations(), showVariations, old(Value()), indices)
    {
      var nodes := navigator.GoToIndices(indices);
      ghost var g := Value().game.value;
      ghost var h0 := sgfNodeHandler.moveHandler;
      for i := 0 to |nodes|
        modifies state, sgfNodeHandler
        invariant Valid() && navigator != null
        invariant Value() == Ctl(Some(g.(st := state.Value())), sgfNodeHandler.moveHandler)
        invariant (sgfNodeHandler.moveHandler, state.Value()) == ProcessAll(Registrations(), showVariations, h0, g, nodes[..i])
      {
        assert nodes[..i + 1][..i] == nodes[..i];
        Process(nodes[i]);
      }
      assert nodes[..|nodes|] == nodes;
    }
  }
}
