/**
 * `SgfState` as an object: the fields the handlers update in place. Each
 * method is proved to have the effect of the function of the same name in
 * `BoardState` on the fields taken as one value, and to keep the undo history
 * that makes `StepBack` restore the board.
 */
module State {
  import opened Wrappers
  import opened SgfTree
  import opened SgfData
  import opened BoardState

  class SgfState {
    var incrementalPieces: seq<seq<(Change, Piece)>>
    var currentPieces: seq<Piece>
    var nodeInfo: seq<NodeInfo>
    var markup: seq<Markup>
    var variationData: seq<VariationData>
    var showVariations: bool
    var variationMode: VariationMode
    var gameId: int
    var numRows: int
    var numCols: int
    var moveInfo: seq<Option<MoveInfo>>
    var colorJustSet: Option<Color>
    var moveNumberJustSet: Option<int>
    var inherited: seq<seq<Option<Markup>>>
    /** The board when each frame was opened. */
    ghost var snapshots: seq<multiset<Piece>>

    /** The fields as one value. */
    function Value(): StateValue
      reads this
    {
      StateValue(incrementalPieces, currentPieces, nodeInfo, markup, variationData, showVariations, variationMode,
                 gameId, numRows, numCols, moveInfo, colorJustSet, moveNumberJustSet, inherited)
    }

    /** The frames replay back to the snapshots, and the three histories have one entry per node. */
    ghost predicate Valid()
      reads this
    {
      History(Value(), snapshots) && Aligned(Value())
    }

    constructor()
      ensures Value() == Fresh() && snapshots == [] && Valid()
    {
      incrementalPieces := [];
      currentPieces := [];
      nodeInfo := [];
      markup := [];
      variationData := [];
      showVariations := true;
      variationMode := SUCCESSORS;
      gameId := 1;
      numRows := 19;
      numCols := 19;
      moveInfo := [];
      colorJustSet := None;
      moveNumberJustSet := None;
      inherited := [];
      snapshots := [];
    }

    /** `initStep`: opens the frames for a new node and clears the node's own data. */
    method InitStep()
      modifies this
      ensures Value() == BoardState.InitStep(old(Value()))
      ensures snapshots == old(snapshots) + [multiset(old(currentPieces))]
      ensures old(Valid()) ==> Valid()
    {
      OpenFrames();
      nodeInfo := [];
      markup := [];
      variationData := [];
      colorJustSet := None;
      moveNumberJustSet := None;
    }

    /** The part of `initStep` that extends the three histories. */
    method OpenFrames()
      modifies this
      ensures Value() == old(Value()).(incrementalPieces := old(incrementalPieces) + [[]],
                                        moveInfo := old(moveInfo) + [None], inherited := old(inherited) + [[]])
      ensures snapshots == old(snapshots) + [multiset(old(currentPieces))]
      ensures old(Valid()) ==> Valid()
    {
      if Valid() {
        InitStepHistory(incrementalPieces, multiset(currentPieces), snapshots);
      }
      snapshots := snapshots + [multiset(currentPieces)];
      incrementalPieces := incrementalPieces + [[]];
      moveInfo := moveInfo + [None];
      inherited := inherited + [[]];
    }

    /** `removePiece`. */
    method RemovePiece(p: Piece)
      requires p in currentPieces ==> |incrementalPieces| > 0
      modifies this
      ensures Value() == BoardState.RemovePiece(old(Value()), p)
      ensures snapshots == old(snapshots)
      ensures old(Valid()) ==> Valid()
    {
      ghost var v := Value();
      if p in currentPieces {
        incrementalPieces := AddToLast(incrementalPieces, (MINUS, p));
        currentPieces := RemoveFirst(currentPieces, p);
      }
      assert Value() == BoardState.RemovePiece(v, p);
      if History(v, snapshots) {
        RemovePieceKeepsHistory(v, p, snapshots);
      }
    }

    /** `removePieces`. */
    method RemovePieces(ps: seq<Piece>)
      requires |incrementalPieces| > 0
      modifies this
      ensures Value() == BoardState.RemovePieces(old(Value()), ps)
      ensures snapshots == old(snapshots)
      ensures old(Valid()) ==> Valid()
    {
      for i := 0 to |ps|
        invariant Value() == BoardState.RemovePieces(old(Value()), ps[..i])
        invariant snapshots == old(snapshots)
        invariant old(Valid()) ==> Valid()
      {
        assert ps[..i + 1][..i] == ps[..i];
        RemovePiece(ps[i]);
      }
      assert ps[..|ps|] == ps;
    }

    /** `addPiece`: records the addition, clears the point, then places the piece. */
    method AddPiece(p: Piece)
      requires |incrementalPieces| > 0
      modifies this
      ensures Value() == BoardState.AddPiece(old(Value()), p)
      ensures snapshots == old(snapshots)
      ensures old(Valid()) ==> Valid()
    {
      ghost var v := Value();
      if History(v, snapshots) {
        AddPieceHistory(v, p, snapshots);
      }
      var same := SamePoint(currentPieces, p);
      incrementalPieces := AddToLast(incrementalPieces, (PLUS, p));
      RemovePieces(same);
      currentPieces := currentPieces + [p];
    }

    /** `addPieces`. */
    method AddPieces(ps: seq<Piece>)
      requires |incrementalPieces| > 0
      modifies this
      ensures Value() == BoardState.AddPieces(old(Value()), ps)
      ensures snapshots == old(snapshots)
      ensures old(Valid()) ==> Valid()
    {
      for i := 0 to |ps|
        invariant Value() == BoardState.AddPieces(old(Value()), ps[..i])
        invariant snapshots == old(snapshots)
        invariant old(Valid()) ==> Valid()
      {
        assert ps[..i + 1][..i] == ps[..i];
        AddPiece(ps[i]);
      }
      assert ps[..|ps|] == ps;
    }

    /** One round of `stepBack`: the last frame is replayed backwards and dropped. */
    method PopFrame()
      requires |incrementalPieces| > 0 && |moveInfo| > 0 && |inherited| > 0
      modifies this
      ensures Value() == BoardState.PopFrame(old(Value()))
      ensures snapshots == old(snapshots)
    {
      var frame := incrementalPieces[|incrementalPieces| - 1];
      incrementalPieces := incrementalPieces[..|incrementalPieces| - 1];
      var board := currentPieces;
      var i := |frame|;
      assert frame[..i] == frame;
      while i > 0
        invariant 0 <= i <= |frame|
        invariant UndoPieces(board, frame[..i]) == UndoPieces(old(currentPieces), frame)
      {
        var c := frame[i - 1];
        assert frame[..i][..i - 1] == frame[..i - 1];
        if c.0 == PLUS {
          board := RemoveFirst(board, c.1);
        } else {
          board := board + [c.1];
        }
        i := i - 1;
      }
      currentPieces := board;
      moveInfo := moveInfo[..|moveInfo| - 1];
      inherited := inherited[..|inherited| - 1];
    }

    /**
     * `stepBack`: two frames are undone, so that the previous node can be
     * processed again; the board is the one the earlier frame was opened at.
     */
    method StepBack()
      requires |incrementalPieces| >= 2 && |moveInfo| >= 2 && |inherited| >= 2
      modifies this
      ensures Value() == BoardState.StepBack(old(Value()))
      ensures old(Valid()) ==>
                Valid() && snapshots == old(snapshots)[..|old(snapshots)| - 2]
                && multiset(currentPieces) == old(snapshots)[|old(snapshots)| - 2]
    {
      ghost var v, s := Value(), snapshots;
      PopFrame();
      PopFrame();
      if |s| >= 2 {
        snapshots := s[..|s| - 2];
      }
      if History(v, s) && Aligned(v) {
        StepBackRestores(v, s);
      }
    }

    /** `addMarkups`. */
    method AddMarkups(ms: seq<Markup>)
      modifies this
      ensures Value() == BoardState.AddMarkups(old(Value()), ms)
      ensures snapshots == old(snapshots)
      ensures old(Valid()) ==> Valid()
    {
      markup := markup + ms;
    }

    /** `setVariationInfos`. */
    method SetVariationInfos(infos: seq<Option<Move>>)
      modifies this
      ensures Value() == BoardState.SetVariationInfos(old(Value()), infos)
      ensures snapshots == old(snapshots)
      ensures old(Valid()) ==> Valid()
    {
      variationData := Numbered(infos);
    }

    /** `addInherits`. */
    method AddInherits(ms: seq<Option<Markup>>)
      requires |inherited| > 0
      modifies this
      ensures Value() == BoardState.AddInherits(old(Value()), ms)
      ensures snapshots == old(snapshots)
      ensures old(Valid()) ==> Valid()
    {
      inherited := inherited[|inherited| - 1 := inherited[|inherited| - 1] + ms];
    }

    /** `addNodeInfo`. */
    method AddNodeInfo(info: NodeInfo)
      modifies this
      ensures Value() == BoardState.AddNodeInfo(old(Value()), info)
      ensures snapshots == old(snapshots)
      ensures old(Valid()) ==> Valid()
    {
      nodeInfo := nodeInfo + [info];
    }

    /** `addMoveInfo`. */
    method AddMoveInfo(info: MoveInfo)
      requires |moveInfo| > 0
      modifies this
      ensures Value() == BoardState.AddMoveInfo(old(Value()), info)
      ensures snapshots == old(snapshots)
      ensures old(Valid()) ==> Valid()
    {
      var last := BoardState.LastMoveInfo(moveInfo);
      var number := if moveNumberJustSet.Some? then moveNumberJustSet.value
                    else (if last.Some? then last.value.moveNumber else 0) + info.moveNumber;
      var before := if last.Some? then last.value.prisoners else (0, 0);
      moveInfo := moveInfo[|moveInfo| - 1 := Some(MoveInfo(number, info.lastColor, info.lastPlayed,
                                                           (before.0 + info.prisoners.0, before.1 + info.prisoners.1)))];
    }

    /** The setter of `moveNumberJustSet`. */
    method SetMoveNumber(n: Option<int>)
      requires n.Some? ==> |moveInfo| > 0
      modifies this
      ensures Value() == BoardState.SetMoveNumber(old(Value()), n)
      ensures snapshots == old(snapshots)
      ensures old(Valid()) ==> Valid()
    {
      moveNumberJustSet := n;
      if n.Some? && moveInfo[|moveInfo| - 1].Some? {
        moveInfo := moveInfo[|moveInfo| - 1 := Some(moveInfo[|moveInfo| - 1].value.(moveNumber := n.value))];
      }
    }

    /** `nextColor`. */
    function NextColor(): Color
      reads this
    {
      BoardState.NextColor(Value())
    }

    /** `data`. */
    function Data(): seq<SgfDatum>
      reads this
    {
      BoardState.Data(Value())
    }
  }
}
