/**
 * The board state a view is shown (`SgfState`): the pieces on the board with
 * one frame of piece changes per processed node, so that stepping back can
 * undo them exactly, plus the per-node information and markup, the inherited
 * markup, the move counters and the game configuration.
 *
 * Every operation is first a function on `StateValue`, the state's fields as
 * one value; the class `SgfState` keeps the fields and its methods are proved
 * to have the function's effect.
 */
module BoardState {
  import opened Wrappers
  import opened SgfTree
  import opened SgfData

  /** Whether a recorded change added or removed its piece. */
  datatype Change = PLUS | MINUS

  /** How variations are displayed: those of the successor node, or the current node's siblings. */
  datatype VariationMode = SUCCESSORS | SIBLINGS

  /** The fields of `SgfState`. */
  datatype StateValue = StateValue(
    incrementalPieces: seq<seq<(Change, Piece)>>,
    currentPieces: seq<Piece>,
    nodeInfo: seq<NodeInfo>,
    markup: seq<Markup>,
    variationData: seq<VariationData>,
    showVariations: bool,
    variationMode: VariationMode,
    gameId: int,
    numRows: int,
    numCols: int,
    moveInfo: seq<Option<MoveInfo>>,
    colorJustSet: Option<Color>,
    moveNumberJustSet: Option<int>,
    inherited: seq<seq<Option<Markup>>>)

  /** A new state: no frames, Go (game 1) on a 19x19 board, variations shown for successors. */
  function Fresh(): (v: StateValue)
    ensures v.incrementalPieces == [] && v.currentPieces == [] && v.moveInfo == [] && v.inherited == []
    ensures v.gameId == 1 && v.numRows == 19 && v.numCols == 19
    ensures v.showVariations && v.variationMode == SUCCESSORS
  {
    StateValue([], [], [], [], [], true, SUCCESSORS, 1, 19, 19, [], None, None, [])
  }

  /** The three histories have one entry per processed node. */
  predicate Aligned(v: StateValue)
  {
    |v.incrementalPieces| == |v.moveInfo| == |v.inherited|
  }

  // ------------------------------------------------------------- lists

  /** Kotlin's `MutableList.remove`: the first occurrence of `p` goes, if there is one. */
  function RemoveFirst(s: seq<Piece>, p: Piece): (r: seq<Piece>)
    ensures multiset(r) == multiset(s) - multiset{p}
    ensures p !in s ==> r == s
    ensures p in s ==> |r| == |s| - 1
  {
    if |s| == 0 then []
    else if s[0] == p then
      assert s == [s[0]] + s[1..];
      s[1..]
    else
      assert s == [s[0]] + s[1..];
      [s[0]] + RemoveFirst(s[1..], p)
  }

  /** `filter { it.stone?.point == p.stone?.point }`: the pieces standing where `p` stands. */
  function SamePoint(s: seq<Piece>, p: Piece): (r: seq<Piece>)
    ensures forall q :: q in r <==> q in s && PiecePoint(q) == PiecePoint(p)
    ensures |r| <= |s|
  {
    if |s| == 0 then []
    else
      var rest := SamePoint(s[..|s| - 1], p);
      assert s == s[..|s| - 1] + [s[|s| - 1]];
      if PiecePoint(s[|s| - 1]) == PiecePoint(p) then rest + [s[|s| - 1]] else rest
  }

  /** `f.last().add(c)` on a non-empty list of frames. */
  function AddToLast<T>(f: seq<seq<T>>, c: T): (r: seq<seq<T>>)
    requires |f| > 0
    ensures |r| == |f| && r[|f| - 1] == f[|f| - 1] + [c]
    ensures forall k :: 0 <= k < |f| - 1 ==> r[k] == f[k]
  {
    f[|f| - 1 := f[|f| - 1] + [c]]
  }

  // ------------------------------------------------------------- undo algebra

  /** The board `m` after the changes of a frame, in recorded order. */
  function Fwd(m: multiset<Piece>, ch: seq<(Change, Piece)>): multiset<Piece>
  {
    if |ch| == 0 then m
    else
      var c := ch[|ch| - 1];
      var before := Fwd(m, ch[..|ch| - 1]);
      if c.0 == PLUS then before + multiset{c.1} else before - multiset{c.1}
  }

  /** Every removal recorded in the frame removed a piece that was there. */
  ghost predicate Replayable(m: multiset<Piece>, ch: seq<(Change, Piece)>)
  {
    |ch| == 0
    || (Replayable(m, ch[..|ch| - 1]) && (ch[|ch| - 1].0 == MINUS ==> ch[|ch| - 1].1 in Fwd(m, ch[..|ch| - 1])))
  }

  /** `stepBack`'s replay of one frame, on the board as a multiset: the changes inverted, last first. */
  function Undo(m: multiset<Piece>, ch: seq<(Change, Piece)>): multiset<Piece>
    decreases |ch|
  {
    if |ch| == 0 then m
    else
      var c := ch[|ch| - 1];
      Undo(if c.0 == PLUS then m - multiset{c.1} else m + multiset{c.1}, ch[..|ch| - 1])
  }

  /** `stepBack`'s replay of one frame on the list of pieces. */
  function UndoPieces(s: seq<Piece>, ch: seq<(Change, Piece)>): seq<Piece>
    decreases |ch|
  {
    if |ch| == 0 then s
    else
      var c := ch[|ch| - 1];
      UndoPieces(if c.0 == PLUS then RemoveFirst(s, c.1) else s + [c.1], ch[..|ch| - 1])
  }

  /** Replaying a frame in reverse undoes it exactly, when its removals were real. */
  lemma {:induction false} UndoFwd(m: multiset<Piece>, ch: seq<(Change, Piece)>)
    requires Replayable(m, ch)
    ensures Undo(Fwd(m, ch), ch) == m
  {
    if |ch| > 0 {
      var c := ch[|ch| - 1];
      var before := Fwd(m, ch[..|ch| - 1]);
      if c.0 == PLUS {
        assert (before + multiset{c.1}) - multiset{c.1} == before;
      } else {
        assert (before - multiset{c.1}) + multiset{c.1} == before;
      }
      UndoFwd(m, ch[..|ch| - 1]);
    }
  }

  /** The list replay has the multiset replay's effect. */
  lemma {:induction false} UndoPiecesCount(s: seq<Piece>, ch: seq<(Change, Piece)>)
    ensures multiset(UndoPieces(s, ch)) == Undo(multiset(s), ch)
    decreases |ch|
  {
    if |ch| > 0 {
      var c := ch[|ch| - 1];
      UndoPiecesCount(if c.0 == PLUS then RemoveFirst(s, c.1) else s + [c.1], ch[..|ch| - 1]);
    }
  }

  /**
   * The undo history: `snaps[k]` is the board when frame `k` was opened, each
   * frame is replayable from it and leads to the next snapshot, and the last
   * frame leads to the board `board`.
   */
  ghost predicate Undoable(f: seq<seq<(Change, Piece)>>, board: multiset<Piece>, snaps: seq<multiset<Piece>>)
  {
    && |snaps| == |f|
    && (forall k :: 0 <= k < |f| ==> Replayable(snaps[k], f[k]))
    && (forall k :: 0 <= k < |f| - 1 ==> snaps[k + 1] == Fwd(snaps[k], f[k]))
    && (|f| > 0 ==> board == Fwd(snaps[|f| - 1], f[|f| - 1]))
  }

  ghost predicate History(v: StateValue, snaps: seq<multiset<Piece>>)
  {
    Undoable(v.incrementalPieces, multiset(v.currentPieces), snaps)
  }

  /** Recording a change in the last frame extends the history by that change. */
  lemma RecordChange(f: seq<seq<(Change, Piece)>>, board: multiset<Piece>, snaps: seq<multiset<Piece>>, c: (Change, Piece))
    requires Undoable(f, board, snaps) && |f| > 0
    requires c.0 == MINUS ==> c.1 in board
    ensures Undoable(AddToLast(f, c), if c.0 == PLUS then board + multiset{c.1} else board - multiset{c.1}, snaps)
  {
    var g := AddToLast(f, c);
    var n := |f| - 1;
    assert g[n][..|g[n]| - 1] == f[n] && g[n][|g[n]| - 1] == c;
    assert board == Fwd(snaps[n], f[n]);
    forall k | 0 <= k < |g|
      ensures Replayable(snaps[k], g[k])
    {
      if k < n {
        assert g[k] == f[k];
      } else {
        assert Replayable(snaps[n], f[n]);
      }
    }
    forall k | 0 <= k < |g| - 1
      ensures snaps[k + 1] == Fwd(snaps[k], g[k])
    {
      assert g[k] == f[k];
    }
    assert Fwd(snaps[n], g[n]) == if c.0 == PLUS then board + multiset{c.1} else board - multiset{c.1};
  }

  // ------------------------------------------------------------- pieces

  /** `removePiece`: a piece on the board is removed and the removal recorded; otherwise nothing happens. */
  function RemovePiece(v: StateValue, p: Piece): (r: StateValue)
    requires p in v.currentPieces ==> |v.incrementalPieces| > 0
    ensures p !in v.currentPieces ==> r == v
    ensures p in v.currentPieces ==>
      r == v.(incrementalPieces := AddToLast(v.incrementalPieces, (MINUS, p)),
              currentPieces := RemoveFirst(v.currentPieces, p))
  {
    if p in v.currentPieces then
      v.(incrementalPieces := AddToLast(v.incrementalPieces, (MINUS, p)),
         currentPieces := RemoveFirst(v.currentPieces, p))
    else v
  }

  /** `removePieces`: `removePiece` for each listed piece, in order. */
  function RemovePieces(v: StateValue, ps: seq<Piece>): (r: StateValue)
    requires |v.incrementalPieces| > 0
    ensures |r.incrementalPieces| == |v.incrementalPieces|
    ensures r == v.(incrementalPieces := r.incrementalPieces, currentPieces := r.currentPieces)
    ensures r.incrementalPieces[..|v.incrementalPieces| - 1] == v.incrementalPieces[..|v.incrementalPieces| - 1]
  {
    if |ps| == 0 then v else RemovePiece(RemovePieces(v, ps[..|ps| - 1]), ps[|ps| - 1])
  }

  /**
   * `addPiece`: the addition is recorded first, then every piece at the same
   * point is removed (each removal recorded), then the piece is added.
   */
  function AddPiece(v: StateValue, p: Piece): (r: StateValue)
    requires |v.incrementalPieces| > 0
    ensures |r.incrementalPieces| == |v.incrementalPieces|
    ensures r == v.(incrementalPieces := r.incrementalPieces, currentPieces := r.currentPieces)
  {
    var recorded := v.(incrementalPieces := AddToLast(v.incrementalPieces, (PLUS, p)));
    var cleared := RemovePieces(recorded, SamePoint(v.currentPieces, p));
    cleared.(currentPieces := cleared.currentPieces + [p])
  }

  /** `addPieces`: `addPiece` for each listed piece, in order. */
  function AddPieces(v: StateValue, ps: seq<Piece>): (r: StateValue)
    requires |v.incrementalPieces| > 0
    ensures |r.incrementalPieces| == |v.incrementalPieces|
    ensures r == v.(incrementalPieces := r.incrementalPieces, currentPieces := r.currentPieces)
  {
    if |ps| == 0 then v else AddPiece(AddPieces(v, ps[..|ps| - 1]), ps[|ps| - 1])
  }

  /** Removing the pieces of a list takes each of them off the board once, where there is one left to take. */
  lemma {:induction false} RemovePiecesCount(v: StateValue, ps: seq<Piece>)
    requires |v.incrementalPieces| > 0
    ensures multiset(RemovePieces(v, ps).currentPieces) == multiset(v.currentPieces) - multiset(ps)
  {
    if |ps| > 0 {
      var init := ps[..|ps| - 1];
      RemovePiecesCount(v, init);
      assert ps == init + [ps[|ps| - 1]];
      assert multiset(ps) == multiset(init) + multiset{ps[|ps| - 1]};
    }
  }

  /** `removePiece` keeps the history: the removal is recorded in the last frame. */
  lemma RemovePieceHistory(v: StateValue, p: Piece, snaps: seq<multiset<Piece>>, extra: multiset<Piece>)
    requires Undoable(v.incrementalPieces, multiset(v.currentPieces) + extra, snaps)
    requires p in v.currentPieces ==> |v.incrementalPieces| > 0
    ensures var r := RemovePiece(v, p); Undoable(r.incrementalPieces, multiset(r.currentPieces) + extra, snaps)
  {
    if p in v.currentPieces {
      RecordChange(v.incrementalPieces, multiset(v.currentPieces) + extra, snaps, (MINUS, p));
      assert (multiset(v.currentPieces) + extra) - multiset{p} == (multiset(v.currentPieces) - multiset{p}) + extra;
    }
  }

  lemma RemovePieceKeepsHistory(v: StateValue, p: Piece, snaps: seq<multiset<Piece>>)
    requires History(v, snaps) && (p in v.currentPieces ==> |v.incrementalPieces| > 0)
    ensures History(RemovePiece(v, p), snaps)
  {
    assert multiset(v.currentPieces) + multiset{} == multiset(v.currentPieces);
    RemovePieceHistory(v, p, snaps, multiset{});
    var r := RemovePiece(v, p);
    assert multiset(r.currentPieces) + multiset{} == multiset(r.currentPieces);
  }

  lemma RemovePiecesKeepsHistory(v: StateValue, ps: seq<Piece>, snaps: seq<multiset<Piece>>)
    requires History(v, snaps) && |v.incrementalPieces| > 0
    ensures History(RemovePieces(v, ps), snaps)
  {
    assert multiset(v.currentPieces) + multiset{} == multiset(v.currentPieces);
    RemovePiecesHistory(v, ps, snaps, multiset{});
    var r := RemovePieces(v, ps);
    assert multiset(r.currentPieces) + multiset{} == multiset(r.currentPieces);
  }

  lemma {:induction false} RemovePiecesHistory(v: StateValue, ps: seq<Piece>, snaps: seq<multiset<Piece>>, extra: multiset<Piece>)
    requires Undoable(v.incrementalPieces, multiset(v.currentPieces) + extra, snaps)
    requires |v.incrementalPieces| > 0
    ensures var r := RemovePieces(v, ps); Undoable(r.incrementalPieces, multiset(r.currentPieces) + extra, snaps)
  {
    if |ps| > 0 {
      RemovePiecesHistory(v, ps[..|ps| - 1], snaps, extra);
      RemovePieceHistory(RemovePieces(v, ps[..|ps| - 1]), ps[|ps| - 1], snaps, extra);
    }
  }

  /** `addPiece` keeps the history: its frame entries replay to the new board. */
  lemma AddPieceHistory(v: StateValue, p: Piece, snaps: seq<multiset<Piece>>)
    requires History(v, snaps) && |v.incrementalPieces| > 0
    ensures History(AddPiece(v, p), snaps)
  {
    var recorded := v.(incrementalPieces := AddToLast(v.incrementalPieces, (PLUS, p)));
    RecordChange(v.incrementalPieces, multiset(v.currentPieces), snaps, (PLUS, p));
    RemovePiecesHistory(recorded, SamePoint(v.currentPieces, p), snaps, multiset{p});
  }

  lemma {:induction false} AddPiecesHistory(v: StateValue, ps: seq<Piece>, snaps: seq<multiset<Piece>>)
    requires History(v, snaps) && |v.incrementalPieces| > 0
    ensures History(AddPieces(v, ps), snaps)
  {
    if |ps| > 0 {
      AddPiecesHistory(v, ps[..|ps| - 1], snaps);
      AddPieceHistory(AddPieces(v, ps[..|ps| - 1]), ps[|ps| - 1], snaps);
    }
  }

  /** After `addPiece(p)`, p is the only piece at p's point, and every other piece stays. */
  lemma AddPieceAlone(v: StateValue, p: Piece)
    requires |v.incrementalPieces| > 0
    ensures var b := AddPiece(v, p).currentPieces;
      && p in b
      && (forall q :: q in b && PiecePoint(q) == PiecePoint(p) ==> q == p)
      && multiset(b)[p] == 1
      && (forall q :: PiecePoint(q) != PiecePoint(p) ==> multiset(b)[q] == multiset(v.currentPieces)[q])
  {
    var recorded := v.(incrementalPieces := AddToLast(v.incrementalPieces, (PLUS, p)));
    var same := SamePoint(v.currentPieces, p);
    SamePointCount(v.currentPieces, p);
    RemovePiecesCount(recorded, same);
    var cleared := RemovePieces(recorded, same);
    assert forall q :: PiecePoint(q) == PiecePoint(p) ==> multiset(cleared.currentPieces)[q] == 0;
  }

  /** A piece at `p`'s point occurs in `SamePoint` as often as on the board. */
  lemma {:induction false} SamePointCount(s: seq<Piece>, p: Piece)
    ensures forall q :: PiecePoint(q) == PiecePoint(p) ==> multiset(SamePoint(s, p))[q] == multiset(s)[q]
  {
    if |s| > 0 {
      SamePointCount(s[..|s| - 1], p);
      assert s == s[..|s| - 1] + [s[|s| - 1]];
    }
  }

  // ------------------------------------------------------------- frames

  /** `initStep`: a new empty frame in each history; the per-node lists and overrides are cleared. */
  function InitStep(v: StateValue): (r: StateValue)
    ensures r.incrementalPieces == v.incrementalPieces + [[]]
    ensures r.moveInfo == v.moveInfo + [None] && r.inherited == v.inherited + [[]]
    ensures r.nodeInfo == [] && r.markup == [] && r.variationData == []
    ensures r.colorJustSet.None? && r.moveNumberJustSet.None?
    ensures r.currentPieces == v.currentPieces
    ensures r == r.(showVariations := v.showVariations, variationMode := v.variationMode, gameId := v.gameId,
                    numRows := v.numRows, numCols := v.numCols)
  {
    v.(incrementalPieces := v.incrementalPieces + [[]], nodeInfo := [], markup := [], variationData := [],
       moveInfo := v.moveInfo + [None], colorJustSet := None, moveNumberJustSet := None,
       inherited := v.inherited + [[]])
  }

  /** `initStep` opens a frame at the current board. */
  lemma InitStepHistory(f: seq<seq<(Change, Piece)>>, board: multiset<Piece>, snaps: seq<multiset<Piece>>)
    requires Undoable(f, board, snaps)
    ensures Undoable(f + [[]], board, snaps + [board])
  {
    var g := f + [[]];
    var s2 := snaps + [board];
    forall k | 0 <= k < |g|
      ensures Replayable(s2[k], g[k])
    {
      if k < |f| {
        assert g[k] == f[k] && s2[k] == snaps[k];
      } else {
        assert g[k] == [];
      }
    }
    forall k | 0 <= k < |g| - 1
      ensures s2[k + 1] == Fwd(s2[k], g[k])
    {
      assert g[k] == f[k] && s2[k] == snaps[k];
      if k < |f| - 1 {
        assert s2[k + 1] == snaps[k + 1];
      }
    }
    assert g[|g| - 1] == [] && s2[|g| - 1] == board;
  }

  /** One round of `stepBack`: the last frame replayed in reverse and dropped from each history. */
  function PopFrame(v: StateValue): (r: StateValue)
    requires |v.incrementalPieces| > 0 && |v.moveInfo| > 0 && |v.inherited| > 0
  {
    var n := |v.incrementalPieces| - 1;
    v.(incrementalPieces := v.incrementalPieces[..n],
       currentPieces := UndoPieces(v.currentPieces, v.incrementalPieces[n]),
       moveInfo := v.moveInfo[..|v.moveInfo| - 1],
       inherited := v.inherited[..|v.inherited| - 1])
  }

  /** `stepBack`: two rounds, so that the node before the previous one can be processed again. */
  function StepBack(v: StateValue): (r: StateValue)
    requires |v.incrementalPieces| >= 2 && |v.moveInfo| >= 2 && |v.inherited| >= 2
    ensures r.incrementalPieces == v.incrementalPieces[..|v.incrementalPieces| - 2]
    ensures r.moveInfo == v.moveInfo[..|v.moveInfo| - 2] && r.inherited == v.inherited[..|v.inherited| - 2]
    ensures r == v.(incrementalPieces := r.incrementalPieces, currentPieces := r.currentPieces,
                    moveInfo := r.moveInfo, inherited := r.inherited)
  {
    PopFrame(PopFrame(v))
  }

  /** Dropping a frame replays it back to the board it was opened at. */
  lemma PopFrameHistory(v: StateValue, snaps: seq<multiset<Piece>>)
    requires History(v, snaps) && |v.incrementalPieces| > 0 && |v.moveInfo| > 0 && |v.inherited| > 0
    ensures var n := |snaps| - 1;
      History(PopFrame(v), snaps[..n]) && multiset(PopFrame(v).currentPieces) == snaps[n]
  {
    var f := v.incrementalPieces;
    var n := |f| - 1;
    UndoPiecesCount(v.currentPieces, f[n]);
    UndoFwd(snaps[n], f[n]);
  }

  /**
   * `stepBack` restores the board, as a multiset of pieces, to what it was
   * before the last two frames were opened.
   */
  lemma StepBackRestores(v: StateValue, snaps: seq<multiset<Piece>>)
    requires History(v, snaps) && Aligned(v) && |v.incrementalPieces| >= 2
    ensures var n := |snaps|;
      && History(StepBack(v), snaps[..n - 2]) && Aligned(StepBack(v))
      && multiset(StepBack(v).currentPieces) == snaps[n - 2]
  {
    var n := |snaps|;
    PopFrameHistory(v, snaps);
    PopFrameHistory(PopFrame(v), snaps[..n - 1]);
    assert snaps[..n - 1][..n - 2] == snaps[..n - 2];
  }

  /** A new state has an empty history. */
  lemma FreshHistory()
    ensures History(Fresh(), []) && Aligned(Fresh())
  {
  }

  // ------------------------------------------------------------- node data

  /** `addMarkups`. */
  function AddMarkups(v: StateValue, ms: seq<Markup>): (r: StateValue)
    ensures r == v.(markup := v.markup + ms)
  {
    v.(markup := v.markup + ms)
  }

  /** The variations numbered from 0, as `(infos.indices zip infos)`. */
  function Numbered(infos: seq<Option<Move>>): (r: seq<VariationData>)
    ensures |r| == |infos|
    ensures forall i :: 0 <= i < |infos| ==> r[i] == VariationData(i, infos[i])
  {
    if |infos| == 0 then [] else Numbered(infos[..|infos| - 1]) + [VariationData(|infos| - 1, infos[|infos| - 1])]
  }

  /** `setVariationInfos`: the variation hints are replaced by the numbered list. */
  function SetVariationInfos(v: StateValue, infos: seq<Option<Move>>): (r: StateValue)
  {
    v.(variationData := Numbered(infos))
  }

  /** `addInherits`: markup that stays until a node clears it, added to the last inherited frame. */
  function AddInherits(v: StateValue, ms: seq<Option<Markup>>): (r: StateValue)
    requires |v.inherited| > 0
    ensures |r.inherited| == |v.inherited| && r.inherited[|v.inherited| - 1] == v.inherited[|v.inherited| - 1] + ms
    ensures r.inherited[..|v.inherited| - 1] == v.inherited[..|v.inherited| - 1]
    ensures r == v.(inherited := r.inherited)
  {
    var n := |v.inherited| - 1;
    v.(inherited := v.inherited[n := v.inherited[n] + ms])
  }

  /** `addNodeInfo`. */
  function AddNodeInfo(v: StateValue, info: NodeInfo): (r: StateValue)
    ensures r == v.(nodeInfo := v.nodeInfo + [info])
  {
    v.(nodeInfo := v.nodeInfo + [info])
  }

  // ------------------------------------------------------------- move counters

  /** `lastMoveInfo`: the last non-null entry of the move history. */
  function LastMoveInfo(ms: seq<Option<MoveInfo>>): Option<MoveInfo>
  {
    if |ms| == 0 then None
    else if ms[|ms| - 1].Some? then ms[|ms| - 1]
    else LastMoveInfo(ms[..|ms| - 1])
  }

  /** `lastMoveInfo` is null exactly when every entry is, and otherwise the entry after which all are null. */
  lemma {:induction false} LastMoveInfoIsLast(ms: seq<Option<MoveInfo>>)
    ensures LastMoveInfo(ms).None? <==> forall i :: 0 <= i < |ms| ==> ms[i].None?
    ensures LastMoveInfo(ms).Some? ==>
      exists i :: 0 <= i < |ms| && ms[i] == LastMoveInfo(ms) && forall j :: i < j < |ms| ==> ms[j].None?
  {
    if |ms| > 0 && ms[|ms| - 1].None? {
      var init := ms[..|ms| - 1];
      LastMoveInfoIsLast(init);
      assert forall i :: 0 <= i < |init| ==> init[i] == ms[i];
      if LastMoveInfo(init).Some? {
        var i :| 0 <= i < |init| && init[i] == LastMoveInfo(init) && forall j :: i < j < |init| ==> init[j].None?;
        assert ms[i] == LastMoveInfo(ms);
      }
    }
  }

  /** `nextColor`: the colour set for this node, else the opponent of the last mover, else black. */
  function NextColor(v: StateValue): (r: Color)
  {
    match v.colorJustSet
    case Some(c) => c
    case None =>
      match LastMoveInfo(v.moveInfo)
      case Some(info) => Not(info.lastColor)
      case None => Not(WHITE)
  }

  /** Which colour the next move has, case by case. */
  lemma NextColorCases(v: StateValue)
    ensures v.colorJustSet.Some? ==> NextColor(v) == v.colorJustSet.value
    ensures v.colorJustSet.None? && LastMoveInfo(v.moveInfo).Some? ==>
      NextColor(v) != LastMoveInfo(v.moveInfo).value.lastColor
    ensures v.colorJustSet.None? && LastMoveInfo(v.moveInfo).None? ==> NextColor(v) == BLACK
  {
  }

  /**
   * `addMoveInfo`: the last entry of the move history becomes the counters
   * after the move: its number is the number set in this node, else the last
   * number plus the move's increment, and the prisoners are the last counts
   * plus the move's captures.
   */
  function AddMoveInfo(v: StateValue, info: MoveInfo): (r: StateValue)
    requires |v.moveInfo| > 0
    ensures |r.moveInfo| == |v.moveInfo| && r.moveInfo[..|v.moveInfo| - 1] == v.moveInfo[..|v.moveInfo| - 1]
    ensures r == v.(moveInfo := r.moveInfo)
  {
    var last := LastMoveInfo(v.moveInfo);
    var number := match v.moveNumberJustSet
      case Some(n) => n
      case None => (if last.Some? then last.value.moveNumber else 0) + info.moveNumber;
    var before := if last.Some? then last.value.prisoners else (0, 0);
    v.(moveInfo := v.moveInfo[|v.moveInfo| - 1 := Some(MoveInfo(number, info.lastColor, info.lastPlayed,
                                                                 (before.0 + info.prisoners.0, before.1 + info.prisoners.1)))])
  }

  /** After `addMoveInfo`, the last move info holds the accumulated counters. */
  lemma AddMoveInfoCounts(v: StateValue, info: MoveInfo)
    requires |v.moveInfo| > 0
    ensures var last := LastMoveInfo(v.moveInfo);
      var r := LastMoveInfo(AddMoveInfo(v, info).moveInfo);
      && r.Some? && r.value.lastColor == info.lastColor && r.value.lastPlayed == info.lastPlayed
      && r.value.moveNumber == (if v.moveNumberJustSet.Some? then v.moveNumberJustSet.value
                                else (if last.Some? then last.value.moveNumber else 0) + info.moveNumber)
      && r.value.prisoners.0 == (if last.Some? then last.value.prisoners.0 else 0) + info.prisoners.0
      && r.value.prisoners.1 == (if last.Some? then last.value.prisoners.1 else 0) + info.prisoners.1
  {
  }

  /** The setter of `moveNumberJustSet`: a number also renumbers a move already made in this node. */
  function SetMoveNumber(v: StateValue, n: Option<int>): (r: StateValue)
    requires n.Some? ==> |v.moveInfo| > 0
    ensures r.moveNumberJustSet == n && |r.moveInfo| == |v.moveInfo|
    ensures r == v.(moveNumberJustSet := n, moveInfo := r.moveInfo)
  {
    if n.Some? && v.moveInfo[|v.moveInfo| - 1].Some? then
      var k := |v.moveInfo| - 1;
      v.(moveNumberJustSet := n, moveInfo := v.moveInfo[k := Some(v.moveInfo[k].value.(moveNumber := n.value))])
    else v.(moveNumberJustSet := n)
  }

  /** MN after B: the move just made takes the number; MN before B: the move is numbered by it. */
  lemma MoveNumberEitherOrder(v: StateValue, n: int, info: MoveInfo)
    requires |v.moveInfo| > 0
    ensures LastMoveInfo(SetMoveNumber(AddMoveInfo(v, info), Some(n)).moveInfo).value.moveNumber == n
    ensures LastMoveInfo(AddMoveInfo(SetMoveNumber(v, Some(n)), info).moveInfo).value.moveNumber == n
  {
  }

  // ------------------------------------------------------------- the view's data

  /** `findLast { it.isNotEmpty() }` over the inherited frames. */
  function LastNonEmpty(inh: seq<seq<Option<Markup>>>): (r: Option<seq<Option<Markup>>>)
    ensures r.None? <==> forall i :: 0 <= i < |inh| ==> inh[i] == []
    ensures r.Some? ==> r.value != []
  {
    if |inh| == 0 then None
    else if inh[|inh| - 1] != [] then Some(inh[|inh| - 1])
    else
      assert forall i :: 0 <= i < |inh| - 1 ==> inh[..|inh| - 1][i] == inh[i];
      LastNonEmpty(inh[..|inh| - 1])
  }

  /** `filterNotNull`. */
  function Present(ms: seq<Option<Markup>>): (r: seq<Markup>)
    ensures forall m :: m in r <==> Some(m) in ms
  {
    if |ms| == 0 then []
    else
      assert ms == ms[..|ms| - 1] + [ms[|ms| - 1]];
      Present(ms[..|ms| - 1]) + (if ms[|ms| - 1].Some? then [ms[|ms| - 1].value] else [])
  }

  /** The inherited markup shown: the last non-empty frame without its nulls. */
  function InheritedMarkup(inh: seq<seq<Option<Markup>>>): seq<Markup>
  {
    match LastNonEmpty(inh)
    case Some(ms) => Present(ms)
    case None => []
  }

  /**
   * A node that adds inherited markup shows exactly that markup; a `[null]`
   * frame clears it; a node that adds none keeps showing the earlier frames'.
   */
  lemma InheritedMarkupFrames(inh: seq<seq<Option<Markup>>>, ms: seq<Option<Markup>>)
    ensures ms != [] ==> InheritedMarkup(inh + [ms]) == Present(ms)
    ensures InheritedMarkup(inh + [[None]]) == []
    ensures InheritedMarkup(inh + [[]]) == InheritedMarkup(inh)
  {
    assert (inh + [[]])[..|inh|] == inh;
    assert Present([None]) == Present([]) + [];
  }

  /** `data`: pieces, node infos, markup, variation hints, inherited markup, configuration and last move. */
  function Data(v: StateValue): (r: seq<SgfDatum>)
    ensures |r| == |v.currentPieces| + |v.nodeInfo| + |v.markup| + |v.variationData|
                   + |InheritedMarkup(v.inherited)| + 1 + (if LastMoveInfo(v.moveInfo).Some? then 1 else 0)
    ensures forall i :: 0 <= i < |v.currentPieces| ==> r[i] == PieceDatum(v.currentPieces[i])
    ensures LastMoveInfo(v.moveInfo).Some? ==>
      r[|r| - 1] == MoveInfoDatum(LastMoveInfo(v.moveInfo).value) && r[|r| - 2] == GameConfig(v.gameId, v.numCols, v.numRows)
    ensures LastMoveInfo(v.moveInfo).None? ==> r[|r| - 1] == GameConfig(v.gameId, v.numCols, v.numRows)
  {
    MapPieces(v.currentPieces) + MapInfos(v.nodeInfo) + MapMarkup(v.markup) + MapVariations(v.variationData)
    + MapMarkup(InheritedMarkup(v.inherited)) + [GameConfig(v.gameId, v.numCols, v.numRows)]
    + (match LastMoveInfo(v.moveInfo) case Some(info) => [MoveInfoDatum(info)] case None => [])
  }

  function MapPieces(s: seq<Piece>): (r: seq<SgfDatum>)
    ensures |r| == |s| && forall i :: 0 <= i < |s| ==> r[i] == PieceDatum(s[i])
  {
    if |s| == 0 then [] else MapPieces(s[..|s| - 1]) + [PieceDatum(s[|s| - 1])]
  }

  function MapInfos(s: seq<NodeInfo>): (r: seq<SgfDatum>)
    ensures |r| == |s| && forall i :: 0 <= i < |s| ==> r[i] == InfoDatum(s[i])
  {
    if |s| == 0 then [] else MapInfos(s[..|s| - 1]) + [InfoDatum(s[|s| - 1])]
  }

  function MapMarkup(s: seq<Markup>): (r: seq<SgfDatum>)
    ensures |r| == |s| && forall i :: 0 <= i < |s| ==> r[i] == MarkupDatum(s[i])
  {
    if |s| == 0 then [] else MapMarkup(s[..|s| - 1]) + [MarkupDatum(s[|s| - 1])]
  }

  function MapVariations(s: seq<VariationData>): (r: seq<SgfDatum>)
    ensures |r| == |s| && forall i :: 0 <= i < |s| ==> r[i] == VariationDatum(s[i])
  {
    if |s| == 0 then [] else MapVariations(s[..|s| - 1]) + [VariationDatum(s[|s| - 1])]
  }
}
