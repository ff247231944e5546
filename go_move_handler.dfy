/**
 * The Go move handler: a move places a stone, every neighbouring group of the
 * opponent left without liberties is captured, and then the mover's own group
 * is checked for suicide.
 *
 * The liberty search `checkLiberties` is a depth-first search over the board
 * that threads the list of stones already visited (`alreadyChecked`); it is
 * proved equivalent to an independent definition: a stone's group has a
 * liberty when a chain of same-coloured neighbours leads from it to a stone
 * with an empty neighbouring point on the board.
 */
module GoMoveHandler {
  import opened Wrappers
  import opened SgfTree
  import opened SgfData
  import opened BoardState
  import opened State

  /** `board.find { … }`: the first Go stone on the board at (x, y). */
  function FindAt(b: seq<Piece>, x: int, y: int): (r: Option<Piece>)
    ensures r.Some? ==> r.value in b && GoPoint(r.value) == Some(XYPoint(x, y))
    ensures r.None? <==> forall q :: q in b ==> GoPoint(q) != Some(XYPoint(x, y))
  {
    if |b| == 0 then None
    else if GoPoint(b[0]) == Some(XYPoint(x, y)) then Some(b[0])
    else
      var r := FindAt(b[1..], x, y);
      assert forall q :: q in b ==> q == b[0] || q in b[1..];
      r
  }

  predicate OnBoard(cols: int, rows: int, pt: XYPoint)
  {
    1 <= pt.x <= cols && 1 <= pt.y <= rows
  }

  /** The four neighbouring points in the order the search looks at them: left, top, right, bottom. */
  function Left(pt: XYPoint): XYPoint { XYPoint(pt.x - 1, pt.y) }
  function Top(pt: XYPoint): XYPoint { XYPoint(pt.x, pt.y - 1) }
  function Right(pt: XYPoint): XYPoint { XYPoint(pt.x + 1, pt.y) }
  function Bottom(pt: XYPoint): XYPoint { XYPoint(pt.x, pt.y + 1) }

  function StoneAt(b: seq<Piece>, pt: XYPoint): Option<Piece>
  {
    FindAt(b, pt.x, pt.y)
  }

  /** A neighbour the search descends into: a stone of the same colour not visited when the stone was entered. */
  function Candidate(n: Option<Piece>, color: Color, checked: seq<Piece>): (r: Option<Piece>)
    ensures r.Some? ==> r == n && r.value.color == color && r.value !in checked
  {
    if n.Some? && n.value.color == color && n.value !in checked then n else None
  }

  /**
   * `checkLiberties(piece)` with `alreadyChecked` passed in and returned:
   * whether the group of `piece` has a liberty, and the visited list after
   * the search. `anc` is the set of stones on the current search path, which
   * the search never re-enters; it exists only to show termination.
   */
  function Check(b: seq<Piece>, cols: int, rows: int, piece: Option<Piece>, checked: seq<Piece>, ghost anc: set<Piece>)
    : (r: (bool, seq<Piece>))
    requires forall q :: q in anc ==> q in checked
    requires piece.Some? ==> piece.value !in anc
    ensures checked <= r.1
    decreases (set q | q in b) - anc, 0
  {
    if piece.None? || GoPoint(piece.value).None? then (false, checked)
    else
      var p := piece.value;
      var pt := GoPoint(p).value;
      if !OnBoard(cols, rows, pt) then (false, checked)
      else if p !in b then (true, checked)
      else if StoneAt(b, Left(pt)).None? && pt.x > 1 then (true, checked)
      else if StoneAt(b, Top(pt)).None? && pt.y > 1 then (true, checked)
      else if StoneAt(b, Right(pt)).None? && pt.x < cols then (true, checked)
      else if StoneAt(b, Bottom(pt)).None? && pt.y < rows then (true, checked)
      else
        assert p in (set q | q in b) - anc;
        Explore(b, cols, rows, Candidates(b, p, checked), checked + [p], anc + {p})
  }

  /**
   * The neighbours the search descends into, in the order of the `||` chain
   * (left, right, top, bottom): same-coloured stones not yet visited when
   * `p` was entered.
   */
  function Candidates(b: seq<Piece>, p: Piece, checked: seq<Piece>): (r: seq<Option<Piece>>)
    requires GoPoint(p).Some?
    ensures |r| == 4
    ensures forall i :: 0 <= i < 4 && r[i].Some? ==> r[i].value.color == p.color && r[i].value !in checked
  {
    var pt := GoPoint(p).value;
    [Candidate(StoneAt(b, Left(pt)), p.color, checked), Candidate(StoneAt(b, Right(pt)), p.color, checked),
     Candidate(StoneAt(b, Top(pt)), p.color, checked), Candidate(StoneAt(b, Bottom(pt)), p.color, checked)]
  }

  /** The short-circuit `||` over the candidates' searches, each continuing from the list the previous one left. */
  function Explore(b: seq<Piece>, cols: int, rows: int, cands: seq<Option<Piece>>, checked: seq<Piece>, ghost anc: set<Piece>)
    : (r: (bool, seq<Piece>))
    requires forall q :: q in anc ==> q in checked
    requires forall i :: 0 <= i < |cands| && cands[i].Some? ==> cands[i].value !in anc
    ensures checked <= r.1
    decreases (set q | q in b) - anc, |cands|
  {
    if |cands| == 0 then (false, checked)
    else
      var r := Check(b, cols, rows, cands[0], checked, anc);
      if r.0 then r else Explore(b, cols, rows, cands[1..], r.1, anc)
  }

  // ------------------------------------------------------------- the reference definition

  /** An empty point on the board next to the stone at `pt`, in a direction with room. */
  ghost predicate HasLiberty(b: seq<Piece>, cols: int, rows: int, pt: XYPoint)
  {
    || (StoneAt(b, Left(pt)).None? && pt.x > 1)
    || (StoneAt(b, Top(pt)).None? && pt.y > 1)
    || (StoneAt(b, Right(pt)).None? && pt.x < cols)
    || (StoneAt(b, Bottom(pt)).None? && pt.y < rows)
  }

  /** `n` is the stone next to `q` in one of the four directions, and has `q`'s colour. */
  ghost predicate Link(b: seq<Piece>, q: Piece, n: Piece)
  {
    GoPoint(q).Some? && n.color == q.color &&
    var pt := GoPoint(q).value;
    || StoneAt(b, Left(pt)) == Some(n)
    || StoneAt(b, Top(pt)) == Some(n)
    || StoneAt(b, Right(pt)) == Some(n)
    || StoneAt(b, Bottom(pt)) == Some(n)
  }

  /** A Go stone of the board, on the board. */
  ghost predicate Placed(b: seq<Piece>, cols: int, rows: int, q: Piece)
  {
    q in b && GoPoint(q).Some? && OnBoard(cols, rows, GoPoint(q).value)
  }

  /** Within `k` links of same-coloured neighbours, `q`'s group reaches a stone with a liberty. */
  ghost predicate Reaches(b: seq<Piece>, cols: int, rows: int, q: Piece, k: nat)
    decreases k
  {
    Placed(b, cols, rows, q) &&
    (HasLiberty(b, cols, rows, GoPoint(q).value)
     || (k > 0 && exists n :: Link(b, q, n) && Reaches(b, cols, rows, n, k - 1)))
  }

  /** A visited stone that the search found without liberties: all its placed links were visited too. */
  ghost predicate Dead(b: seq<Piece>, cols: int, rows: int, q: Piece, visited: seq<Piece>)
  {
    Placed(b, cols, rows, q) && !HasLiberty(b, cols, rows, GoPoint(q).value)
    && forall n :: Link(b, q, n) && Placed(b, cols, rows, n) ==> n in visited
  }

  lemma DeadGrows(b: seq<Piece>, cols: int, rows: int, q: Piece, s: seq<Piece>, t: seq<Piece>)
    requires Dead(b, cols, rows, q, s) && s <= t
    ensures Dead(b, cols, rows, q, t)
  {
    forall n | Link(b, q, n) && Placed(b, cols, rows, n)
      ensures n in t
    {
      var i :| 0 <= i < |s| && s[i] == n;
      assert t[i] == n;
    }
  }

  /** A true answer is backed by a chain to a liberty. */
  lemma {:induction false} CheckTrue(b: seq<Piece>, cols: int, rows: int, p: Piece, checked: seq<Piece>, anc: set<Piece>)
    returns (k: nat)
    requires forall q :: q in anc ==> q in checked
    requires p !in anc && p in b
    requires Check(b, cols, rows, Some(p), checked, anc).0
    ensures Reaches(b, cols, rows, p, k)
    decreases (set q | q in b) - anc, 0
  {
    var pt := GoPoint(p).value;
    if HasLiberty(b, cols, rows, pt) {
      return 0;
    }
    assert p in (set q | q in b) - anc;
    var cands := Candidates(b, p, checked);
    var i;
    k, i := ExploreTrue(b, cols, rows, cands, checked + [p], anc + {p});
    assert Link(b, p, cands[i].value);
    k := k + 1;
  }

  /** Some candidate with a true search answer, and its chain to a liberty. */
  lemma {:induction false} ExploreTrue(b: seq<Piece>, cols: int, rows: int, cands: seq<Option<Piece>>, checked: seq<Piece>, anc: set<Piece>)
    returns (k: nat, i: nat)
    requires forall q :: q in anc ==> q in checked
    requires forall j :: 0 <= j < |cands| && cands[j].Some? ==> cands[j].value !in anc && cands[j].value in b
    requires Explore(b, cols, rows, cands, checked, anc).0
    ensures i < |cands| && cands[i].Some? && Reaches(b, cols, rows, cands[i].value, k)
    decreases (set q | q in b) - anc, |cands|
  {
    var r := Check(b, cols, rows, cands[0], checked, anc);
    if r.0 {
      k := CheckTrue(b, cols, rows, cands[0].value, checked, anc);
      i := 0;
    } else {
      k, i := ExploreTrue(b, cols, rows, cands[1..], r.1, anc);
      i := i + 1;
    }
  }

  /**
   * A false answer leaves every newly visited stone dead and of the searched
   * colour, and the searched stone itself visited when it is a placed stone.
   */
  lemma {:induction false} CheckFalse(b: seq<Piece>, cols: int, rows: int, piece: Option<Piece>, checked: seq<Piece>, anc: set<Piece>)
    requires forall q :: q in anc ==> q in checked
    requires piece.Some? ==> piece.value !in anc
    requires !Check(b, cols, rows, piece, checked, anc).0
    ensures var r := Check(b, cols, rows, piece, checked, anc).1;
      && (forall q :: q in r && q !in checked ==> Dead(b, cols, rows, q, r) && q.color == piece.value.color)
      && (piece.Some? && Placed(b, cols, rows, piece.value) ==> piece.value in r)
    decreases (set q | q in b) - anc, 0
  {
    if piece.None? || GoPoint(piece.value).None? || !OnBoard(cols, rows, GoPoint(piece.value).value) {
      return;
    }
    var p := piece.value;
    var pt := GoPoint(p).value;
    assert p in (set q | q in b) - anc;
    var cands := Candidates(b, p, checked);
    var c0 := checked + [p];
    var r := Explore(b, cols, rows, cands, c0, anc + {p});
    assert r.1 == Check(b, cols, rows, piece, checked, anc).1;
    ExploreFalse(b, cols, rows, p.color, cands, c0, anc + {p});
    forall n | Link(b, p, n) && Placed(b, cols, rows, n)
      ensures n in r.1
    {
      if n in checked {
        assert c0 <= r.1;
      } else if StoneAt(b, Left(pt)) == Some(n) {
        assert cands[0] == Some(n);
      } else if StoneAt(b, Right(pt)) == Some(n) {
        assert cands[1] == Some(n);
      } else if StoneAt(b, Top(pt)) == Some(n) {
        assert cands[2] == Some(n);
      } else {
        assert cands[3] == Some(n);
      }
    }
  }

  /** A false answer of every candidate: each placed candidate was visited, and each new stone is dead. */
  lemma {:induction false} ExploreFalse(b: seq<Piece>, cols: int, rows: int, color: Color, cands: seq<Option<Piece>>,
                                        checked: seq<Piece>, anc: set<Piece>)
    requires forall q :: q in anc ==> q in checked
    requires forall j :: 0 <= j < |cands| && cands[j].Some? ==> cands[j].value !in anc && cands[j].value.color == color
    requires !Explore(b, cols, rows, cands, checked, anc).0
    ensures var r := Explore(b, cols, rows, cands, checked, anc).1;
      && (forall q :: q in r && q !in checked ==> Dead(b, cols, rows, q, r) && q.color == color)
      && (forall j :: 0 <= j < |cands| && cands[j].Some? && Placed(b, cols, rows, cands[j].value) ==> cands[j].value in r)
    decreases (set q | q in b) - anc, |cands|
  {
    if |cands| > 0 {
      var r1 := Check(b, cols, rows, cands[0], checked, anc);
      var r := Explore(b, cols, rows, cands[1..], r1.1, anc);
      CheckFalse(b, cols, rows, cands[0], checked, anc);
      ExploreFalse(b, cols, rows, color, cands[1..], r1.1, anc);
      forall q | q in r.1 && q !in checked
        ensures Dead(b, cols, rows, q, r.1) && q.color == color
      {
        if q in r1.1 {
          DeadGrows(b, cols, rows, q, r1.1, r.1);
        }
      }
      forall j | 0 <= j < |cands| && cands[j].Some? && Placed(b, cols, rows, cands[j].value)
        ensures cands[j].value in r.1
      {
        if j == 0 {
          assert r1.1 <= r.1;
        } else {
          assert cands[1..][j - 1] == cands[j];
        }
      }
    }
  }

  /** A set of dead stones closed under placed links contains no stone whose group reaches a liberty. */
  lemma {:induction false} DeadNeverReaches(b: seq<Piece>, cols: int, rows: int, s: seq<Piece>, q: Piece, k: nat)
    requires forall x :: x in s ==> Dead(b, cols, rows, x, s)
    requires q in s
    ensures !Reaches(b, cols, rows, q, k)
    decreases k
  {
    if k > 0 {
      forall n | Link(b, q, n)
        ensures !Reaches(b, cols, rows, n, k - 1)
      {
        if Placed(b, cols, rows, n) {
          DeadNeverReaches(b, cols, rows, s, n, k - 1);
        }
      }
    }
  }

  /** The search from a placed stone answers true exactly when its group can reach a liberty. */
  lemma CheckIff(b: seq<Piece>, cols: int, rows: int, p: Piece)
    requires Placed(b, cols, rows, p)
    ensures Check(b, cols, rows, Some(p), [], {}).0 <==> exists k: nat :: Reaches(b, cols, rows, p, k)
  {
    if Check(b, cols, rows, Some(p), [], {}).0 {
      var k := CheckTrue(b, cols, rows, p, [], {});
      assert Reaches(b, cols, rows, p, k);
    } else {
      CheckFalse(b, cols, rows, Some(p), [], {});
      var r := Check(b, cols, rows, Some(p), [], {}).1;
      forall k: nat
        ensures !Reaches(b, cols, rows, p, k)
      {
        DeadNeverReaches(b, cols, rows, r, p, k);
      }
    }
  }

  // ------------------------------------------------------------- captures and moves

  /** The stones of a list, each once. */
  ghost function Distinct(s: seq<Piece>): set<Piece>
  {
    set q | q in s
  }

  /** `distinct().size`: the list's stones counted once each. */
  function DistinctCount(s: seq<Piece>): nat
  {
    CountNew(s, {})
  }

  /** The stones of `s` not in `seen`, counted once each. */
  function CountNew(s: seq<Piece>, seen: set<Piece>): nat
  {
    if |s| == 0 then 0
    else (if s[0] in seen then 0 else 1) + CountNew(s[1..], seen + {s[0]})
  }

  lemma {:induction false} CountNewIsSize(s: seq<Piece>, seen: set<Piece>)
    ensures CountNew(s, seen) == |Distinct(s) - seen|
  {
    if |s| > 0 {
      CountNewIsSize(s[1..], seen + {s[0]});
      assert Distinct(s) == {s[0]} + Distinct(s[1..]);
      if s[0] in seen {
        assert Distinct(s) - seen == Distinct(s[1..]) - (seen + {s[0]});
      } else {
        assert Distinct(s) - seen == (Distinct(s[1..]) - (seen + {s[0]})) + {s[0]};
      }
    } else {
      assert Distinct(s) == {};
    }
  }

  lemma DistinctCountIsSize(s: seq<Piece>)
    ensures DistinctCount(s) == |Distinct(s)|
  {
    CountNewIsSize(s, {});
    assert Distinct(s) - {} == Distinct(s);
  }

  /**
   * `handleCheck(!checkLiberties(probe))` on a fresh visited list: when the
   * probe's group has no liberty, the visited stones are removed and counted.
   */
  function Capture(v: StateValue, probe: Piece): (r: (StateValue, int))
    requires |v.incrementalPieces| > 0
    ensures |r.0.incrementalPieces| == |v.incrementalPieces|
    ensures r.0 == v.(incrementalPieces := r.0.incrementalPieces, currentPieces := r.0.currentPieces)
  {
    var c := Check(v.currentPieces, v.numCols, v.numRows, Some(probe), [], {});
    if !c.0 then (RemovePieces(v, c.1), DistinctCount(c.1)) else (v, 0)
  }

  /**
   * A capture happens exactly when the probe is a placed stone whose group
   * cannot reach a liberty; it then removes that whole group (every placed
   * same-coloured neighbour of a removed stone is removed too), all of the
   * probe's colour, each stone once, and counts its stones.
   */
  lemma CaptureFacts(v: StateValue, probe: Piece)
    requires |v.incrementalPieces| > 0
    ensures var b, cols, rows := v.currentPieces, v.numCols, v.numRows;
      var r := Capture(v, probe);
      var g := Check(b, cols, rows, Some(probe), [], {}).1;
      && (r.1 > 0 <==> Placed(b, cols, rows, probe) && forall k: nat :: !Reaches(b, cols, rows, probe, k))
      && (r.1 == 0 ==> r.0 == v)
      && (r.1 > 0 ==>
            && r.1 == |Distinct(g)|
            && multiset(r.0.currentPieces) == multiset(b) - multiset(g)
            && (forall q :: q in g ==> q in b && q.color == probe.color && forall k: nat :: !Reaches(b, cols, rows, q, k))
            && (forall q, n :: q in g && Link(b, q, n) && Placed(b, cols, rows, n) ==> n in g))
  {
    var b, cols, rows := v.currentPieces, v.numCols, v.numRows;
    var c := Check(b, cols, rows, Some(probe), [], {});
    if Placed(b, cols, rows, probe) {
      CheckIff(b, cols, rows, probe);
    }
    if !c.0 {
      DistinctCountIsSize(c.1);
      CheckFalse(b, cols, rows, Some(probe), [], {});
      RemovePiecesCount(v, c.1);
      if Placed(b, cols, rows, probe) {
        assert probe in Distinct(c.1);
      } else {
        assert c.1 == [];
        assert Distinct(c.1) == {};
      }
      forall q, k: nat | q in c.1
        ensures !Reaches(b, cols, rows, q, k)
      {
        DeadNeverReaches(b, cols, rows, c.1, q, k);
      }
    }
  }

  /** B[tt] on a board of at most 19x19, or a move without a point, is a pass. */
  predicate IsPass(v: StateValue, move: Move)
  {
    move.XYMove? && ((v.numCols <= 19 && v.numRows <= 19 && move == XYMove(Some(XYPoint(20, 20)))) || move.target.None?)
  }

  /** The stone probes of a move at `pt`: the opponent's four neighbours (left, top, right, bottom), then the mover. */
  function StoneOf(color: Color, pt: XYPoint): Piece
  {
    Piece(color, Some(XYStone(pt)))
  }

  /**
   * `makeMove`: places the stone, captures the neighbouring groups of the
   * opponent that lost their last liberty, then removes the mover's own group
   * if it has none left (suicide). The move information counts one move and
   * the stones each side lost, black's first.
   */
  function GoMove(v: StateValue, color: Color, move: Move): (r: (StateValue, Option<MoveInfo>))
    requires |v.incrementalPieces| > 0
    ensures |r.0.incrementalPieces| == |v.incrementalPieces|
    ensures r.0 == v.(incrementalPieces := r.0.incrementalPieces, currentPieces := r.0.currentPieces)
  {
    if !move.XYMove? then (v, None)
    else if IsPass(v, move) then (v, Some(MoveInfo(1, color, XYMove(None), (0, 0))))
    else
      var pt := move.target.value;
      var (v4, other) := CaptureAround(AddPiece(v, StoneOf(color, pt)), Not(color), pt);
      var (v5, own) := Capture(v4, StoneOf(color, pt));
      (v5, Some(MoveInfo(1, color, XYMove(Some(pt)), if color == BLACK then (own, other) else (other, own))))
  }

  /** One more `otherPrisoners += handleCheck(…)`: the capture of `probe` on the board so far, added to the count. */
  function CaptureFrom(acc: (StateValue, int), probe: Piece): (r: (StateValue, int))
    requires |acc.0.incrementalPieces| > 0
    ensures |r.0.incrementalPieces| == |acc.0.incrementalPieces| && r.1 >= acc.1
    ensures r.0 == acc.0.(incrementalPieces := r.0.incrementalPieces, currentPieces := r.0.currentPieces)
  {
    var c := Capture(acc.0, probe);
    assert c.1 >= 0 by { CaptureFacts(acc.0, probe); }
    (c.0, acc.1 + c.1)
  }

  /** The captures of the groups of `color` left of, above, right of and below `pt`, in that order, and their count. */
  function CaptureAround(v: StateValue, color: Color, pt: XYPoint): (r: (StateValue, int))
    requires |v.incrementalPieces| > 0
    ensures |r.0.incrementalPieces| == |v.incrementalPieces| && r.1 >= 0
    ensures r.0 == v.(incrementalPieces := r.0.incrementalPieces, currentPieces := r.0.currentPieces)
  {
    CaptureFrom(CaptureFrom(CaptureFrom(CaptureFrom((v, 0), StoneOf(color, Left(pt))), StoneOf(color, Top(pt))),
                            StoneOf(color, Right(pt))), StoneOf(color, Bottom(pt)))
  }

  /** Only point moves are handled; a pass changes nothing and reports one passing move without captures. */
  lemma GoMovePasses(v: StateValue, color: Color, move: Move)
    requires |v.incrementalPieces| > 0
    ensures !move.XYMove? ==> GoMove(v, color, move) == (v, None)
    ensures IsPass(v, move) ==> GoMove(v, color, move) == (v, Some(MoveInfo(1, color, XYMove(None), (0, 0))))
  {
  }

  /**
   * A move at a point reports that move by `color`, numbered 1 (the state
   * adds it to the last number). The mover's prisoners are the stones taken
   * from the four neighbouring groups; the opponent's are the mover's own
   * stones, which are taken exactly when, after those captures, the new
   * stone's group reaches no liberty (suicide).
   */
  lemma GoMoveReports(v: StateValue, color: Color, pt: XYPoint)
    requires |v.incrementalPieces| > 0
    requires !IsPass(v, XYMove(Some(pt)))
    ensures var info := GoMove(v, color, XYMove(Some(pt))).1;
      var (v4, other) := CaptureAround(AddPiece(v, StoneOf(color, pt)), Not(color), pt);
      var own := Capture(v4, StoneOf(color, pt)).1;
      && info.Some? && info.value.moveNumber == 1 && info.value.lastColor == color
      && info.value.lastPlayed == XYMove(Some(pt))
      && info.value.prisoners == (if color == BLACK then (own, other) else (other, own))
      && other >= 0
      && (own > 0 <==> Placed(v4.currentPieces, v4.numCols, v4.numRows, StoneOf(color, pt))
                       && forall k: nat :: !Reaches(v4.currentPieces, v4.numCols, v4.numRows, StoneOf(color, pt), k))
  {
    var (v4, other) := CaptureAround(AddPiece(v, StoneOf(color, pt)), Not(color), pt);
    CaptureFacts(v4, StoneOf(color, pt));
  }

  /** `handleCheck(!checkLiberties(probe))`, with `board` and `alreadyChecked` as locals. */
  method HandleCheck(state: SgfState, probe: Piece) returns (n: int)
    requires |state.incrementalPieces| > 0
    modifies state
    ensures (state.Value(), n) == Capture(old(state.Value()), probe)
    ensures state.snapshots == old(state.snapshots)
    ensures old(state.Valid()) ==> state.Valid()
  {
    var board := state.currentPieces;
    var alreadyChecked := Check(board, state.numCols, state.numRows, Some(probe), [], {});
    if !alreadyChecked.0 {
      state.RemovePieces(alreadyChecked.1);
      n := DistinctCount(alreadyChecked.1);
    } else {
      n := 0;
    }
  }

  /** `GoMoveHandler`: the move handler for Go. */
  method MakeMove(state: SgfState, color: Color, move: Move) returns (info: Option<MoveInfo>)
    requires |state.incrementalPieces| > 0
    modifies state
    ensures (state.Value(), info) == GoMove(old(state.Value()), color, move)
    ensures state.snapshots == old(state.snapshots)
    ensures old(state.Valid()) ==> state.Valid()
  {
    if !move.XYMove? {
      return None;
    }
    if (state.numCols <= 19 && state.numRows <= 19 && move == XYMove(Some(XYPoint(20, 20)))) || move.target.None? {
      return Some(MoveInfo(1, color, XYMove(None), (0, 0)));
    }
    var pt := move.target.value;
    state.AddPiece(StoneOf(color, pt));
    var other := CaptureNeighbours(state, Not(color), pt);
    var own := HandleCheck(state, StoneOf(color, pt));
    info := Some(MoveInfo(1, color, XYMove(Some(pt)), if color == BLACK then (own, other) else (other, own)));
  }

  /** The four neighbour checks of `makeMove`, summing the opponent's prisoners. */
  method CaptureNeighbours(state: SgfState, color: Color, pt: XYPoint) returns (other: int)
    requires |state.incrementalPieces| > 0
    modifies state
    ensures (state.Value(), other) == CaptureAround(old(state.Value()), color, pt)
    ensures state.snapshots == old(state.snapshots)
    ensures old(state.Valid()) ==> state.Valid()
  {
    other := CheckNeighbour(state, StoneOf(color, Left(pt)), 0);
    other := CheckNeighbour(state, StoneOf(color, Top(pt)), other);
    other := CheckNeighbour(state, StoneOf(color, Right(pt)), other);
    other := CheckNeighbour(state, StoneOf(color, Bottom(pt)), other);
  }

  /** One neighbour check of `makeMove`, adding its prisoners to `count`. */
  method CheckNeighbour(state: SgfState, probe: Piece, count: int) returns (total: int)
    requires |state.incrementalPieces| > 0
    modifies state
    ensures (state.Value(), total) == CaptureFrom((old(state.Value()), count), probe)
    ensures |state.incrementalPieces| > 0
    ensures state.snapshots == old(state.snapshots)
    ensures old(state.Valid()) ==> state.Valid()
  {
    var n := HandleCheck(state, probe);
    total := count + n;
  }

  // ------------------------------------------------------------- the older Go node handler

  /** The move information of the older handler: a running number, the piece played and the running prisoner counts. */
  datatype LegacyMoveInfo = LegacyMoveInfo(moveNumber: int, lastPlayed: Piece, prisoners: (int, int))

  /**
   * The older `GoNodeHandler.makeMove`: the same captures, but the number and
   * prisoners it reports are running totals over the last move information.
   */
  function LegacyMove(v: StateValue, color: Color, move: Move): (r: (StateValue, Option<LegacyMoveInfo>))
    requires |v.incrementalPieces| > 0
  {
    var last := LastMoveInfo(v.moveInfo);
    var number := (if last.Some? then last.value.moveNumber else 0) + 1;
    var before := if last.Some? then last.value.prisoners else (0, 0);
    if !move.XYMove? then (v, None)
    else if IsPass(v, move) then (v, Some(LegacyMoveInfo(number, Piece(color, None), before)))
    else
      var pt := move.target.value;
      var (v4, other) := CaptureAround(AddPiece(v, StoneOf(color, pt)), Not(color), pt);
      var (v5, own) := Capture(v4, StoneOf(color, pt));
      (v5, Some(LegacyMoveInfo(number, StoneOf(color, pt),
                               (before.0 + (if color == BLACK then own else other),
                                before.1 + (if color == BLACK then other else own)))))
  }

  /**
   * The older handler changes the board exactly as the current one; a pass
   * adds one to the last move number and keeps the last prisoner counts, and
   * a move at a point adds the current handler's counts to them.
   */
  lemma LegacyMoveAgrees(v: StateValue, color: Color, move: Move)
    requires |v.incrementalPieces| > 0
    ensures LegacyMove(v, color, move).0 == GoMove(v, color, move).0
    ensures LegacyMove(v, color, move).1.Some? <==> GoMove(v, color, move).1.Some?
    ensures var last := LastMoveInfo(v.moveInfo);
      var r := LegacyMove(v, color, move).1;
      IsPass(v, move) ==>
        && r.value.moveNumber == (if last.Some? then last.value.moveNumber else 0) + 1
        && r.value.prisoners == (if last.Some? then last.value.prisoners else (0, 0))
        && r.value.lastPlayed.stone.None?
    ensures var last := LastMoveInfo(v.moveInfo);
      var r := LegacyMove(v, color, move).1;
      var s := GoMove(v, color, move).1;
      move.XYMove? && !IsPass(v, move) ==>
        && r.value.prisoners.0 == (if last.Some? then last.value.prisoners.0 else 0) + s.value.prisoners.0
        && r.value.prisoners.1 == (if last.Some? then last.value.prisoners.1 else 0) + s.value.prisoners.1
        && r.value.lastPlayed == StoneOf(color, move.target.value)
  {
  }
}
