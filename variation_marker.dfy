/**
 * The Go handler's variation marker (`markupVariations`): the variations of a
 * node are labelled 'A', 'B', ... in order. A variation whose move has a point
 * is marked at that point; the others are spread along the middle row of the
 * board, moved right (and then down) past points that are already marked.
 * The markup is handed back sorted by label.
 */
module VariationMarker {
  import opened Wrappers
  import opened SgfTree
  import opened SgfData

  /** Kotlin's `/` on `Int` for a positive divisor: the quotient rounded toward zero. */
  function TruncDiv(a: int, b: int): int
    requires b > 0
  {
    if a >= 0 then a / b else -((-a) / b)
  }

  /** `coerceAtLeast(1)`. */
  function AtLeastOne(n: int): (r: int)
    ensures r >= 1 && r >= n && (n >= 1 ==> r == n)
  {
    if n < 1 then 1 else n
  }

  /** The number of variations whose labels 'A' + index are all characters. */
  const LabelLimit: nat := 0xD800 - 65

  /** The label of the variation at `index`: the character 'A' + index. */
  function Label(index: nat): (c: char)
    requires index < LabelLimit
    ensures c as int == 'A' as int + index
  {
    (65 + index) as char
  }

  /** `move?.point != null`: the variation has a move with a target point; passes do not. */
  predicate HasPoint(m: Option<Move>)
  {
    m.Some? && MovePoint(m.value).Some?
  }

  /** The variation's point, where it has one. */
  function PointOf(m: Option<Move>): (pt: XYPoint)
    ensures HasPoint(m) ==> Some(pt) == MovePoint(m.value)
  {
    if HasPoint(m) then MovePoint(m.value).value else XYPoint(0, 0)
  }

  /** The markup for the variation at `index`, at `pt`. */
  function VariationMark(index: nat, pt: XYPoint): (m: Markup)
    requires index < LabelLimit
    ensures m.kind == VARIATION && m.point == pt && m.target.None?
    ensures m.text == Some([Label(index)])
  {
    Markup(VARIATION, pt, None, Some([Label(index)]))
  }

  /** The row where variations without a move are placed first: `((numRows + 1) / 2).coerceAtLeast(1)`. */
  function MiddleRow(numRows: int): int
  {
    AtLeastOne(TruncDiv(numRows + 1, 2))
  }

  /** The spacing between variations without a move: `((numCols - 1) / (count + 1)).coerceAtLeast(1)`. */
  function Spacing(numCols: int, count: nat): int
  {
    AtLeastOne(TruncDiv(numCols - 1, count + 1))
  }

  /**
   * `m` is the markup of variation `i`: a variation mark labelled with the
   * variation's letter, at the move's point when it has one, and otherwise on
   * or below row `y0` and in a column of the board's numbering (from 1).
   */
  predicate Describes(m: Markup, vars: seq<Option<Move>>, i: nat, y0: int)
  {
    && i < |vars| && i < LabelLimit
    && m.kind == VARIATION && m.target.None? && m.text == Some([Label(i)])
    && (HasPoint(vars[i]) ==> m.point == PointOf(vars[i]))
    && (!HasPoint(vars[i]) ==> m.point.y >= y0 && m.point.x >= 1)
  }

  /** The indices below `n` of the variations that have a point (`withPoint`) or have none. */
  function Indices(vars: seq<Option<Move>>, n: nat, withPoint: bool): (r: seq<nat>)
    requires n <= |vars|
    ensures forall a :: 0 <= a < |r| ==> r[a] < n && HasPoint(vars[r[a]]) == withPoint
    ensures forall a, b :: 0 <= a < b < |r| ==> r[a] < r[b]
  {
    if n == 0 then []
    else Indices(vars, n - 1, withPoint) + (if HasPoint(vars[n - 1]) == withPoint then [n - 1] else [])
  }

  /** Every variation is either one with a point or one without. */
  lemma {:induction false} IndicesSplit(vars: seq<Option<Move>>, n: nat)
    requires n <= |vars|
    ensures |Indices(vars, n, true)| + |Indices(vars, n, false)| == n
  {
    if n > 0 {
      IndicesSplit(vars, n - 1);
    }
  }

  /**
   * No variation has a point exactly when none is listed with a point; then
   * the ones without a point are all of them, in order.
   */
  lemma {:induction false} IndicesNoPoint(vars: seq<Option<Move>>, n: nat)
    requires n <= |vars|
    ensures (forall i :: 0 <= i < n ==> !HasPoint(vars[i])) <==> Indices(vars, n, true) == []
    ensures Indices(vars, n, true) == [] ==>
              |Indices(vars, n, false)| == n && forall a :: 0 <= a < n ==> Indices(vars, n, false)[a] == a
  {
    if n > 0 {
      IndicesNoPoint(vars, n - 1);
      if HasPoint(vars[n - 1]) {
        assert Indices(vars, n, true) != [];
      } else {
        assert Indices(vars, n, true) == Indices(vars, n - 1, true);
      }
    }
  }

  /** The markup of the variations with a point, in variation order (the `filter` and `map`). */
  function MarkMoves(vars: seq<Option<Move>>, idxs: seq<nat>): (r: seq<Markup>)
    requires forall a :: 0 <= a < |idxs| ==> idxs[a] < |vars| && idxs[a] < LabelLimit && HasPoint(vars[idxs[a]])
    ensures |r| == |idxs|
    ensures forall a :: 0 <= a < |r| ==> r[a] == VariationMark(idxs[a], PointOf(vars[idxs[a]]))
  {
    if |idxs| == 0 then []
    else
      assert HasPoint(vars[idxs[0]]);
      [VariationMark(idxs[0], PointOf(vars[idxs[0]]))] + MarkMoves(vars, idxs[1..])
  }

  /** `find { it.point == XYPoint(x, y) } != null`: some markup is already at the point. */
  predicate Taken(ms: seq<Markup>, x: int, y: int)
  {
    exists m :: m in ms && m.point == XYPoint(x, y)
  }

  /** A row at or below every marked point. */
  function LowestRow(ms: seq<Markup>): (r: int)
    ensures forall m :: m in ms ==> m.point.y <= r
  {
    if |ms| == 0 then 0
    else var rest := LowestRow(ms[1..]);
      assert forall m :: m in ms ==> m == ms[0] || m in ms[1..];
      if ms[0].point.y > rest then ms[0].point.y else rest
  }

  /** The character that orders a one-letter label; markup without a label comes first. */
  function LabelCode(m: Markup): int
  {
    if m.text.Some? && |m.text.value| > 0 then m.text.value[0] as int else -1
  }

  predicate SortedByLabel(s: seq<Markup>)
  {
    forall i, j :: 0 <= i < j < |s| ==> LabelCode(s[i]) <= LabelCode(s[j])
  }

  predicate DistinctLabels(s: seq<Markup>)
  {
    forall i, j :: 0 <= i < j < |s| ==> LabelCode(s[i]) != LabelCode(s[j])
  }

  /** Inserts `m` before the first entry with a label not below its own. */
  function Insert(m: Markup, s: seq<Markup>): (r: seq<Markup>)
    ensures |r| == |s| + 1
    ensures multiset(r) == multiset(s) + multiset{m}
  {
    if |s| == 0 || LabelCode(m) <= LabelCode(s[0]) then [m] + s
    else
      assert s == [s[0]] + s[1..];
      [s[0]] + Insert(m, s[1..])
  }

  lemma {:induction false} InsertSorted(m: Markup, s: seq<Markup>)
    requires SortedByLabel(s)
    ensures SortedByLabel(Insert(m, s))
  {
    if |s| > 0 && LabelCode(m) > LabelCode(s[0]) {
      var t := Insert(m, s[1..]);
      InsertSorted(m, s[1..]);
      forall x | x in t
        ensures LabelCode(s[0]) <= LabelCode(x)
      {
        assert x in multiset(t);
        if x != m {
          assert x in multiset(s[1..]);
          var k :| 0 <= k < |s[1..]| && s[1..][k] == x;
          assert s[k + 1] == x;
        }
      }
      ConsSorted(s[0], t);
    }
  }

  lemma ConsSorted(m: Markup, t: seq<Markup>)
    requires SortedByLabel(t)
    requires forall x :: x in t ==> LabelCode(m) <= LabelCode(x)
    ensures SortedByLabel([m] + t)
  {
    var r := [m] + t;
    forall i, j | 0 <= i < j < |r|
      ensures LabelCode(r[i]) <= LabelCode(r[j])
    {
      assert r[j] == t[j - 1];
      if i > 0 {
        assert r[i] == t[i - 1];
      }
    }
  }

  /**
   * `sortBy { it.label }`: a stable sort by label. Kotlin compares the labels
   * as strings; every label this module creates is one character, and for
   * those that is the order of the characters.
   */
  function SortByLabel(s: seq<Markup>): (r: seq<Markup>)
    ensures |r| == |s|
    ensures multiset(r) == multiset(s)
    ensures SortedByLabel(r)
  {
    if |s| == 0 then []
    else
      assert s == [s[0]] + s[1..];
      var t := SortByLabel(s[1..]);
      InsertSorted(s[0], t);
      Insert(s[0], t)
  }

  lemma {:induction false} InsertDistinct(m: Markup, s: seq<Markup>)
    requires SortedByLabel(s) && DistinctLabels(s)
    requires forall x :: x in s ==> LabelCode(x) != LabelCode(m)
    ensures DistinctLabels(Insert(m, s))
  {
    if |s| > 0 && LabelCode(m) > LabelCode(s[0]) {
      InsertDistinct(m, s[1..]);
      var t := Insert(m, s[1..]);
      assert forall x :: x in t ==> LabelCode(x) != LabelCode(s[0]) by {
        forall x | x in t
          ensures LabelCode(x) != LabelCode(s[0])
        {
          assert x in multiset(t);
          if x != m {
            assert x in multiset(s[1..]);
            var k :| 0 <= k < |s[1..]| && s[1..][k] == x;
            assert s[k + 1] == x;
          }
        }
      }
      ConsDistinct(s[0], t);
    } else {
      ConsDistinct(m, s);
    }
  }

  lemma ConsDistinct(m: Markup, t: seq<Markup>)
    requires DistinctLabels(t)
    requires forall x :: x in t ==> LabelCode(x) != LabelCode(m)
    ensures DistinctLabels([m] + t)
  {
    var r := [m] + t;
    forall i, j | 0 <= i < j < |r|
      ensures LabelCode(r[i]) != LabelCode(r[j])
    {
      assert r[j] == t[j - 1];
      if i > 0 {
        assert r[i] == t[i - 1];
      }
    }
  }

  /** Sorting keeps distinct labels distinct. */
  lemma {:induction false} SortDistinct(s: seq<Markup>)
    requires DistinctLabels(s)
    ensures DistinctLabels(SortByLabel(s))
  {
    if |s| > 0 {
      SortDistinct(s[1..]);
      forall x | x in SortByLabel(s[1..])
        ensures LabelCode(x) != LabelCode(s[0])
      {
        assert x in multiset(SortByLabel(s[1..]));
        var k :| 0 <= k < |s[1..]| && s[1..][k] == x;
        assert s[k + 1] == x;
      }
      InsertDistinct(s[0], SortByLabel(s[1..]));
    }
  }

  /** Distinct sorted codes drawn from `lo .. lo + |r| - 1` are exactly those codes in order. */
  lemma {:induction false} CodesAreRange(r: seq<Markup>, lo: int)
    requires SortedByLabel(r) && DistinctLabels(r)
    requires forall i :: 0 <= i < |r| ==> lo <= LabelCode(r[i]) < lo + |r|
    ensures forall i :: 0 <= i < |r| ==> LabelCode(r[i]) == lo + i
  {
    if |r| > 0 {
      var n := |r|;
      var init := r[..n - 1];
      forall i | 0 <= i < n - 1
        ensures lo <= LabelCode(init[i]) < lo + n - 1
      {
        assert LabelCode(r[i]) < LabelCode(r[n - 1]);
      }
      CodesAreRange(init, lo);
      if n > 1 {
        assert LabelCode(r[n - 2]) == lo + n - 2;
        assert LabelCode(r[n - 2]) < LabelCode(r[n - 1]);
      }
    }
  }

  /**
   * The sorted markup: when the entries of `marked` carry the labels of
   * distinct variations (`order[a]` being the variation of entry `a`),
   * sorting by label puts the entry of variation `i` at position `i`.
   */
  lemma SortedMarks(marked: seq<Markup>, order: seq<nat>) returns (pos: seq<nat>)
    requires |marked| == |order|
    requires forall a :: 0 <= a < |marked| ==> order[a] < |marked| && LabelCode(marked[a]) == 65 + order[a]
    requires forall a, b :: 0 <= a < b < |order| ==> order[a] != order[b]
    ensures |SortByLabel(marked)| == |marked| == |pos|
    ensures forall i :: 0 <= i < |pos| ==>
              pos[i] < |marked| && order[pos[i]] == i && SortByLabel(marked)[i] == marked[pos[i]]
  {
    var r := SortByLabel(marked);
    SortedCodes(marked, order);
    pos := [];
    for i := 0 to |marked|
      invariant |pos| == i
      invariant forall i' :: 0 <= i' < i ==> pos[i'] < |marked| && order[pos[i']] == i' && r[i'] == marked[pos[i']]
    {
      assert r[i] in multiset(marked);
      var a :| 0 <= a < |marked| && marked[a] == r[i];
      assert LabelCode(r[i]) == 65 + i;
      pos := pos + [a];
    }
  }

  /** The sorted entries carry the codes 65, 66, ... in order. */
  lemma SortedCodes(marked: seq<Markup>, order: seq<nat>)
    requires |marked| == |order|
    requires forall a :: 0 <= a < |marked| ==> order[a] < |marked| && LabelCode(marked[a]) == 65 + order[a]
    requires forall a, b :: 0 <= a < b < |order| ==> order[a] != order[b]
    ensures forall i :: 0 <= i < |SortByLabel(marked)| ==> LabelCode(SortByLabel(marked)[i]) == 65 + i
  {
    var r := SortByLabel(marked);
    assert DistinctLabels(marked) by {
      forall a, b | 0 <= a < b < |marked|
        ensures LabelCode(marked[a]) != LabelCode(marked[b])
      {
        assert LabelCode(marked[a]) == 65 + order[a] && LabelCode(marked[b]) == 65 + order[b];
      }
    }
    SortDistinct(marked);
    forall i | 0 <= i < |r|
      ensures 65 <= LabelCode(r[i]) < 65 + |r|
    {
      assert r[i] in multiset(marked);
    }
    CodesAreRange(r, 65);
  }

  /**
   * The markup of a placed variation set, `order[a]` being the variation of
   * entry `a`: each entry describes its variation, and an entry of a variation
   * without a point shares its point with no other entry.
   */
  predicate Placed(marked: seq<Markup>, order: seq<nat>, vars: seq<Option<Move>>, y0: int)
  {
    && |marked| == |order|
    && (forall a :: 0 <= a < |marked| ==> Describes(marked[a], vars, order[a], y0))
    && (forall a, b :: 0 <= a < |marked| && 0 <= b < |marked| && a != b && !HasPoint(vars[order[a]]) ==>
          marked[a].point != marked[b].point)
  }

  /** The markups of variations with a point are placed. */
  lemma MovesPlaced(vars: seq<Option<Move>>, y0: int)
    requires |vars| <= LabelLimit
    ensures var moves := Indices(vars, |vars|, true);
            Placed(MarkMoves(vars, moves), moves, vars, y0)
  {
  }

  /** Marking a variation without a point at a free point keeps the markup placed. */
  lemma ExtendPlaced(marked: seq<Markup>, order: seq<nat>, vars: seq<Option<Move>>, y0: int, i: nat, x: int, y: int)
    requires Placed(marked, order, vars, y0)
    requires i < |vars| && i < LabelLimit && !HasPoint(vars[i])
    requires !Taken(marked, x, y) && y >= y0 && x >= 1
    ensures Placed(marked + [VariationMark(i, XYPoint(x, y))], order + [i], vars, y0)
  {
    var m := VariationMark(i, XYPoint(x, y));
    var marked', order' := marked + [m], order + [i];
    forall a, b | 0 <= a < |marked'| && 0 <= b < |marked'| && a != b && !HasPoint(vars[order'[a]])
      ensures marked'[a].point != marked'[b].point
    {
      if a == |marked| {
        assert marked[b] in marked;
      } else if b == |marked| {
        assert marked[a] in marked;
      }
    }
  }

  /** The marks are evenly spread: entry `a` is variation `a`, in column `(a + 1) * dx + 1` of row `y0`. */
  predicate Spread(marked: seq<Markup>, order: seq<nat>, dx: int, y0: int)
  {
    && |marked| == |order|
    && forall a :: 0 <= a < |marked| ==> order[a] == a && marked[a].point == XYPoint((a + 1) * dx + 1, y0)
  }

  /** Evenly spread marks leave the next spot of the spread free. */
  lemma SpreadFree(marked: seq<Markup>, order: seq<nat>, dx: int, y0: int)
    requires dx >= 1 && Spread(marked, order, dx, y0)
    ensures !Taken(marked, (|marked| + 1) * dx + 1, y0)
  {
    var k := |marked|;
    forall m | m in marked
      ensures m.point != XYPoint((k + 1) * dx + 1, y0)
    {
      var a :| 0 <= a < k && marked[a] == m;
      MulLess(a + 1, k + 1, dx);
    }
  }

  lemma ExtendSpread(marked: seq<Markup>, order: seq<nat>, dx: int, y0: int, m: Markup)
    requires Spread(marked, order, dx, y0)
    requires m.point == XYPoint((|marked| + 1) * dx + 1, y0)
    ensures Spread(marked + [m], order + [|marked|], dx, y0)
  {
  }

  /** Sorting placed markup that covers every variation puts variation `i`'s markup at position `i`. */
  lemma SortedPlaced(marked: seq<Markup>, order: seq<nat>, vars: seq<Option<Move>>, y0: int)
    requires Placed(marked, order, vars, y0) && |marked| == |vars|
    requires forall a, b :: 0 <= a < b < |order| ==> order[a] != order[b]
    ensures var r := SortByLabel(marked);
            && |r| == |vars|
            && (forall i :: 0 <= i < |r| ==> Describes(r[i], vars, i, y0))
            && (forall i, j :: 0 <= i < |r| && 0 <= j < |r| && i != j && !HasPoint(vars[i]) ==> r[i].point != r[j].point)
  {
    forall a | 0 <= a < |marked|
      ensures order[a] < |marked| && LabelCode(marked[a]) == 65 + order[a]
    {
      assert Describes(marked[a], vars, order[a], y0);
    }
    var pos := SortedMarks(marked, order);
    var r := SortByLabel(marked);
    forall i | 0 <= i < |r|
      ensures Describes(r[i], vars, i, y0)
    {
      assert Describes(marked[pos[i]], vars, order[pos[i]], y0);
    }
    forall i, j | 0 <= i < |r| && 0 <= j < |r| && i != j && !HasPoint(vars[i])
      ensures r[i].point != r[j].point
    {
      assert r[i] == marked[pos[i]] && r[j] == marked[pos[j]] && order[pos[i]] == i;
    }
  }

  /** Sorting evenly spread markup leaves it in place. */
  lemma SortedSpread(marked: seq<Markup>, order: seq<nat>, dx: int, y0: int)
    requires Spread(marked, order, dx, y0)
    requires forall a :: 0 <= a < |marked| ==> LabelCode(marked[a]) == 65 + a
    ensures var r := SortByLabel(marked);
            |r| == |marked| && forall i :: 0 <= i < |r| ==> r[i].point == XYPoint((i + 1) * dx + 1, y0)
  {
    var pos := SortedMarks(marked, order);
  }

  lemma SliceStep(s: seq<nat>, k: nat)
    requires k <= |s|
    ensures k < |s| ==> s[..k + 1] == s[..k] + [s[k]]
    ensures s[..|s|] == s
  {
  }

  lemma {:induction false} MulLess(p: int, q: int, d: nat)
    requires p < q && d >= 1
    ensures p * d < q * d
    decreases d
  {
    if d > 1 {
      MulLess(p, q, d - 1);
      assert p * d == p * (d - 1) + p;
      assert q * d == q * (d - 1) + q;
    }
  }

  /** The variations with a point followed by those without list every variation once. */
  lemma JoinDistinct(vars: seq<Option<Move>>, n: nat)
    requires n <= |vars|
    ensures var order := Indices(vars, n, true) + Indices(vars, n, false);
            forall a, b :: 0 <= a < b < |order| ==> order[a] != order[b]
  {
    var moves, noMove := Indices(vars, n, true), Indices(vars, n, false);
    var order := moves + noMove;
    forall a, b | 0 <= a < b < |order|
      ensures order[a] != order[b]
    {
      if a >= |moves| {
        assert order[a] == noMove[a - |moves|] && order[b] == noMove[b - |moves|];
      } else if b >= |moves| {
        assert HasPoint(vars[order[a]]) && !HasPoint(vars[order[b]]);
      }
    }
  }

  /**
   * The `while` loop of `markupVariations`: from column `start + 1` of row
   * `y0`, moves right past marked points, and past the last column back to
   * column `start` of the next row, until the point is free. It stays within
   * the board's columns unless `start` is already beyond them.
   */
  method FindFree(marked: seq<Markup>, start: int, y0: int, numCols: int) returns (x: int, y: int)
    ensures !Taken(marked, x, y)
    ensures y >= y0 && start <= x <= (if start + 1 > numCols then start + 1 else numCols)
    ensures !Taken(marked, start + 1, y0) ==> x == start + 1 && y == y0
  {
    x, y := start + 1, y0;
    ghost var bottom := LowestRow(marked);
    ghost var right := if start + 1 > numCols then start + 1 else numCols;
    while Taken(marked, x, y)
      invariant y >= y0 && start <= x <= right
      invariant !Taken(marked, start + 1, y0) ==> x == start + 1 && y == y0
      decreases bottom - y, right - x
    {
      x := x + 1;
      if x > numCols {
        x := start;
        y := y + 1;
      }
    }
  }

  /**
   * The `forEachIndexed` over the variations without a move: the `k`-th is
   * placed at the first free point from column `(k + 1) * dx + 1` of the
   * current row, the row carrying over from one variation to the next.
   */
  method MarkNoMoves(vars: seq<Option<Move>>, noMove: seq<nat>, y0: int, dx: int, numCols: int,
                     marked0: seq<Markup>, ghost order0: seq<nat>)
    returns (marked: seq<Markup>, ghost order: seq<nat>)
    requires dx >= 1 && Placed(marked0, order0, vars, y0)
    requires forall k :: 0 <= k < |noMove| ==> noMove[k] < |vars| && noMove[k] < LabelLimit && !HasPoint(vars[noMove[k]])
    ensures order == order0 + noMove && Placed(marked, order, vars, y0)
    ensures |marked0| == 0 && (forall k :: 0 <= k < |noMove| ==> noMove[k] == k) ==> Spread(marked, order, dx, y0)
  {
    marked, order := marked0, order0;
    ghost var evenly := |marked0| == 0 && (forall k :: 0 <= k < |noMove| ==> noMove[k] == k);
    var y := y0;
    for k := 0 to |noMove|
      invariant order == order0 + noMove[..k]
      invariant y >= y0
      invariant Placed(marked, order, vars, y0)
      invariant evenly ==> y == y0 && Spread(marked, order, dx, y0) && |marked| == k
    {
      var start := (k + 1) * dx;
      MulLess(0, k + 1, dx);
      if evenly {
        SpreadFree(marked, order, dx, y0);
      }
      var x;
      x, y := FindFree(marked, start, y, numCols);
      ExtendPlaced(marked, order, vars, y0, noMove[k], x, y);
      if evenly {
        ExtendSpread(marked, order, dx, y0, VariationMark(noMove[k], XYPoint(x, y)));
      }
      marked := marked + [VariationMark(noMove[k], XYPoint(x, y))];
      order := order + [noMove[k]];
      SliceStep(noMove, k);
    }
    SliceStep(noMove, |noMove|);
  }

  /** The markup of every variation, placed, sorts into the markup `markupVariations` promises. */
  lemma SortedVariations(vars: seq<Option<Move>>, numRows: int, numCols: int, marked: seq<Markup>, order: seq<nat>)
    requires order == Indices(vars, |vars|, true) + Indices(vars, |vars|, false)
    requires Placed(marked, order, vars, MiddleRow(numRows))
    requires Indices(vars, |vars|, true) == [] ==>
               Spread(marked, order, Spacing(numCols, |Indices(vars, |vars|, false)|), MiddleRow(numRows))
    ensures var r := SortByLabel(marked);
            && |r| == |vars|
            && (forall i :: 0 <= i < |r| ==> Describes(r[i], vars, i, MiddleRow(numRows)))
            && (forall i, j :: 0 <= i < |r| && 0 <= j < |r| && i != j && !HasPoint(vars[i]) ==>
                  r[i].point != r[j].point)
            && ((forall i :: 0 <= i < |vars| ==> !HasPoint(vars[i])) ==>
                  forall i :: 0 <= i < |r| ==>
                    r[i].point == XYPoint((i + 1) * Spacing(numCols, |vars|) + 1, MiddleRow(numRows)))
  {
    var y0 := MiddleRow(numRows);
    IndicesSplit(vars, |vars|);
    JoinDistinct(vars, |vars|);
    IndicesNoPoint(vars, |vars|);
    SortedPlaced(marked, order, vars, y0);
    if Indices(vars, |vars|, true) == [] {
      forall a | 0 <= a < |marked|
        ensures LabelCode(marked[a]) == 65 + a
      {
        assert Describes(marked[a], vars, order[a], y0);
      }
      SortedSpread(marked, order, Spacing(numCols, |vars|), y0);
    }
  }

  /**
   * `markupVariations`, on the board size the state holds. Every variation
   * gets its letter, in label order; one with a point is marked there; one
   * without is placed on or below the middle row at a point no other variation
   * is marked at. When no variation has a point, they are spread evenly along
   * the middle row.
   */
  method MarkupVariations(numRows: int, numCols: int, variations: seq<Option<Move>>) returns (r: seq<Markup>)
    requires |variations| <= LabelLimit
    ensures |r| == |variations|
    ensures forall i :: 0 <= i < |r| ==> Describes(r[i], variations, i, MiddleRow(numRows))
    ensures forall i, j :: 0 <= i < |r| && 0 <= j < |r| && i != j && !HasPoint(variations[i]) ==>
              r[i].point != r[j].point
    ensures (forall i :: 0 <= i < |variations| ==> !HasPoint(variations[i])) ==>
              forall i :: 0 <= i < |r| ==>
                r[i].point == XYPoint((i + 1) * Spacing(numCols, |variations|) + 1, MiddleRow(numRows))
  {
    var moves := Indices(variations, |variations|, true);
    var noMove := Indices(variations, |variations|, false);
    IndicesNoPoint(variations, |variations|);
    MovesPlaced(variations, MiddleRow(numRows));
    var marked := MarkMoves(variations, moves);
    ghost var order;
    marked, order := MarkNoMoves(variations, noMove, MiddleRow(numRows), Spacing(numCols, |noMove|), numCols,
                                 marked, moves);
    SortedVariations(variations, numRows, numCols, marked, order);
    r := SortByLabel(marked);
  }
}
