/**
 * `SgfNavigator`: a cursor over one game tree. It moves forward and back
 * along the node sequences, descends into the first variation and ascends
 * to the parent, follows or creates variations for the moves the user
 * plays, and reports its position as the list of child indices from the
 * root, which it can walk back down.
 *
 * The trees live in an arena (`SgfTree.TreeRec`); a tree is its arena index.
 * Every operation is a function on `Cursor`, the navigator's fields as one
 * value; the class `SgfNavigator` at the end holds the fields and its
 * methods are proved to have the effect of those functions.
 */
module Navigator {
  import opened Wrappers
  import opened SgfTree

  /** The navigator's fields: the arena, `currentTree`, `currentNodeIndex` and `userBranch`. */
  datatype Cursor = Cursor(trees: seq<TreeRec>, tree: Option<nat>, index: int, userBranch: bool)

  // ------------------------------------------------------------- Kotlin list helpers

  /** `getOrNull`. */
  function GetOrNull<T>(s: seq<T>, i: int): (r: Option<T>)
    ensures r.Some? <==> 0 <= i < |s|
    ensures r.Some? ==> r.value == s[i]
  {
    if 0 <= i < |s| then Some(s[i]) else None
  }

  /** `take`: the first `n` elements, or all of them. */
  function Take<T>(s: seq<T>, n: nat): (r: seq<T>)
    ensures |r| == if n < |s| then n else |s|
    ensures r == s[..|r|]
  {
    if n < |s| then s[..n] else s
  }

  /** `drop`: all but the first `n` elements. */
  function Drop<T>(s: seq<T>, n: nat): (r: seq<T>)
    ensures Take(s, n) + r == s
  {
    if n < |s| then s[n..] else []
  }

  // ------------------------------------------------------------- the shape the navigator keeps

  /**
   * Tree `t` hangs below the root by parent links that its ancestors'
   * children lists confirm, and every tree on the way lies at or after
   * `base`, where the arena is well formed.
   */
  ghost predicate Chain(a: seq<TreeRec>, base: nat, t: nat)
    decreases t
  {
    && base <= t < |a|
    && (a[t].parent.Some? ==>
          var p := a[t].parent.value;
          p < t && t in a[p].children && Chain(a, base, p))
  }

  /** The root the chain of `t` ends in. */
  ghost function RootOf(a: seq<TreeRec>, base: nat, t: nat): (r: nat)
    requires Chain(a, base, t)
    ensures Chain(a, base, r) && a[r].parent.None?
    decreases t
  {
    match a[t].parent
    case None => t
    case Some(p) => RootOf(a, base, p)
  }

  /**
   * While branching, the cursor is in the user's tree `u`, which has no
   * children; when `u` has a parent, it is that parent's first child and a
   * second child (the rest of the split sequence) follows it.
   */
  ghost predicate BranchShape(a: seq<TreeRec>, u: nat, index: int)
  {
    && u < |a| && a[u].children == [] && 0 <= index < |a[u].nodes|
    && (a[u].parent.Some? ==>
          var t := a[u].parent.value;
          t < |a| && |a[t].children| >= 2 && a[t].children[0] == u)
  }

  /** The navigator's invariant. */
  ghost predicate NavOk(n: Cursor, base: nat)
  {
    && WellFormedFrom(n.trees, base)
    && base <= |n.trees|
    && (n.tree.Some? ==> Chain(n.trees, base, n.tree.value))
    && n.index >= -1
    && (n.userBranch ==> n.tree.Some? && BranchShape(n.trees, n.tree.value, n.index))
  }

  /** The records keep their parent links. */
  ghost predicate ParentsKept(a: seq<TreeRec>, b: seq<TreeRec>)
  {
    |b| >= |a| && forall s :: 0 <= s < |a| ==> b[s].parent == a[s].parent
  }

  lemma {:induction false} ChainFrame(a: seq<TreeRec>, b: seq<TreeRec>, base: nat, t: nat)
    requires Chain(a, base, t) && ParentsKept(a, b)
    requires forall s :: base <= s < t ==> b[s].children == a[s].children
    ensures Chain(b, base, t)
    decreases t
  {
    if a[t].parent.Some? {
      ChainFrame(a, b, base, a[t].parent.value);
    }
  }

  lemma LinksKept(a: seq<TreeRec>, b: seq<TreeRec>, s: nat)
    requires s < |a| && LinksOk(a, s) && ParentsKept(a, b) && b[s].children == a[s].children
    ensures LinksOk(b, s)
  {
    forall j | 0 <= j < |b[s].children|
      ensures b[b[s].children[j]].parent == Some(s)
    {
      var c := a[s].children[j];
      assert a[c].parent == Some(s);
    }
  }

  /** The nodes of the current tree, none without one. */
  function NodesOf(a: seq<TreeRec>, tree: Option<nat>): seq<Node>
    requires tree.Some? ==> tree.value < |a|
  {
    if tree.Some? then a[tree.value].nodes else []
  }

  /** The children of the current tree, none without one. */
  function ChildrenOf(a: seq<TreeRec>, tree: Option<nat>): seq<nat>
    requires tree.Some? ==> tree.value < |a|
  {
    if tree.Some? then a[tree.value].children else []
  }

  /** The children of a tree on a chain are arena indices after it. */
  lemma ChildrenAfter(n: Cursor, base: nat)
    requires NavOk(n, base)
    ensures n.tree.Some? ==> var t := n.tree.value;
      forall j :: 0 <= j < |n.trees[t].children| ==>
        t < n.trees[t].children[j] < |n.trees| && Chain(n.trees, base, n.trees[t].children[j])
  {
    if n.tree.Some? {
      var a, t := n.trees, n.tree.value;
      assert LinksOk(a, t);
      forall j | 0 <= j < |a[t].children|
        ensures t < a[t].children[j] < |a| && Chain(a, base, a[t].children[j])
      {
        assert a[a[t].children[j]].parent == Some(t);
      }
    }
  }

  /** The parent of a tree on a chain is on the chain, before it, and lists it as a child. */
  lemma UpChain(a: seq<TreeRec>, base: nat, t: nat)
    requires Chain(a, base, t) && a[t].parent.Some?
    ensures var p := a[t].parent.value; base <= p < t && t in a[p].children && Chain(a, base, p)
  {
  }

  // ------------------------------------------------------------- moving along the tree

  /**
   * `nextNode`: the next node of the sequence, or the first node of the
   * first variation, or nothing (and no move) at the end of the tree.
   */
  function Next(n: Cursor, ghost base: nat): (r: (Cursor, Option<Node>))
    requires NavOk(n, base)
  {
    var a := n.trees;
    match GetOrNull(NodesOf(a, n.tree), n.index + 1)
    case Some(node) => (n.(index := n.index + 1), Some(node))
    case None =>
      ChildrenAfter(n, base);
      match GetOrNull(ChildrenOf(a, n.tree), 0)
      case Some(c) => (n.(tree := Some(c), index := 0), GetOrNull(a[c].nodes, 0))
      case None => (n, None)
  }

  /** `nextNode` advances within the sequence, else descends to child 0 at index 0, else changes nothing. */
  lemma NextSteps(n: Cursor, base: nat)
    requires NavOk(n, base)
    ensures NavOk(Next(n, base).0, base)
    ensures var (r, node) := Next(n, base);
      var nodes := NodesOf(n.trees, n.tree);
      var cs := ChildrenOf(n.trees, n.tree);
      && r.trees == n.trees && r.userBranch == n.userBranch
      && (n.index + 1 < |nodes| ==> r == n.(index := n.index + 1) && node == Some(nodes[n.index + 1]))
      && (n.index + 1 >= |nodes| && cs != [] ==>
            r == n.(tree := Some(cs[0]), index := 0) && n.trees[cs[0]].parent == n.tree)
      && (n.index + 1 >= |nodes| && cs == [] ==> r == n && node.None?)
  {
    if n.tree.Some? {
      ChildrenAfter(n, base);
      assert LinksOk(n.trees, n.tree.value);
    }
  }

  /** `deleteUserBranch`: the rest of the split sequence goes back, and the two branch trees are dropped. */
  function Unbranch(a: seq<TreeRec>, t: nat): (r: seq<TreeRec>)
    requires t < |a| && |a[t].children| >= 2 && a[t].children[1] < |a|
    ensures |r| == |a|
  {
    var rest := a[a[t].children[1]];
    a[t := a[t].(nodes := a[t].nodes + rest.nodes, children := a[t].children[2..])]
  }

  /**
   * `previousNode`: the previous node of the sequence, or the last node of
   * the parent tree, deleting the user branch when it is left; nothing (and
   * no move) at the root node.
   */
  function Previous(n: Cursor, ghost base: nat): (r: (Cursor, Option<Node>))
    requires NavOk(n, base)
  {
    var a := n.trees;
    match GetOrNull(NodesOf(a, n.tree), n.index - 1)
    case Some(node) => (n.(index := n.index - 1), Some(node))
    case None =>
      if n.tree.Some? && a[n.tree.value].parent.Some? then
        var p := a[n.tree.value].parent.value;
        var last := |a[p].nodes| - 1;
        if n.userBranch then
          UpChain(a, base, n.tree.value);
          assert LinksOk(a, p);
          var b := Unbranch(a, p);
          (Cursor(b, Some(p), last, false), GetOrNull(b[p].nodes, last))
        else (n.(tree := Some(p), index := last), GetOrNull(a[p].nodes, last))
      else (n, None)
  }

  /** `previousNode` steps back, else ascends to the parent at its last index, else changes nothing. */
  lemma PreviousSteps(n: Cursor, base: nat)
    requires NavOk(n, base)
    ensures NavOk(Previous(n, base).0, base)
    ensures var (r, node) := Previous(n, base);
      var a := n.trees;
      var nodes := NodesOf(a, n.tree);
      && (0 <= n.index - 1 < |nodes| ==> r == n.(index := n.index - 1) && node == Some(nodes[n.index - 1]))
      && (!(0 <= n.index - 1 < |nodes|) && n.tree.Some? && a[n.tree.value].parent.Some? ==>
            var p := a[n.tree.value].parent.value;
            r.tree == Some(p) && r.index == |a[p].nodes| - 1 && !r.userBranch
            && (!n.userBranch ==> r.trees == a))
      && (!(0 <= n.index - 1 < |nodes|) && (n.tree.None? || a[n.tree.value].parent.None?) ==> r == n && node.None?)
  {
    var a := n.trees;
    if !(0 <= n.index - 1 < |NodesOf(a, n.tree)|) && n.tree.Some? && a[n.tree.value].parent.Some? {
      var p := a[n.tree.value].parent.value;
      UpChain(a, base, n.tree.value);
      if n.userBranch {
        assert LinksOk(a, p);
        UnbranchOk(a, base, p);
      }
    }
  }

  /** Deleting the branch keeps the arena well formed and the chain of the tree it was made in. */
  lemma UnbranchOk(a: seq<TreeRec>, base: nat, t: nat)
    requires WellFormedFrom(a, base) && Chain(a, base, t) && |a[t].children| >= 2
    ensures a[t].children[1] < |a|
    ensures WellFormedFrom(Unbranch(a, t), base) && Chain(Unbranch(a, t), base, t)
  {
    assert LinksOk(a, t);
    var b := Unbranch(a, t);
    assert ParentsKept(a, b);
    forall s | base <= s < |b|
      ensures LinksOk(b, s) && (b[s].parent.Some? ==> b[s].parent.value < s)
    {
      assert LinksOk(a, s);
      if s == t {
        forall j | 0 <= j < |b[t].children|
          ensures t < b[t].children[j] < |b| && b[b[t].children[j]].parent == Some(t)
        {
          assert b[t].children[j] == a[t].children[j + 2];
        }
        forall j, k | 0 <= j < k < |b[t].children|
          ensures b[t].children[j] != b[t].children[k]
        {
          assert b[t].children[j] == a[t].children[j + 2] && b[t].children[k] == a[t].children[k + 2];
        }
      } else {
        LinksKept(a, b, s);
      }
    }
    ChainFrame(a, b, base, t);
  }

  /**
   * Redo undoes undo within a sequence, and undo undoes redo wherever redo
   * moved the cursor, outside a user branch or inside it.
   */
  lemma NextThenPrevious(n: Cursor, base: nat)
    requires NavOk(n, base) && n.tree.Some? && 0 <= n.index < |n.trees[n.tree.value].nodes|
    requires Next(n, base).0 != n
    ensures NavOk(Next(n, base).0, base)
    ensures Previous(Next(n, base).0, base) == (n, Some(n.trees[n.tree.value].nodes[n.index]))
  {
    NextSteps(n, base);
    var a, t := n.trees, n.tree.value;
    if n.index + 1 >= |a[t].nodes| {
      var c := a[t].children[0];
      ChildrenAfter(n, base);
      assert a[c].parent == Some(t) by { assert LinksOk(a, t); }
    }
  }

  /**
   * Undo at the first node of a variation goes to the parent's last node,
   * and redo from there always enters the parent's first variation.
   */
  lemma PreviousThenNextIsMainLine(n: Cursor, base: nat)
    requires NavOk(n, base) && !n.userBranch && n.tree.Some? && n.index == 0
    requires n.trees[n.tree.value].parent.Some?
    ensures NavOk(Previous(n, base).0, base)
    ensures var p := n.trees[n.tree.value].parent.value;
      Next(Previous(n, base).0, base).0 == n.(tree := Some(n.trees[p].children[0]), index := 0)
  {
    PreviousSteps(n, base);
    var t := n.tree.value;
    var p := n.trees[t].parent.value;
    assert t in n.trees[p].children;
    NextSteps(Previous(n, base).0, base);
  }

  // ------------------------------------------------------------- the user's moves

  /** The first node of tree `c` holds `move` (`nodes.getOrNull(0)?.contains(move) == true`). */
  predicate StartsWith(a: seq<TreeRec>, c: nat, move: Property)
  {
    c < |a| && a[c].nodes != [] && move in a[c].nodes[0]
  }

  /** `find { it.nodes.getOrNull(0)?.contains(move) == true }` over child trees: the first such child. */
  function FindChild(a: seq<TreeRec>, cs: seq<nat>, move: Property): (r: Option<nat>)
    ensures r.Some? <==> exists k :: 0 <= k < |cs| && StartsWith(a, cs[k], move)
    ensures r.Some? ==> exists k :: (0 <= k < |cs| && cs[k] == r.value && StartsWith(a, cs[k], move)
      && forall j :: 0 <= j < k ==> !StartsWith(a, cs[j], move))
  {
    if |cs| == 0 then None
    else if StartsWith(a, cs[0], move) then
      assert cs[0] == cs[0];
      Some(cs[0])
    else
      var r := FindChild(a, cs[1..], move);
      assert forall k :: 0 < k < |cs| ==> cs[k] == cs[1..][k - 1];
      if r.Some? then
        var k :| 0 <= k < |cs[1..]| && cs[1..][k] == r.value && StartsWith(a, cs[1..][k], move)
          && forall j :: 0 <= j < k ==> !StartsWith(a, cs[1..][j], move);
        assert cs[k + 1] == r.value;
        r
      else r
  }

  /**
   * `createUserBranch`: the current sequence is cut after the cursor; the
   * user's tree, holding the single node `[move]`, becomes the first
   * variation and the rest of the sequence the second; the cursor enters
   * the user's tree.
   */
  function Branch(n: Cursor, move: Property): (r: Cursor)
    requires n.index >= -1 && (n.tree.Some? ==> n.tree.value < |n.trees|)
  {
    var a := n.trees;
    var u := |a|;
    var user := TreeRec(n.tree, [[move]], []);
    match n.tree
    case None => Cursor(a + [user], Some(u), 0, true)
    case Some(t) =>
      var rest := TreeRec(Some(t), Drop(a[t].nodes, n.index + 1), []);
      var cut := a[t].(nodes := Take(a[t].nodes, n.index + 1), children := [u, u + 1] + a[t].children);
      Cursor(a[t := cut] + [user, rest], Some(u), 0, true)
  }

  /**
   * Creating a user branch keeps the invariant. The sequence keeps nodes
   * 0..index, child 0 holds the single node `[move]`, child 1 the rest of
   * the sequence, the old children follow shifted by two, and every other
   * tree is unchanged.
   */
  lemma BranchShapes(n: Cursor, base: nat, move: Property)
    requires NavOk(n, base)
    ensures NavOk(Branch(n, move), base)
    ensures var r := Branch(n, move);
      var a := n.trees;
      && r.userBranch && r.index == 0 && r.tree == Some(|a|) && |r.trees| == |a| + (if n.tree.Some? then 2 else 1)
      && r.trees[|a|].nodes == [[move]] && r.trees[|a|].parent == n.tree
      && (forall s :: 0 <= s < |a| && Some(s) != n.tree ==> r.trees[s] == a[s])
      && (n.tree.Some? ==>
            var t := n.tree.value;
            && r.trees[t].nodes == Take(a[t].nodes, n.index + 1)
            && r.trees[t].children == [|a|, |a| + 1] + a[t].children
            && r.trees[|a| + 1].nodes == Drop(a[t].nodes, n.index + 1)
            && r.trees[t].nodes + r.trees[|a| + 1].nodes == a[t].nodes)
  {
    BranchWellFormed(n, base, move);
    if n.tree.Some? {
      ChainFrame(n.trees, Branch(n, move).trees, base, n.tree.value);
    }
  }

  /** Creating a user branch keeps every tree's links consistent. */
  lemma BranchWellFormed(n: Cursor, base: nat, move: Property)
    requires NavOk(n, base)
    ensures WellFormedFrom(Branch(n, move).trees, base) && ParentsKept(n.trees, Branch(n, move).trees)
  {
    var a := n.trees;
    var b := Branch(n, move).trees;
    assert ParentsKept(a, b);
    forall s | base <= s < |b|
      ensures LinksOk(b, s) && (b[s].parent.Some? ==> b[s].parent.value < s)
    {
      if Some(s) == n.tree {
        CutLinks(n, base, move);
      } else if s < |a| {
        assert LinksOk(a, s);
        LinksKept(a, b, s);
      }
    }
  }

  /** The cut tree lists the user's tree, the rest of the sequence, then its old children. */
  lemma CutLinks(n: Cursor, base: nat, move: Property)
    requires NavOk(n, base) && n.tree.Some?
    ensures LinksOk(Branch(n, move).trees, n.tree.value)
  {
    var a, t := n.trees, n.tree.value;
    var b := Branch(n, move).trees;
    assert LinksOk(a, t);
    forall j | 0 <= j < |b[t].children|
      ensures t < b[t].children[j] < |b| && b[b[t].children[j]].parent == Some(t)
    {
      if j >= 2 {
        assert b[t].children[j] == a[t].children[j - 2];
      }
    }
    forall j, k | 0 <= j < k < |b[t].children|
      ensures b[t].children[j] != b[t].children[k]
    {
      if j >= 2 {
        assert b[t].children[j] == a[t].children[j - 2] && b[t].children[k] == a[t].children[k - 2];
      } else if k >= 2 {
        assert b[t].children[k] == a[t].children[k - 2];
      }
    }
  }

  /** `addToUserBranch`: the user's tree is cut after the cursor and the move is appended as its next node. */
  function Extend(n: Cursor, move: Property): (r: Cursor)
    requires n.index >= -1 && (n.tree.Some? ==> n.tree.value < |n.trees|)
  {
    match n.tree
    case None => n.(index := n.index + 1)
    case Some(u) =>
      var a := n.trees;
      n.(trees := a[u := a[u].(nodes := Take(a[u].nodes, n.index + 1) + [[move]])], index := n.index + 1)
  }

  /** While branching, a move cuts the user's tree after the cursor, appends the move and moves onto it. */
  lemma ExtendTruncates(n: Cursor, base: nat, move: Property)
    requires NavOk(n, base) && n.userBranch
    ensures NavOk(Extend(n, move), base)
    ensures var r := Extend(n, move);
      var u := n.tree.value;
      && r.tree == n.tree && r.userBranch && r.index == n.index + 1
      && r.trees[u].nodes == n.trees[u].nodes[..n.index + 1] + [[move]]
      && r.trees[u].nodes[r.index] == [move]
      && (forall s :: 0 <= s < |n.trees| && s != u ==> r.trees[s] == n.trees[s])
  {
    var a := n.trees;
    var u := n.tree.value;
    var b := Extend(n, move).trees;
    assert ParentsKept(a, b);
    forall s | base <= s < |b|
      ensures LinksOk(b, s) && (b[s].parent.Some? ==> b[s].parent.value < s)
    {
      assert LinksOk(a, s);
      LinksKept(a, b, s);
    }
    ChainFrame(a, b, base, u);
  }

  /**
   * `makeMove`: outside a user branch, the cursor follows the move into the
   * next node; else into the variation asked for, if it exists (and stays
   * otherwise); else, at the last node, into the first variation starting
   * with the move; else the user branches off. Inside a user branch the
   * move extends it. The result is the node the cursor is on.
   */
  function Play(n: Cursor, move: Property, variation: Option<int>, ghost base: nat): (r: (Cursor, Option<Node>))
    requires NavOk(n, base)
  {
    var r :=
      if n.userBranch then Extend(n, move)
      else
        var next := GetOrNull(NodesOf(n.trees, n.tree), n.index + 1);
        if next.Some? && move in next.value then n.(index := n.index + 1)
        else Leave(n, move, variation, base);
    (r, GetOrNull(NodesOf(r.trees, r.tree), r.index))
  }

  /** `makeMove` off the main line: the chosen variation, a child that starts with the move, or a new user branch. */
  function Leave(n: Cursor, move: Property, variation: Option<int>, ghost base: nat): (r: Cursor)
    requires NavOk(n, base) && !n.userBranch
    ensures NavOk(r, base)
  {
    var a := n.trees;
    ChildrenAfter(n, base);
    BranchShapes(n, base, move);
    if variation.Some? then
      match GetOrNull(ChildrenOf(a, n.tree), variation.value)
      case Some(c) => n.(tree := Some(c), index := 0)
      case None => n
    else if n.tree.Some? && n.index == |a[n.tree.value].nodes| - 1 then
      match FindChild(a, a[n.tree.value].children, move)
      case Some(c) => n.(tree := Some(c), index := 0)
      case None => Branch(n, move)
    else Branch(n, move)
  }

  /** `makeMove` keeps the invariant. */
  lemma PlayOk(n: Cursor, move: Property, variation: Option<int>, base: nat)
    requires NavOk(n, base)
    ensures NavOk(Play(n, move, variation, base).0, base)
  {
    if n.userBranch {
      ExtendTruncates(n, base, move);
    } else {
      BranchShapes(n, base, move);
      if n.tree.Some? {
        ChildrenAfter(n, base);
      }
    }
  }

  /**
   * The three ways `makeMove` follows the tree: the next node holds the
   * move; a variation number picks an existing child (a missing one changes
   * nothing, and no branch is created); at the last node, the first child
   * whose first node holds the move. Otherwise the user branches off.
   */
  lemma PlayFollows(n: Cursor, move: Property, variation: Option<int>, base: nat)
    requires NavOk(n, base) && !n.userBranch
    ensures var r := Play(n, move, variation, base).0;
      var a := n.trees;
      var nodes := NodesOf(a, n.tree);
      var cs := ChildrenOf(a, n.tree);
      && (0 <= n.index + 1 < |nodes| && move in nodes[n.index + 1] ==> r == n.(index := n.index + 1))
      && (!(0 <= n.index + 1 < |nodes| && move in nodes[n.index + 1]) && variation.Some? ==>
            && (0 <= variation.value < |cs| ==> r == n.(tree := Some(cs[variation.value]), index := 0))
            && (!(0 <= variation.value < |cs|) ==> r == n))
      && (!(0 <= n.index + 1 < |nodes| && move in nodes[n.index + 1]) && variation.None? ==>
            if n.tree.Some? && n.index == |nodes| - 1 && FindChild(a, cs, move).Some? then
              r == n.(tree := FindChild(a, cs, move), index := 0)
            else r == Branch(n, move))
  {
  }

  /**
   * Branching off and undoing the move restores the tree: the sequence and
   * the children of the tree the branch was made in, and every other tree
   * of the arena; the cursor is back where it was and the node it shows is
   * the one it showed.
   */
  lemma BranchRoundTrip(n: Cursor, base: nat, move: Property)
    requires NavOk(n, base) && !n.userBranch && n.tree.Some?
    requires n.index < |n.trees[n.tree.value].nodes|
    ensures NavOk(Branch(n, move), base)
    ensures var (r, node) := Previous(Branch(n, move), base);
      && r.trees[..|n.trees|] == n.trees
      && r == n.(trees := r.trees)
      && node == GetOrNull(n.trees[n.tree.value].nodes, n.index)
  {
    BranchShapes(n, base, move);
    var a, t := n.trees, n.tree.value;
    var b := Branch(n, move).trees;
    var c := Unbranch(b, t);
    assert c[t].nodes == a[t].nodes;
    assert c[t].children == a[t].children;
    assert c[t] == a[t];
    assert c[..|a|] == a;
  }

  // ------------------------------------------------------------- variations

  /** `find { it is SgfProperty.B || it is SgfProperty.W }?.value as? SgfType.Move`. */
  function FirstMove(node: Node): (r: Option<Move>)
    ensures r.Some? ==> exists i :: (0 <= i < |node| && node[i].Prop? && (node[i].id.IdB? || node[i].id.IdW?)
      && node[i].value == MoveValue(r.value)
      && forall j :: 0 <= j < i ==> !(node[j].Prop? && (node[j].id.IdB? || node[j].id.IdW?)))
    ensures (forall i :: 0 <= i < |node| ==> !(node[i].Prop? && (node[i].id.IdB? || node[i].id.IdW?))) ==> r.None?
  {
    if |node| == 0 then None
    else if node[0].Prop? && (node[0].id.IdB? || node[0].id.IdW?) then
      (if node[0].value.MoveValue? then Some(node[0].value.move) else None)
    else
      var r := FirstMove(node[1..]);
      if r.Some? then
        var i :| 0 <= i < |node[1..]| && node[1..][i].Prop? && (node[1..][i].id.IdB? || node[1..][i].id.IdW?)
          && node[1..][i].value == MoveValue(r.value)
          && forall j :: 0 <= j < i ==> !(node[1..][j].Prop? && (node[1..][j].id.IdB? || node[1..][j].id.IdW?));
        assert node[i + 1] == node[1..][i];
        assert forall j :: 1 <= j <= i ==> node[j] == node[1..][j - 1];
        r
      else
        assert forall i :: 1 <= i < |node| ==> node[i] == node[1..][i - 1];
        r
  }

  /** The move of a variation: the first move of its first node, if any. */
  function LeadMove(a: seq<TreeRec>, c: nat): Option<Move>
  {
    if c >= |a| || |a[c].nodes| == 0 then None else FirstMove(a[c].nodes[0])
  }

  /** `children.map { ... }`: one entry per child tree, in order. */
  function LeadMoves(a: seq<TreeRec>, cs: seq<nat>): (r: seq<Option<Move>>)
    ensures |r| == |cs| && forall k :: 0 <= k < |cs| ==> r[k] == LeadMove(a, cs[k])
  {
    seq(|cs|, k requires 0 <= k < |cs| => LeadMove(a, cs[k]))
  }

  /**
   * `variations`: for successors, the variations below the last node of the
   * sequence; for siblings, the variations beside the first node of the
   * sequence, none while branching.
   */
  function VariationMoves(n: Cursor, successors: bool, ghost base: nat): (r: seq<Option<Move>>)
    requires NavOk(n, base)
  {
    var a := n.trees;
    if successors then
      if GetOrNull(NodesOf(a, n.tree), n.index + 1).None? && n.tree.Some? then
        LeadMoves(a, a[n.tree.value].children)
      else []
    else if n.userBranch then []
    else if n.index == 0 && n.tree.Some? && a[n.tree.value].parent.Some? then
      var p := a[n.tree.value].parent.value;
      LeadMoves(a, a[p].children)
    else []
  }

  /**
   * There are successor variations only at the last node of the sequence,
   * one per child, and sibling ones only at the first node of a variation,
   * one per child of the parent, the current variation among them.
   */
  lemma VariationsListed(n: Cursor, base: nat)
    requires NavOk(n, base) && n.tree.Some?
    ensures var a, t := n.trees, n.tree.value;
      && (n.index + 1 < |a[t].nodes| ==> VariationMoves(n, true, base) == [])
      && (n.index + 1 >= |a[t].nodes| ==>
            |VariationMoves(n, true, base)| == |a[t].children|
            && forall k :: 0 <= k < |a[t].children| ==> VariationMoves(n, true, base)[k] == LeadMove(a, a[t].children[k]))
      && (n.userBranch || n.index != 0 || a[t].parent.None? ==> VariationMoves(n, false, base) == [])
      && (!n.userBranch && n.index == 0 && a[t].parent.Some? ==>
            var p := a[t].parent.value;
            |VariationMoves(n, false, base)| == |a[p].children|
            && exists k :: 0 <= k < |a[p].children| && a[p].children[k] == t && VariationMoves(n, false, base)[k] == LeadMove(a, t))
  {
    var a, t := n.trees, n.tree.value;
    ChildrenAfter(n, base);
    if a[t].parent.Some? {
      var p := a[t].parent.value;
      assert t in a[p].children;
      ChildrenAfter(n.(tree := Some(p), userBranch := false), base);
    }
  }

  // ------------------------------------------------------------- the position as indices

  /** The child indices from `tree` up to its root, bottom first. */
  function Indices(a: seq<TreeRec>, tree: Option<nat>, ghost base: nat): (r: seq<int>)
    requires tree.Some? ==> Chain(a, base, tree.value)
    decreases if tree.Some? then tree.value + 1 else 0
  {
    if tree.None? then []
    else
      var t := tree.value;
      match a[t].parent
      case None => []
      case Some(p) => [IndexOf(a[p].children, t)] + Indices(a, Some(p), base)
  }

  /**
   * `currentIndices`: the node index, then the child index of each tree on
   * the way up; a user branch counts as the last node of the tree it was
   * made in.
   */
  function Path(n: Cursor, ghost base: nat): (r: seq<int>)
    requires NavOk(n, base)
    ensures |r| > 0 && r[0] >= -1
  {
    var a := n.trees;
    if n.userBranch then
      var t := n.tree.value;
      match a[t].parent
      case None => [0]
      case Some(p) => [|a[p].nodes| - 1] + Indices(a, Some(p), base)
    else [n.index] + Indices(a, n.tree, base)
  }

  /** The descent `goToIndices` makes: from the last index to the first, the nodes passed and the tree reached. */
  function Walk(a: seq<TreeRec>, tree: Option<nat>, ps: seq<int>, ghost base: nat): (r: (seq<Node>, Option<nat>))
    requires WellFormedFrom(a, base) && base <= |a| && (tree.Some? ==> Chain(a, base, tree.value))
    ensures r.1.Some? ==> Chain(a, base, r.1.value)
    decreases |ps|
  {
    if |ps| == 0 then ([], tree)
    else
      ChildrenAfter(Cursor(a, tree, 0, false), base);
      var next := if tree.Some? then GetOrNull(a[tree.value].children, ps[|ps| - 1]) else None;
      var (ns, end) := Walk(a, next, ps[..|ps| - 1], base);
      (NodesOf(a, tree) + ns, end)
  }

  /** Walking two runs of indices is walking the later run from where the first run ends. */
  lemma {:induction false} WalkAppend(a: seq<TreeRec>, tree: Option<nat>, xs: seq<int>, ys: seq<int>, base: nat)
    requires WellFormedFrom(a, base) && base <= |a| && (tree.Some? ==> Chain(a, base, tree.value))
    ensures var (ns, mid) := Walk(a, tree, ys, base);
      Walk(a, tree, xs + ys, base) == (ns + Walk(a, mid, xs, base).0, Walk(a, mid, xs, base).1)
    decreases |ys|
  {
    if |ys| == 0 {
      assert xs + ys == xs;
      assert [] + Walk(a, tree, xs, base).0 == Walk(a, tree, xs, base).0;
    } else {
      var zs := xs + ys;
      var ys' := ys[..|ys| - 1];
      assert zs[|zs| - 1] == ys[|ys| - 1];
      assert zs[..|zs| - 1] == xs + ys';
      ChildrenAfter(Cursor(a, tree, 0, false), base);
      var next := if tree.Some? then GetOrNull(a[tree.value].children, ys[|ys| - 1]) else None;
      WalkAppend(a, next, xs, ys', base);
      var (ns', mid) := Walk(a, next, ys', base);
      assert Walk(a, tree, ys, base) == (NodesOf(a, tree) + ns', mid);
      assert Walk(a, tree, zs, base) == (NodesOf(a, tree) + Walk(a, next, xs + ys', base).0, Walk(a, next, xs + ys', base).1);
      assert NodesOf(a, tree) + (ns' + Walk(a, mid, xs, base).0) == (NodesOf(a, tree) + ns') + Walk(a, mid, xs, base).0;
    }
  }

  /** Walking the indices of a tree from its root reaches that tree. */
  lemma {:induction false} WalkIndices(a: seq<TreeRec>, base: nat, t: nat)
    requires WellFormedFrom(a, base) && Chain(a, base, t)
    ensures Walk(a, Some(RootOf(a, base, t)), Indices(a, Some(t), base), base).1 == Some(t)
    decreases t
  {
    match a[t].parent
    case None =>
    case Some(p) =>
      WalkIndices(a, base, p);
      var root := RootOf(a, base, t);
      var k := IndexOf(a[p].children, t);
      WalkAppend(a, Some(root), [k], Indices(a, Some(p), base), base);
      assert [k][..0] == [];
  }

  /**
   * `goToIndices`: the nodes of every tree passed on the way down, then the
   * first nodes of the tree reached up to the node index, which becomes the
   * cursor's index.
   */
  function GoTo(n: Cursor, indices: seq<int>, ghost base: nat): (r: (Cursor, seq<Node>))
    requires NavOk(n, base) && !n.userBranch && |indices| > 0 && indices[0] >= -1
    ensures NavOk(r.0, base) && r.0.trees == n.trees && !r.0.userBranch
  {
    var (ns, end) := Walk(n.trees, n.tree, indices[1..], base);
    var last := Take(NodesOf(n.trees, end), indices[0] + 1);
    (n.(tree := end, index := indices[0]), ns + last)
  }

  /**
   * `goToIndices(currentIndices)` from the root reaches the same tree and
   * node; from a user branch it reaches the last node of the tree the
   * branch was made in.
   */
  lemma IndicesRoundTrip(n: Cursor, base: nat, start: Cursor)
    requires NavOk(n, base) && n.tree.Some?
    requires NavOk(start, base) && !start.userBranch && start.trees == n.trees
    requires start.tree == Some(RootOf(n.trees, base, n.tree.value))
    ensures !n.userBranch ==> GoTo(start, Path(n, base), base).0 == n
    ensures n.userBranch && n.trees[n.tree.value].parent.Some? ==>
      var p := n.trees[n.tree.value].parent.value;
      GoTo(start, Path(n, base), base).0 == Cursor(n.trees, Some(p), |n.trees[p].nodes| - 1, false)
  {
    var a, t := n.trees, n.tree.value;
    if !n.userBranch {
      assert Path(n, base)[1..] == Indices(a, Some(t), base);
      WalkIndices(a, base, t);
    } else if a[t].parent.Some? {
      var p := a[t].parent.value;
      assert RootOf(a, base, t) == RootOf(a, base, p);
      assert Path(n, base)[1..] == Indices(a, Some(p), base);
      WalkIndices(a, base, p);
    }
  }

  // ------------------------------------------------------------- the navigator object

  class SgfNavigator {
    var trees: seq<TreeRec>
    var currentTree: Option<nat>
    var currentNodeIndex: int
    var userBranch: bool
    /** The arena index of the root tree: every tree the cursor reaches lies at or after it. */
    ghost const base: nat

    /** The fields as one value. */
    function Value(): Cursor
      reads this
    {
      Cursor(trees, currentTree, currentNodeIndex, userBranch)
    }

    ghost predicate Valid()
      reads this
    {
      NavOk(Value(), base)
    }

    /** A navigator on the root tree `root` of the arena, before its first node. */
    constructor(trees: seq<TreeRec>, root: nat)
      requires WellFormedFrom(trees, root) && root < |trees| && trees[root].parent.None?
      ensures Value() == Cursor(trees, Some(root), -1, false) && base == root && Valid()
    {
      this.trees := trees;
      currentTree := Some(root);
      currentNodeIndex := -1;
      userBranch := false;
      base := root;
    }

    /** `nextNode`. */
    method NextNode() returns (node: Option<Node>)
      requires Valid()
      modifies this
      ensures (Value(), node) == Next(old(Value()), base) && Valid()
    {
      NextSteps(Value(), base);
      var nodes := NodesOf(trees, currentTree);
      if 0 <= currentNodeIndex + 1 < |nodes| {
        currentNodeIndex := currentNodeIndex + 1;
        return Some(nodes[currentNodeIndex]);
      }
      var children := ChildrenOf(trees, currentTree);
      if |children| > 0 {
        ChildrenAfter(Value(), base);
        currentTree := Some(children[0]);
        currentNodeIndex := 0;
        return GetOrNull(trees[children[0]].nodes, 0);
      }
      return None;
    }

    /** `previousNode`. */
    method PreviousNode() returns (node: Option<Node>)
      requires Valid()
      modifies this
      ensures (Value(), node) == Previous(old(Value()), base) && Valid()
    {
      PreviousSteps(Value(), base);
      var nodes := NodesOf(trees, currentTree);
      if 0 <= currentNodeIndex - 1 < |nodes| {
        currentNodeIndex := currentNodeIndex - 1;
        return Some(nodes[currentNodeIndex]);
      }
      if currentTree.Some? && trees[currentTree.value].parent.Some? {
        var p := trees[currentTree.value].parent.value;
        currentTree := Some(p);
        currentNodeIndex := |trees[p].nodes| - 1;
        if userBranch {
          assert LinksOk(trees, p);
          DeleteUserBranch(p);
        }
        return GetOrNull(trees[p].nodes, currentNodeIndex);
      }
      return None;
    }

    /** `deleteUserBranch`, on the tree the cursor has just ascended to. */
    method DeleteUserBranch(t: nat)
      requires t < |trees| && |trees[t].children| >= 2 && trees[t].children[1] < |trees|
      modifies this
      ensures trees == Unbranch(old(trees), t) && !userBranch
      ensures currentTree == old(currentTree) && currentNodeIndex == old(currentNodeIndex)
    {
      var rest := trees[trees[t].children[1]];
      trees := trees[t := trees[t].(nodes := trees[t].nodes + rest.nodes, children := trees[t].children[2..])];
      userBranch := false;
    }

    /** `makeMove`. */
    method MakeMove(move: Property, variation: Option<int>) returns (node: Option<Node>)
      requires Valid()
      modifies this
      ensures (Value(), node) == Play(old(Value()), move, variation, base) && Valid()
    {
      PlayOk(Value(), move, variation, base);
      if !userBranch {
        var next := GetOrNull(NodesOf(trees, currentTree), currentNodeIndex + 1);
        if next.Some? && move in next.value {
          currentNodeIndex := currentNodeIndex + 1;
        } else {
          LeaveNode(move, variation);
        }
      } else {
        AddToUserBranch(move);
      }
      node := GetOrNull(NodesOf(trees, currentTree), currentNodeIndex);
    }

    /** The part of `makeMove` that leaves the current node other than by the next one. */
    method LeaveNode(move: Property, variation: Option<int>)
      requires Valid() && !userBranch
      modifies this
      ensures Value() == Leave(old(Value()), move, variation, base)
    {
      if currentTree.Some? {
        ChildrenAfter(Value(), base);
      }
      if variation.Some? {
        var child := GetOrNull(ChildrenOf(trees, currentTree), variation.value);
        if child.Some? {
          currentTree := child;
          currentNodeIndex := 0;
        }
      } else if currentTree.Some? && currentNodeIndex == |trees[currentTree.value].nodes| - 1 {
        var containing := FindChild(trees, trees[currentTree.value].children, move);
        if containing.Some? {
          currentTree := containing;
          currentNodeIndex := 0;
        } else {
          CreateUserBranch(move);
        }
      } else {
        CreateUserBranch(move);
      }
    }

    /** `createUserBranch`. */
    method CreateUserBranch(move: Property)
      requires currentNodeIndex >= -1 && (currentTree.Some? ==> currentTree.value < |trees|)
      modifies this
      ensures Value() == Branch(old(Value()), move)
    {
      var u := |trees|;
      var userTree := TreeRec(currentTree, [[move]], []);
      if currentTree.Some? {
        var t := currentTree.value;
        var oldNodes := Take(trees[t].nodes, currentNodeIndex + 1);
        var remainingNodes := Drop(trees[t].nodes, currentNodeIndex + 1);
        var cut := trees[t].(nodes := oldNodes, children := [u, u + 1] + trees[t].children);
        trees := trees[t := cut] + [userTree, TreeRec(Some(t), remainingNodes, [])];
      } else {
        trees := trees + [userTree];
      }
      currentTree := Some(u);
      currentNodeIndex := 0;
      userBranch := true;
    }

    /** `addToUserBranch`. */
    method AddToUserBranch(move: Property)
      requires currentNodeIndex >= -1 && (currentTree.Some? ==> currentTree.value < |trees|)
      modifies this
      ensures Value() == Extend(old(Value()), move)
    {
      if currentTree.Some? {
        var u := currentTree.value;
        var keep := Take(trees[u].nodes, currentNodeIndex + 1);
        trees := trees[u := trees[u].(nodes := keep + [[move]])];
      }
      currentNodeIndex := currentNodeIndex + 1;
    }

    /** `variations`. */
    method Variations(successors: bool) returns (r: seq<Option<Move>>)
      requires Valid()
      ensures r == VariationMoves(Value(), successors, base)
    {
      r := VariationMoves(Value(), successors, base);
    }

    /** `currentIndices`: the loop up the parent links. */
    method CurrentIndices() returns (index: seq<int>)
      requires Valid()
      ensures index == Path(Value(), base)
    {
      var traverseTree := if userBranch then trees[currentTree.value].parent else currentTree;
      index := [if userBranch then (match traverseTree case Some(p) => |trees[p].nodes| - 1 case None => 0) else currentNodeIndex];
      ghost var start := traverseTree;
      if userBranch && traverseTree.Some? {
        assert Chain(trees, base, currentTree.value);
      }
      while traverseTree.Some?
        invariant traverseTree.Some? ==> Chain(trees, base, traverseTree.value)
        invariant index + Indices(trees, traverseTree, base) == Path(Value(), base)
        decreases if traverseTree.Some? then traverseTree.value + 1 else 0
      {
        var t := traverseTree.value;
        var parent := trees[t].parent;
        if parent.Some? {
          index := index + [IndexOf(trees[parent.value].children, t)];
        }
        traverseTree := parent;
      }
    }

    /** `goToIndices`: the loop down the child indices, last index first. */
    method GoToIndices(indices: seq<int>) returns (nodes: seq<Node>)
      requires Valid() && !userBranch && |indices| > 0 && indices[0] >= -1
      modifies this
      ensures (Value(), nodes) == GoTo(old(Value()), indices, base) && Valid()
    {
      nodes := WalkDown(indices[1..]);
      nodes := nodes + Take(NodesOf(trees, currentTree), indices[0] + 1);
      currentNodeIndex := indices[0];
    }

    /** The loop of `goToIndices` over the child indices `ps`, last first. */
    method WalkDown(ps: seq<int>) returns (nodes: seq<Node>)
      requires Valid() && !userBranch
      modifies this
      ensures trees == old(trees) && currentNodeIndex == old(currentNodeIndex) && userBranch == old(userBranch)
      ensures (nodes, currentTree) == Walk(old(trees), old(currentTree), ps, base)
    {
      ghost var start := currentTree;
      nodes := [];
      var i := |ps|;
      assert ps[..i] == ps;
      assert [] + Walk(trees, currentTree, ps, base).0 == Walk(trees, currentTree, ps, base).0;
      while i >= 1
        invariant 0 <= i <= |ps|
        invariant currentTree.Some? ==> Chain(trees, base, currentTree.value)
        invariant trees == old(trees) && currentNodeIndex == old(currentNodeIndex) && userBranch == old(userBranch)
        invariant Walk(trees, start, ps, base)
          == (nodes + Walk(trees, currentTree, ps[..i], base).0, Walk(trees, currentTree, ps[..i], base).1)
      {
        var qs := ps[..i];
        assert qs[|qs| - 1] == ps[i - 1] && qs[..|qs| - 1] == ps[..i - 1];
        ChildrenAfter(Value(), base);
        var here := NodesOf(trees, currentTree);
        var next := if currentTree.Some? then GetOrNull(trees[currentTree.value].children, ps[i - 1]) else None;
        ghost var rest := Walk(trees, next, ps[..i - 1], base);
        assert Walk(trees, currentTree, qs, base) == (here + rest.0, rest.1);
        assert nodes + (here + rest.0) == (nodes + here) + rest.0;
        nodes := nodes + here;
        currentTree := next;
        i := i - 1;
      }
      assert ps[..0] == [];
      assert nodes + [] == nodes;
    }
  }
}
