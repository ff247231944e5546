/**
 * `SgfParser.parseSgfCollection`: a four-state character scanner that builds
 * the game trees of an SGF text.
 *
 * The scanner's variables (`currentTree`, the identifier and value strings,
 * `currentProp` and the parser's `state` field) are gathered in a `Scan`
 * record; `Step` is one character's effect and `Run` folds it over a text.
 * The parser class runs the same scanner as a loop and is proved equal to
 * `Run`. Trees live in an arena (see `SgfTree`); `currentProp` is tracked
 * together with the place where it sits in the arena, because Kotlin extends a
 * list property in place after it has been attached to a node.
 */
module SgfParser {
  import opened Wrappers
  import opened SgfTree
  import opened CoordinateParser
  import opened SgfProperties

  datatype ParseState = EXPECT_ANYTHING | PARSE_PROPIDENT | PARSE_PROPVALUE | ESCAPE

  /** Where a property sits: arena tree, node in its sequence, position in the node. */
  datatype Loc = Loc(tree: nat, node: nat, index: nat)

  /** `currentProp`: the property object and, if it was attached to a node, its place. */
  datatype OpenProp = OpenProp(prop: Property, at: Option<Loc>)

  /** The scanner's variables. */
  datatype Scan = Scan(
    state: ParseState,
    arena: seq<TreeRec>,
    cur: nat,
    ident: string,
    value: string,
    open: Option<OpenProp>)

  ghost predicate At(a: seq<TreeRec>, l: Loc)
  {
    l.tree < |a| && l.node < |a[l.tree].nodes| && l.index < |a[l.tree].nodes[l.node]|
  }

  /**
   * The scanner's invariant: the links of the arena are consistent, the
   * current tree exists, and an attached `currentProp` is the property
   * stored at its place.
   */
  ghost predicate ScanOk(s: Scan)
  {
    && s.cur < |s.arena|
    && WellFormedFrom(s.arena, 0)
    && (s.open.Some? && s.open.value.at.Some? ==>
          At(s.arena, s.open.value.at.value)
          && var l := s.open.value.at.value;
             s.arena[l.tree].nodes[l.node][l.index] == s.open.value.prop)
  }

  /** The scanner at the start of a call: a fresh holder tree and the parser's persistent state. */
  function Initial(state: ParseState): (s: Scan)
    ensures ScanOk(s)
    ensures s.arena == [TreeRec(None, [], [])] && s.cur == 0 && s.open.None?
  {
    Scan(state, [TreeRec(None, [], [])], 0, "", "", None)
  }

  // ------------------------------------------------------------- the arena

  /** Trees with the same links: only node contents may differ. */
  ghost predicate SameLinks(a: seq<TreeRec>, b: seq<TreeRec>)
  {
    |a| == |b| && forall t :: 0 <= t < |a| ==> a[t].parent == b[t].parent && a[t].children == b[t].children
  }

  lemma SameLinksWellFormed(a: seq<TreeRec>, b: seq<TreeRec>, from: nat)
    requires WellFormedFrom(a, from) && SameLinks(a, b)
    ensures WellFormedFrom(b, from)
  {
    forall t | from <= t < |b|
      ensures LinksOk(b, t) && (b[t].parent.Some? ==> b[t].parent.value < t)
    {
      assert LinksOk(a, t);
    }
  }

  /** '(': a new empty tree, appended to `t`'s children with `t` as its parent. */
  function NewChild(a: seq<TreeRec>, t: nat): (r: seq<TreeRec>)
    requires t < |a| && WellFormedFrom(a, 0)
    ensures |r| == |a| + 1 && r[|a|] == TreeRec(Some(t), [], [])
    ensures r[t].children == a[t].children + [|a|] && r[t].nodes == a[t].nodes && r[t].parent == a[t].parent
    ensures forall u :: 0 <= u < |a| && u != t ==> r[u] == a[u]
    ensures WellFormedFrom(r, 0)
  {
    var r := a[t := a[t].(children := a[t].children + [|a|])] + [TreeRec(Some(t), [], [])];
    assert LinksOk(r, t) by {
      assert LinksOk(a, t);
      assert |a| !in a[t].children;
    }
    forall u | 0 <= u < |r|
      ensures LinksOk(r, u) && (r[u].parent.Some? ==> r[u].parent.value < u)
    {
      if u == |a| {
        assert r[u].children == [];
      } else if u != t {
        assert LinksOk(a, u) && r[u] == a[u];
        forall j | 0 <= j < |r[u].children|
          ensures u < r[u].children[j] < |r| && r[r[u].children[j]].parent == Some(u)
        {
          var c := a[u].children[j];
          assert c < |a| && r[c].parent == a[c].parent;
        }
      } else {
        assert LinksOk(a, u);
      }
    }
    r
  }

  /** ';': one more empty node at the end of tree `t`'s sequence. */
  function NewNode(a: seq<TreeRec>, t: nat): (r: seq<TreeRec>)
    requires t < |a|
    ensures SameLinks(a, r)
    ensures r[t].nodes == a[t].nodes + [[]]
    ensures forall u :: 0 <= u < |a| && u != t ==> r[u] == a[u]
  {
    a[t := a[t].(nodes := a[t].nodes + [[]])]
  }

  /** `nodes.lastOrNull()?.add(p)` for a tree with at least one node. */
  function AppendProperty(a: seq<TreeRec>, t: nat, p: Property): (r: seq<TreeRec>)
    requires t < |a| && |a[t].nodes| > 0
    ensures SameLinks(a, r)
    ensures |r[t].nodes| == |a[t].nodes|
    ensures r[t].nodes[|a[t].nodes| - 1] == a[t].nodes[|a[t].nodes| - 1] + [p]
    ensures forall k :: 0 <= k < |a[t].nodes| - 1 ==> r[t].nodes[k] == a[t].nodes[k]
    ensures forall u :: 0 <= u < |a| && u != t ==> r[u] == a[u]
  {
    var n := |a[t].nodes| - 1;
    a[t := a[t].(nodes := a[t].nodes[n := a[t].nodes[n] + [p]])]
  }

  /** The property at `l` becomes `p` (a list property extended in place). */
  function SetProperty(a: seq<TreeRec>, l: Loc, p: Property): (r: seq<TreeRec>)
    requires At(a, l)
    ensures SameLinks(a, r) && At(r, l)
    ensures r[l.tree].nodes[l.node][l.index] == p
    ensures |r[l.tree].nodes| == |a[l.tree].nodes|
    ensures forall k :: 0 <= k < |a[l.tree].nodes| ==> |r[l.tree].nodes[k]| == |a[l.tree].nodes[k]|
    ensures forall k, j :: 0 <= k < |a[l.tree].nodes| && 0 <= j < |a[l.tree].nodes[k]| && (k, j) != (l.node, l.index) ==>
      r[l.tree].nodes[k][j] == a[l.tree].nodes[k][j]
    ensures forall u :: 0 <= u < |a| && u != l.tree ==> r[u] == a[u]
  {
    var nodes := a[l.tree].nodes;
    a[l.tree := a[l.tree].(nodes := nodes[l.node := nodes[l.node][l.index := p]])]
  }

  // ------------------------------------------------------------- the scanner

  /**
   * The scanner's value decoder, `parsePropValue(propIdent, propValue,
   * currentProp)`; the scanner is stated for any decoder and used with
   * `PropDecoder`.
   */
  type Decoder = (string, string, Option<Property>) -> Option<Property>

  /** `parsePropValue` of a parser whose coordinate parser is `codec`. */
  function PropDecoder(codec: Codec): Decoder
  {
    (ident, value, prior) => ParsePropValue(codec, ident, value, prior)
  }

  /**
   * Whether `parsePropValue` hands back the `currentProp` object itself
   * (extended): a list identifier whose prior property is of its class.
   */
  predicate Reused(ident: string, prior: Property)
  {
    IdOf(ident).Some? && IsList(IdOf(ident).value) && Reuses(IdOf(ident).value, Some(prior))
  }

  /**
   * ']': the value is decoded. A new property is attached to the current
   * tree's last node (or dropped when there is none); a reused one is already
   * in place; a replacement for a non-list `currentProp` is not attached.
   * A refused value changes nothing but the state.
   */
  function Close(dec: Decoder, s: Scan): (r: Scan)
    requires ScanOk(s)
    ensures ScanOk(r)
    ensures r.state == EXPECT_ANYTHING && r.cur == s.cur && r.ident == s.ident && r.value == s.value
    ensures SameLinks(s.arena, r.arena)
  {
    var prior := if s.open.Some? then Some(s.open.value.prop) else None;
    match dec(s.ident, s.value, prior)
    case None => s.(state := EXPECT_ANYTHING)
    case Some(p) =>
      if s.open.None? then
        var nodes := s.arena[s.cur].nodes;
        if |nodes| == 0 then s.(state := EXPECT_ANYTHING, open := Some(OpenProp(p, None)))
        else
          var l := Loc(s.cur, |nodes| - 1, |nodes[|nodes| - 1]|);
          var a := AppendProperty(s.arena, s.cur, p);
          SameLinksWellFormed(s.arena, a, 0);
          s.(state := EXPECT_ANYTHING, arena := a, open := Some(OpenProp(p, Some(l))))
      else if Reused(s.ident, s.open.value.prop) && s.open.value.at.Some? then
        var a := SetProperty(s.arena, s.open.value.at.value, p);
        SameLinksWellFormed(s.arena, a, 0);
        s.(state := EXPECT_ANYTHING, arena := a, open := Some(OpenProp(p, s.open.value.at)))
      else
        s.(state := EXPECT_ANYTHING, open := Some(OpenProp(p, None)))
  }

  /** One character of the `for` loop of `parseSgfCollection`. */
  function Step(dec: Decoder, s: Scan, c: char): (r: Scan)
    requires ScanOk(s)
    ensures ScanOk(r)
  {
    match s.state
    case EXPECT_ANYTHING =>
      if c == '(' then
        var a := NewChild(s.arena, s.cur);
        var l := s.open;
        assert l.Some? && l.value.at.Some? ==> At(a, l.value.at.value);
        s.(arena := a, cur := |s.arena|)
      else if c == ')' then
        assert LinksOk(s.arena, s.cur);
        if s.arena[s.cur].parent.Some? then s.(cur := s.arena[s.cur].parent.value) else s
      else if c == ';' then
        var a := NewNode(s.arena, s.cur);
        SameLinksWellFormed(s.arena, a, 0);
        s.(arena := a)
      else if 'A' <= c <= 'Z' then s.(ident := [c], open := None, state := PARSE_PROPIDENT)
      else if c == '[' then s.(value := "", state := PARSE_PROPVALUE)
      else s
    case PARSE_PROPIDENT =>
      if 'A' <= c <= 'Z' then s.(ident := s.ident + [c])
      else if c == '[' then s.(value := "", state := PARSE_PROPVALUE)
      else s
    case PARSE_PROPVALUE =>
      if c == '\\' then s.(state := ESCAPE)
      else if c == ']' then Close(dec, s)
      else s.(value := s.value + [c])
    case ESCAPE =>
      s.(value := if c != '\n' then s.value + [c] else s.value, state := PARSE_PROPVALUE)
  }

  /** The scanner after reading `text`, one character after the other. */
  function Run(dec: Decoder, s: Scan, text: string): (r: Scan)
    requires ScanOk(s)
    ensures ScanOk(r)
    decreases |text|
  {
    if |text| == 0 then s
    else Step(dec, Run(dec, s, text[..|text| - 1]), text[|text| - 1])
  }

  lemma {:induction false} RunAppend(dec: Decoder, s: Scan, a: string, b: string)
    requires ScanOk(s)
    ensures Run(dec, s, a + b) == Run(dec, Run(dec, s, a), b)
    decreases |b|
  {
    if |b| == 0 {
      assert a + b == a;
    } else {
      var front, last := b[..|b| - 1], b[|b| - 1];
      assert (a + b)[..|a + b| - 1] == a + front && (a + b)[|a + b| - 1] == last;
      RunAppend(dec, s, a, front);
      assert Run(dec, s, a + b) == Step(dec, Run(dec, s, a + front), last);
      assert Run(dec, Run(dec, s, a), b) == Step(dec, Run(dec, Run(dec, s, a), front), last);
    }
  }

  lemma RunOne(dec: Decoder, s: Scan, c: char)
    requires ScanOk(s)
    ensures Run(dec, s, [c]) == Step(dec, s, c)
  {
    assert [c][..0] == [];
  }

  // ------------------------------------------------------------- properties of the scanner

  /** '(' outside a value: a new empty child of the current tree becomes current. */
  lemma OpenParenDescends(dec: Decoder, s: Scan)
    requires ScanOk(s) && s.state == EXPECT_ANYTHING
    ensures var r := Step(dec, s, '(');
      && r.cur == |s.arena| && |r.arena| == |s.arena| + 1
      && r.arena[r.cur] == TreeRec(Some(s.cur), [], [])
      && r.arena[s.cur].children == s.arena[s.cur].children + [r.cur]
  {
  }

  /** ')' outside a value: the parent becomes current; at a tree without parent nothing happens. */
  lemma CloseParenAscends(dec: Decoder, s: Scan)
    requires ScanOk(s) && s.state == EXPECT_ANYTHING
    ensures s.arena[s.cur].parent.Some? ==> Step(dec, s, ')') == s.(cur := s.arena[s.cur].parent.value)
    ensures s.arena[s.cur].parent.None? ==> Step(dec, s, ')') == s
  {
  }

  /** ';' outside a value: one empty node is appended to the current tree's sequence. */
  lemma SemicolonAddsNode(dec: Decoder, s: Scan)
    requires ScanOk(s) && s.state == EXPECT_ANYTHING
    ensures var r := Step(dec, s, ';');
      && r.cur == s.cur && SameLinks(s.arena, r.arena)
      && r.arena[s.cur].nodes == s.arena[s.cur].nodes + [[]]
      && forall u :: 0 <= u < |s.arena| && u != s.cur ==> r.arena[u] == s.arena[u]
  {
  }

  /** "()" leaves the cursor where it was, with one more, empty, child. */
  lemma ParenPair(dec: Decoder, s: Scan)
    requires ScanOk(s) && s.state == EXPECT_ANYTHING
    ensures var r := Run(dec, s, "()");
      r.cur == s.cur && r.arena == NewChild(s.arena, s.cur) && r.state == EXPECT_ANYTHING
  {
    RunAppend(dec, s, "(", ")");
    RunOne(dec, s, '(');
    RunOne(dec, Step(dec, s, '('), ')');
  }

  /** A value text without '\' and ']', which the scanner copies verbatim. */
  predicate Plain(v: string)
  {
    forall k :: 0 <= k < |v| ==> v[k] != '\\' && v[k] != ']'
  }

  /** Inside a value, plain characters are appended to the value string. */
  lemma {:induction false} ReadPlain(dec: Decoder, s: Scan, v: string)
    requires ScanOk(s) && s.state == PARSE_PROPVALUE && Plain(v)
    ensures Run(dec, s, v) == s.(value := s.value + v)
    decreases |v|
  {
    if |v| > 0 {
      var w := v[..|v| - 1];
      assert Plain(w);
      ReadPlain(dec, s, w);
      assert s.value + w + [v[|v| - 1]] == s.value + v;
    }
  }

  /** '\' makes the next character part of the value, except an escaped line break, which is dropped. */
  lemma Escape(dec: Decoder, s: Scan, c: char)
    requires ScanOk(s) && s.state == PARSE_PROPVALUE
    ensures Run(dec, s, ['\\', c]) == s.(value := s.value + (if c == '\n' then "" else [c]))
  {
    RunAppend(dec, s, ['\\'], [c]);
    RunOne(dec, s, '\\');
    RunOne(dec, Step(dec, s, '\\'), c);
  }

  /** "[v]" outside a value reads `v` and closes the value. */
  lemma ReadValue(dec: Decoder, s: Scan, v: string)
    requires ScanOk(s) && (s.state == EXPECT_ANYTHING || s.state == PARSE_PROPIDENT) && Plain(v)
    ensures Run(dec, s, "[" + v + "]") == Close(dec, s.(value := v, state := PARSE_PROPVALUE))
  {
    var s1 := s.(value := "", state := PARSE_PROPVALUE);
    RunOne(dec, s, '[');
    assert Step(dec, s, '[') == s1;
    ReadPlain(dec, s1, v);
    RunAppend(dec, s, "[", v);
    RunAppend(dec, s, "[" + v, "]");
    RunOne(dec, s1.(value := v), ']');
    assert "" + v == v;
  }

  /** `Close` of a first value with a node to hold it. */
  lemma CloseAttaches(dec: Decoder, s: Scan, p: Property)
    requires ScanOk(s) && s.open.None? && |s.arena[s.cur].nodes| > 0
    requires dec(s.ident, s.value, None) == Some(p)
    ensures var n := |s.arena[s.cur].nodes| - 1;
      Close(dec, s) == s.(state := EXPECT_ANYTHING, arena := AppendProperty(s.arena, s.cur, p),
        open := Some(OpenProp(p, Some(Loc(s.cur, n, |s.arena[s.cur].nodes[n]|)))))
  {
  }

  /** `Close` of a further value of a list property attached at `l`: the property there is replaced. */
  lemma CloseExtends(dec: Decoder, s: Scan, q: Property, l: Loc, p: Property)
    requires ScanOk(s) && s.open == Some(OpenProp(q, Some(l))) && Reused(s.ident, q)
    requires dec(s.ident, s.value, Some(q)) == Some(p)
    ensures Close(dec, s) == s.(state := EXPECT_ANYTHING, arena := SetProperty(s.arena, l, p), open := Some(OpenProp(p, Some(l))))
  {
  }

  /** `Close` of a further value that is not a reused list: nothing is attached. */
  lemma CloseReplaces(dec: Decoder, s: Scan, q: Property, p: Property)
    requires ScanOk(s) && s.open.Some? && s.open.value.prop == q && !Reused(s.ident, q)
    requires dec(s.ident, s.value, Some(q)) == Some(p)
    ensures Close(dec, s) == s.(state := EXPECT_ANYTHING, open := Some(OpenProp(p, None)))
  {
  }

  /**
   * A first value of a property: with a node to hold it, the decoded
   * property is appended to the current tree's last node; without one it is
   * dropped and no tree changes.
   */
  lemma AttachOrDrop(dec: Decoder, s: Scan, v: string)
    requires ScanOk(s) && (s.state == EXPECT_ANYTHING || s.state == PARSE_PROPIDENT) && Plain(v)
    requires s.open.None?
    ensures var r := Run(dec, s, "[" + v + "]");
      var nodes := s.arena[s.cur].nodes;
      && r.cur == s.cur
      && (|nodes| == 0 ==> r.arena == s.arena)
      && (|nodes| > 0 ==>
            var n := |nodes| - 1;
            && |r.arena[s.cur].nodes| == |nodes|
            && r.arena[s.cur].nodes[n] == nodes[n] + OneOrNone(dec(s.ident, v, None))
            && forall k :: 0 <= k < n ==> r.arena[s.cur].nodes[k] == nodes[k])
  {
    ReadValue(dec, s, v);
  }

  /** An unknown identifier's value is attached to the last node as a CUSTOM property. */
  lemma UnknownIsCustom(codec: Codec, s: Scan, v: string)
    requires ScanOk(s) && s.state == PARSE_PROPIDENT && Plain(v)
    requires s.open.None? && IdOf(s.ident).None? && |s.arena[s.cur].nodes| > 0
    ensures var r := Run(PropDecoder(codec), s, "[" + v + "]");
      var n := |s.arena[s.cur].nodes| - 1;
      r.cur == s.cur && |r.arena[s.cur].nodes| == n + 1
      && r.arena[s.cur].nodes[n] == s.arena[s.cur].nodes[n] + [Custom(s.ident, v)]
  {
    AttachOrDrop(PropDecoder(codec), s, v);
  }

  /** A first value with a node to hold it: its property is appended and stays open at its place. */
  lemma FirstValue(dec: Decoder, s: Scan, v: string, p: Property)
    requires ScanOk(s) && s.state == PARSE_PROPIDENT && Plain(v)
    requires s.open.None? && |s.arena[s.cur].nodes| > 0
    requires dec(s.ident, v, None) == Some(p)
    ensures var n := |s.arena[s.cur].nodes| - 1;
      Run(dec, s, "[" + v + "]") == s.(state := EXPECT_ANYTHING, value := v,
        arena := AppendProperty(s.arena, s.cur, p),
        open := Some(OpenProp(p, Some(Loc(s.cur, n, |s.arena[s.cur].nodes[n]|)))))
  {
    ReadValue(dec, s, v);
    CloseAttaches(dec, s.(value := v, state := PARSE_PROPVALUE), p);
  }

  /** A further value of a reused list property: the property at its place is replaced by the extension. */
  lemma NextValueExtends(dec: Decoder, s: Scan, v: string, q: Property, l: Loc, p: Property)
    requires ScanOk(s) && s.state == EXPECT_ANYTHING && Plain(v)
    requires s.open == Some(OpenProp(q, Some(l))) && Reused(s.ident, q)
    requires dec(s.ident, v, Some(q)) == Some(p)
    ensures Run(dec, s, "[" + v + "]") == s.(value := v, arena := SetProperty(s.arena, l, p), open := Some(OpenProp(p, Some(l))))
  {
    ReadValue(dec, s, v);
    CloseExtends(dec, s.(value := v, state := PARSE_PROPVALUE), q, l, p);
  }

  /** A further value of a property that is not reused: the arena is unchanged. */
  lemma NextValueDetached(dec: Decoder, s: Scan, v: string, q: Property)
    requires ScanOk(s) && s.state == EXPECT_ANYTHING && Plain(v)
    requires s.open.Some? && s.open.value.prop == q && !Reused(s.ident, q)
    ensures Run(dec, s, "[" + v + "]").arena == s.arena
    ensures Run(dec, s, "[" + v + "]").cur == s.cur
  {
    ReadValue(dec, s, v);
    match dec(s.ident, v, Some(q))
    case Some(p) => CloseReplaces(dec, s.(value := v, state := PARSE_PROPVALUE), q, p);
    case None =>
  }

  /** Overwriting the property just appended to the last node: as if `p2` had been appended. */
  lemma SetAppended(a: seq<TreeRec>, t: nat, p1: Property, p2: Property)
    requires t < |a| && |a[t].nodes| > 0
    ensures var n := |a[t].nodes| - 1;
      var l := Loc(t, n, |a[t].nodes[n]|);
      && At(AppendProperty(a, t, p1), l)
      && |SetProperty(AppendProperty(a, t, p1), l, p2)[t].nodes| == n + 1
      && SetProperty(AppendProperty(a, t, p1), l, p2)[t].nodes[n] == a[t].nodes[n] + [p2]
  {
    var n := |a[t].nodes| - 1;
    var l := Loc(t, n, |a[t].nodes[n]|);
    var a1 := AppendProperty(a, t, p1);
    assert a1[t].nodes[n] == a[t].nodes[n] + [p1];
    var r := SetProperty(a1, l, p2);
    var want := a[t].nodes[n] + [p2];
    assert |r[t].nodes[n]| == |want|;
    forall j | 0 <= j < |want|
      ensures r[t].nodes[n][j] == want[j]
    {
      if j < |a[t].nodes[n]| {
        assert r[t].nodes[n][j] == a1[t].nodes[n][j];
      }
    }
  }

  /**
   * Two values in a row whose first property the decoder reuses for the
   * second: the node holds one property, the second value's extension of it.
   */
  lemma ReusedValues(dec: Decoder, s: Scan, v1: string, v2: string, p1: Property, p2: Property)
    requires ScanOk(s) && s.state == PARSE_PROPIDENT && Plain(v1) && Plain(v2)
    requires s.open.None? && |s.arena[s.cur].nodes| > 0
    requires dec(s.ident, v1, None) == Some(p1) && Reused(s.ident, p1)
    requires dec(s.ident, v2, Some(p1)) == Some(p2)
    ensures var r := Run(dec, s, ("[" + v1 + "]") + ("[" + v2 + "]"));
      var n := |s.arena[s.cur].nodes| - 1;
      && r.cur == s.cur && |r.arena[s.cur].nodes| == n + 1
      && r.arena[s.cur].nodes[n] == s.arena[s.cur].nodes[n] + [p2]
  {
    var n := |s.arena[s.cur].nodes| - 1;
    var l := Loc(s.cur, n, |s.arena[s.cur].nodes[n]|);
    var t1, t2 := "[" + v1 + "]", "[" + v2 + "]";
    FirstValue(dec, s, v1, p1);
    var s1 := Run(dec, s, t1);
    assert s1.arena == AppendProperty(s.arena, s.cur, p1);
    SetAppended(s.arena, s.cur, p1, p2);
    NextValueExtends(dec, s1, v2, p1, l, p2);
    RunAppend(dec, s, t1, t2);
    assert Run(dec, s, t1 + t2) == Run(dec, s1, t2);
  }

  /**
   * Two values in a row whose first property is not reused: the node holds
   * the first value's property only, whatever the second decodes to.
   */
  lemma ReplacedValues(dec: Decoder, s: Scan, v1: string, v2: string, p1: Property)
    requires ScanOk(s) && s.state == PARSE_PROPIDENT && Plain(v1) && Plain(v2)
    requires s.open.None? && |s.arena[s.cur].nodes| > 0
    requires dec(s.ident, v1, None) == Some(p1) && !Reused(s.ident, p1)
    ensures var r := Run(dec, s, ("[" + v1 + "]") + ("[" + v2 + "]"));
      var n := |s.arena[s.cur].nodes| - 1;
      && r.cur == s.cur && |r.arena[s.cur].nodes| == n + 1
      && r.arena[s.cur].nodes[n] == s.arena[s.cur].nodes[n] + [p1]
  {
    FirstValue(dec, s, v1, p1);
    var s1 := Run(dec, s, "[" + v1 + "]");
    NextValueDetached(dec, s1, v2, p1);
    RunAppend(dec, s, "[" + v1 + "]", "[" + v2 + "]");
  }

  /** What the decoder makes of two AB (or AW) values in a row, the second reusing the first. */
  lemma StoneDecodes(codec: Codec, id: Id, v1: string, v2: string)
    requires id == IdAB || id == IdAW
    ensures var p1 := Prop(id, StoneList(ParseStoneList(codec, v1)));
      && PropDecoder(codec)(IdName(id), v1, None) == Some(p1)
      && Reused(IdName(id), p1)
      && PropDecoder(codec)(IdName(id), v2, Some(p1))
         == Some(Prop(id, StoneList(ParseStoneList(codec, v1) + ParseStoneList(codec, v2))))
  {
    NameOfId(id);
    StoneListStarts(codec, id, v1);
    StoneListAccumulates(codec, id, ParseStoneList(codec, v1), v2);
  }

  /**
   * "AB[v1][v2]" (or AW): one AB property is attached, holding the stones of
   * both values in order.
   */
  lemma StoneValuesAccumulate(codec: Codec, s: Scan, id: Id, v1: string, v2: string)
    requires ScanOk(s) && s.state == PARSE_PROPIDENT && Plain(v1) && Plain(v2)
    requires (id == IdAB || id == IdAW) && s.ident == IdName(id)
    requires s.open.None? && |s.arena[s.cur].nodes| > 0
    ensures var r := Run(PropDecoder(codec), s, ("[" + v1 + "]") + ("[" + v2 + "]"));
      var n := |s.arena[s.cur].nodes| - 1;
      && r.cur == s.cur && |r.arena[s.cur].nodes| == n + 1
      && r.arena[s.cur].nodes[n]
         == s.arena[s.cur].nodes[n] + [Prop(id, StoneList(ParseStoneList(codec, v1) + ParseStoneList(codec, v2)))]
  {
    StoneDecodes(codec, id, v1, v2);
    ReusedValues(PropDecoder(codec), s, v1, v2, Prop(id, StoneList(ParseStoneList(codec, v1))),
      Prop(id, StoneList(ParseStoneList(codec, v1) + ParseStoneList(codec, v2))));
  }

  /**
   * "B[v1][v2]" and every other property that is not a list: the node keeps
   * the first value's property; the second is decoded but attached nowhere.
   */
  lemma ScalarKeepsFirst(codec: Codec, s: Scan, id: Id, v1: string, v2: string)
    requires ScanOk(s) && s.state == PARSE_PROPIDENT && Plain(v1) && Plain(v2)
    requires !IsList(id) && s.ident == IdName(id)
    requires s.open.None? && |s.arena[s.cur].nodes| > 0
    requires ParseKnown(codec, id, v1, None).Some?
    ensures var r := Run(PropDecoder(codec), s, ("[" + v1 + "]") + ("[" + v2 + "]"));
      var n := |s.arena[s.cur].nodes| - 1;
      && r.cur == s.cur && |r.arena[s.cur].nodes| == n + 1
      && r.arena[s.cur].nodes[n] == s.arena[s.cur].nodes[n] + [ParseKnown(codec, id, v1, None).value]
  {
    NameOfId(id);
    ReplacedValues(PropDecoder(codec), s, v1, v2, ParseKnown(codec, id, v1, None).value);
  }

  // ------------------------------------------------------------- line breaks

  /**
   * `replace(Regex("\r\n?|\n?\r"), "\n")`: CR LF, CR and LF CR all become one
   * LF; a lone LF stays.
   */
  function Normalize(s: string): (r: string)
    ensures '\r' !in r
    ensures |r| <= |s|
  {
    if |s| == 0 then ""
    else if s[0] == '\r' then "\n" + Normalize(if |s| > 1 && s[1] == '\n' then s[2..] else s[1..])
    else if s[0] == '\n' && |s| > 1 && s[1] == '\r' then "\n" + Normalize(s[2..])
    else [s[0]] + Normalize(s[1..])
  }

  lemma NormalizeBreaks(s: string)
    ensures Normalize("\r\n" + s) == "\n" + Normalize(s)
    ensures Normalize("\n\r" + s) == "\n" + Normalize(s)
    ensures (|s| == 0 || s[0] != '\n') ==> Normalize("\r" + s) == "\n" + Normalize(s)
  {
    assert ("\r\n" + s)[2..] == s;
    assert ("\n\r" + s)[2..] == s;
    assert ("\r" + s)[1..] == s;
  }

  /** A text without CR is left as it is. */
  lemma {:induction false} NormalizeNoCR(s: string)
    requires '\r' !in s
    ensures Normalize(s) == s
  {
    if |s| > 0 {
      assert '\r' !in s[1..];
      NormalizeNoCR(s[1..]);
    }
  }

  // ------------------------------------------------------------- the result

  /** An `SgfCollection`: root trees in an arena. */
  datatype Collection = Collection(arena: seq<TreeRec>, roots: seq<nat>)

  function ClearParents(a: seq<TreeRec>, ts: seq<nat>): (r: seq<TreeRec>)
    requires forall k :: 0 <= k < |ts| ==> ts[k] < |a|
    ensures |r| == |a|
    ensures forall u :: 0 <= u < |a| ==> r[u].nodes == a[u].nodes && r[u].children == a[u].children
    ensures forall u :: 0 <= u < |a| ==> r[u].parent == (if u in ts then None else a[u].parent)
  {
    if |ts| == 0 then a
    else var b := ClearParents(a, ts[1..]); b[ts[0] := b[ts[0]].(parent := None)]
  }

  /**
   * `currentTree.children.map { it.apply { parent = null } }`: the children
   * of the tree the scan ends in become root trees.
   */
  function Finish(s: Scan): (c: Collection)
    requires ScanOk(s)
    ensures c.roots == s.arena[s.cur].children
    ensures |c.arena| == |s.arena|
    ensures forall k :: 0 <= k < |c.roots| ==> s.cur < c.roots[k] < |c.arena| && c.arena[c.roots[k]].parent.None?
    ensures forall u :: 0 <= u < |c.arena| ==> c.arena[u].nodes == s.arena[u].nodes && c.arena[u].children == s.arena[u].children
    ensures WellFormedFrom(c.arena, s.cur + 1)
  {
    var ts := s.arena[s.cur].children;
    assert LinksOk(s.arena, s.cur);
    var a := ClearParents(s.arena, ts);
    forall t | s.cur + 1 <= t < |a|
      ensures LinksOk(a, t) && (a[t].parent.Some? ==> a[t].parent.value < t)
    {
      assert LinksOk(s.arena, t);
      forall j | 0 <= j < |a[t].children|
        ensures a[a[t].children[j]].parent == Some(t)
      {
        var ch := a[t].children[j];
        assert s.arena[ch].parent == Some(t);
        forall k | 0 <= k < |ts|
          ensures ts[k] != ch
        {
          assert s.arena[ts[k]].parent == Some(s.cur);
        }
      }
    }
    Collection(a, ts)
  }

  /**
   * The parser; `state` is an instance field that each call starts from and
   * leaves behind, so a text that ends inside a value makes the next call
   * start inside a value.
   */
  class Parser {
    var codec: Codec
    var state: ParseState

    constructor(codec: Codec)
      ensures this.codec == codec && state == EXPECT_ANYTHING
    {
      this.codec := codec;
      state := EXPECT_ANYTHING;
    }

    /** `parseSgfCollection`: the collection `Run` describes, and the state it ends in. */
    method ParseSgfCollection(sgf: string) returns (c: Collection)
      modifies this
      ensures codec == old(codec)
      ensures var s := Run(PropDecoder(codec), Initial(old(state)), Normalize(sgf)); c == Finish(s) && state == s.state
    {
      var text := Normalize(sgf);
      var s := Scanner(PropDecoder(codec), state, text);
      state := s.state;
      c := Finish(s);
    }
  }

  /**
   * The ']' branch of the loop: the decoding of the value and the attachment
   * of the result, on the scanner's variables.
   */
  method CloseValue(dec: Decoder, arena: seq<TreeRec>, cur: nat, ident: string, value: string, open: Option<OpenProp>)
    returns (arena': seq<TreeRec>, open': Option<OpenProp>)
    requires ScanOk(Scan(PARSE_PROPVALUE, arena, cur, ident, value, open))
    ensures Scan(EXPECT_ANYTHING, arena', cur, ident, value, open')
      == Close(dec, Scan(PARSE_PROPVALUE, arena, cur, ident, value, open))
  {
    arena', open' := arena, open;
    var prior := if open.Some? then Some(open.value.prop) else None;
    var decoded := dec(ident, value, prior);
    if decoded.Some? {
      var p := decoded.value;
      if open.None? {
        var nodes := arena[cur].nodes;
        if |nodes| == 0 {
          open' := Some(OpenProp(p, None));
        } else {
          var l := Loc(cur, |nodes| - 1, |nodes[|nodes| - 1]|);
          arena' := AppendProperty(arena, cur, p);
          open' := Some(OpenProp(p, Some(l)));
        }
      } else if Reused(ident, open.value.prop) && open.value.at.Some? {
        arena' := SetProperty(arena, open.value.at.value, p);
        open' := Some(OpenProp(p, open.value.at));
      } else {
        open' := Some(OpenProp(p, None));
      }
    }
  }

  /**
   * The `for` loop of `parseSgfCollection` over the normalised text, starting
   * from a fresh holder tree in the parser's state `state0`.
   */
  method Scanner(dec: Decoder, state0: ParseState, text: string) returns (s: Scan)
    ensures s == Run(dec, Initial(state0), text)
  {
    var state := state0;
    var arena := [TreeRec(None, [], [])];
    var cur: nat := 0;
    var ident := "";
    var value := "";
    var open: Option<OpenProp> := None;
    var i := 0;
    while i < |text|
      invariant 0 <= i <= |text|
      invariant Scan(state, arena, cur, ident, value, open) == Run(dec, Initial(state0), text[..i])
    {
      ghost var before := Scan(state, arena, cur, ident, value, open);
      var c := text[i];
      match state {
        case EXPECT_ANYTHING =>
          if c == '(' {
            arena := NewChild(arena, cur);
            cur := |arena| - 1;
          } else if c == ')' {
            if arena[cur].parent.Some? {
              cur := arena[cur].parent.value;
            }
          } else if c == ';' {
            arena := NewNode(arena, cur);
          } else if 'A' <= c <= 'Z' {
            ident := [c];
            open := None;
            state := PARSE_PROPIDENT;
          } else if c == '[' {
            value := "";
            state := PARSE_PROPVALUE;
          }
        case PARSE_PROPIDENT =>
          if 'A' <= c <= 'Z' {
            ident := ident + [c];
          } else if c == '[' {
            value := "";
            state := PARSE_PROPVALUE;
          }
        case PARSE_PROPVALUE =>
          if c == '\\' {
            state := ESCAPE;
          } else if c == ']' {
            arena, open := CloseValue(dec, arena, cur, ident, value, open);
            state := EXPECT_ANYTHING;
          } else {
            value := value + [c];
          }
        case ESCAPE =>
          if c != '\n' {
            value := value + [c];
          }
          state := PARSE_PROPVALUE;
      }
      assert Scan(state, arena, cur, ident, value, open) == Step(dec, before, c);
      assert text[..i + 1] == text[..i] + [c];
      i := i + 1;
    }
    assert text[..i] == text;
    s := Scan(state, arena, cur, ident, value, open);
  }
}
