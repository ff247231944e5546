/**
 * The Go coordinate parser: a point is two letters, column then row, each
 * letter standing for a number from 1 on ('a'..'z' first, then 'A'..'Z').
 */
module GoCoordinates {
  import opened Wrappers
  import opened SgfTree

  /** The number of letters in 'a'..'z'. */
  const LowerCount: int := 26

  /**
   * `getInt` as written: an upper-case letter is its index plus the number of
   * lower-case letters, so 'A' is 26 like 'z' and 'Z' is only 51.
   */
  function GetIntAsWritten(c: char): (r: Option<int>)
    ensures r.Some? <==> 'a' <= c <= 'z' || 'A' <= c <= 'Z'
  {
    if 'a' <= c <= 'z' then Some(c as int - 'a' as int + 1)
    else if 'A' <= c <= 'Z' then Some(c as int - 'A' as int + LowerCount)
    else None
  }

  /** As written, 'A' and 'z' read as the same coordinate. */
  lemma GetIntAsWrittenCollides()
    ensures GetIntAsWritten('z') == GetIntAsWritten('A') == Some(26)
    ensures ParsePointAsWritten("zA") == ParsePointAsWritten("Az") == Some(XYPoint(26, 26))
  {
    assert GetIntAsWritten('z') == Some(26);
    assert GetIntAsWritten('A') == Some(26);
    assert ParseXYCoordinateAsWritten("zA") == Some((26, 26));
    assert ParseXYCoordinateAsWritten("Az") == Some((26, 26));
  }

  /** `getInt` as intended: 'a'..'z' are 1..26 and 'A'..'Z' are 27..52. */
  function GetInt(c: char): (r: Option<int>)
    ensures 'a' <= c <= 'z' ==> r == Some(c as int - 'a' as int + 1)
    ensures 'A' <= c <= 'Z' ==> r == Some(c as int - 'A' as int + 27)
    ensures r.Some? <==> 'a' <= c <= 'z' || 'A' <= c <= 'Z'
  {
    if 'a' <= c <= 'z' then Some(c as int - 'a' as int + 1)
    else if 'A' <= c <= 'Z' then Some(c as int - 'A' as int + LowerCount + 1)
    else None
  }

  /** The letter naming coordinate `n`, the inverse of `GetInt`. */
  function Letter(n: int): (c: char)
    requires 1 <= n <= 52
  {
    if n <= 26 then ('a' as int + n - 1) as char else ('A' as int + n - 27) as char
  }

  /** Every coordinate 1..52 has exactly one letter. */
  lemma GetIntLetter(n: int, c: char)
    requires 1 <= n <= 52
    ensures GetInt(Letter(n)) == Some(n)
    ensures GetInt(c) == Some(n) ==> c == Letter(n)
  {
  }

  /** `parseXYCoordinate`: the first two characters as (column, row). */
  function ParseXYCoordinateAsWritten(s: string): (r: Option<(int, int)>)
    ensures r.Some? <==> |s| >= 2 && GetIntAsWritten(s[0]).Some? && GetIntAsWritten(s[1]).Some?
  {
    if |s| >= 1 && GetIntAsWritten(s[0]).Some? && |s| >= 2 && GetIntAsWritten(s[1]).Some? then
      Some((GetIntAsWritten(s[0]).value, GetIntAsWritten(s[1]).value))
    else None
  }

  function ParsePointAsWritten(s: string): Option<XYPoint>
  {
    match ParseXYCoordinateAsWritten(s)
    case Some((x, y)) => Some(XYPoint(x, y))
    case None => None
  }

  /** `parseXYCoordinate` with the intended letter values. */
  function ParseXYCoordinate(s: string): (r: Option<(int, int)>)
    ensures r.Some? <==> |s| >= 2 && GetInt(s[0]).Some? && GetInt(s[1]).Some?
    ensures r.Some? ==> 1 <= r.value.0 <= 52 && 1 <= r.value.1 <= 52
  {
    if |s| >= 1 && GetInt(s[0]).Some? && |s| >= 2 && GetInt(s[1]).Some? then
      Some((GetInt(s[0]).value, GetInt(s[1]).value))
    else None
  }

  /** The two-letter name of a point. */
  function PointName(p: XYPoint): string
    requires 1 <= p.x <= 52 && 1 <= p.y <= 52
  {
    [Letter(p.x), Letter(p.y)]
  }

  /** Naming a point and reading the name back gives the point; trailing text is ignored. */
  lemma ParsePointName(p: XYPoint, rest: string)
    requires 1 <= p.x <= 52 && 1 <= p.y <= 52
    ensures ParsePoint(PointName(p) + rest) == Some(p)
  {
    GetIntLetter(p.x, ' ');
    GetIntLetter(p.y, ' ');
  }

  /** Only the first two characters of a coordinate are read. */
  lemma ParsePointPrefix(s: string, rest: string)
    requires |s| >= 2
    ensures ParsePoint(s + rest) == ParsePoint(s)
  {
    assert (s + rest)[0] == s[0] && (s + rest)[1] == s[1];
  }

  function ParsePoint(s: string): (r: Option<XYPoint>)
    ensures r.Some? <==> ParseXYCoordinate(s).Some?
  {
    match ParseXYCoordinate(s)
    case Some((x, y)) => Some(XYPoint(x, y))
    case None => None
  }

  /** `parseStone`: the same coordinates as a stone. */
  function ParseStone(s: string): (r: Option<Stone>)
    ensures r.Some? <==> ParsePoint(s).Some?
    ensures r.Some? ==> r.value == XYStone(ParsePoint(s).value)
  {
    match ParseXYCoordinate(s)
    case Some((x, y)) => Some(XYStone(XYPoint(x, y)))
    case None => None
  }

  /** `parseMove`: an unreadable move is a pass, a move without a point. */
  function ParseMove(s: string): (r: Move)
    ensures r.XYMove? && r.target == ParsePoint(s)
  {
    match ParseXYCoordinate(s)
    case Some((x, y)) => XYMove(Some(XYPoint(x, y)))
    case None => XYMove(None)
  }

  /** The points (x, y1..y2), top to bottom. */
  function Column(x: int, y1: int, y2: int): (r: seq<XYPoint>)
    decreases y2 - y1
  {
    if y1 > y2 then [] else [XYPoint(x, y1)] + Column(x, y1 + 1, y2)
  }

  /** The columns x1..x2 of rows y1..y2, left to right. */
  function Columns(x1: int, x2: int, y1: int, y2: int): (r: seq<XYPoint>)
    decreases x2 - x1
  {
    if x1 > x2 then [] else Column(x1, y1, y2) + Columns(x1 + 1, x2, y1, y2)
  }

  /** `rangeTo`: the rectangle from `p` (upper left) to `q` (lower right), column by column. */
  function RangeTo(p: XYPoint, q: XYPoint): seq<XYPoint>
  {
    Columns(p.x, q.x, p.y, q.y)
  }

  lemma {:induction false} ColumnAt(x: int, y1: int, y2: int)
    requires y1 <= y2 + 1
    ensures |Column(x, y1, y2)| == y2 - y1 + 1
    ensures forall j :: 0 <= j < |Column(x, y1, y2)| ==> Column(x, y1, y2)[j] == XYPoint(x, y1 + j)
    decreases y2 - y1
  {
    if y1 <= y2 { ColumnAt(x, y1 + 1, y2); }
  }

  /** `i` columns of height `h`, counted without multiplying. */
  function Offset(i: nat, h: nat): nat
  {
    if i == 0 then 0 else Offset(i - 1, h) + h
  }

  lemma {:induction false} OffsetIsProduct(i: nat, h: nat)
    ensures Offset(i, h) == i * h
  {
    if i > 0 {
      OffsetIsProduct(i - 1, h);
      MulSucc(i - 1, h);
    }
  }

  lemma MulSucc(a: int, h: int)
    ensures (a + 1) * h == a * h + h
  {
  }

  lemma {:induction false} ColumnsLength(x1: int, x2: int, y1: int, y2: int)
    requires x1 <= x2 + 1 && y1 <= y2 + 1
    ensures |Columns(x1, x2, y1, y2)| == Offset(x2 - x1 + 1, y2 - y1 + 1)
    decreases x2 - x1
  {
    ColumnAt(x1, y1, y2);
    if x1 <= x2 {
      ColumnsLength(x1 + 1, x2, y1, y2);
    }
  }

  lemma {:induction false} ColumnsOffsetAt(x1: int, x2: int, y1: int, y2: int, i: nat, j: int)
    requires y1 <= y2 + 1
    requires i <= x2 - x1 && 0 <= j <= y2 - y1
    ensures Offset(i, y2 - y1 + 1) + j < |Columns(x1, x2, y1, y2)|
    ensures Columns(x1, x2, y1, y2)[Offset(i, y2 - y1 + 1) + j] == XYPoint(x1 + i, y1 + j)
    decreases x2 - x1
  {
    var h := y2 - y1 + 1;
    ColumnAt(x1, y1, y2);
    var rest := Columns(x1 + 1, x2, y1, y2);
    assert Columns(x1, x2, y1, y2) == Column(x1, y1, y2) + rest;
    if i > 0 {
      ColumnsOffsetAt(x1 + 1, x2, y1, y2, i - 1, j);
    }
  }

  lemma {:induction false} ColumnMember(x: int, y1: int, y2: int, pt: XYPoint)
    ensures pt in Column(x, y1, y2) <==> pt.x == x && y1 <= pt.y <= y2
    decreases y2 - y1
  {
    if y1 <= y2 { ColumnMember(x, y1 + 1, y2, pt); }
  }

  lemma {:induction false} ColumnsMember(x1: int, x2: int, y1: int, y2: int, pt: XYPoint)
    ensures pt in Columns(x1, x2, y1, y2) <==> x1 <= pt.x <= x2 && y1 <= pt.y <= y2
    decreases x2 - x1
  {
    if x1 <= x2 {
      ColumnMember(x1, y1, y2, pt);
      ColumnsMember(x1 + 1, x2, y1, y2, pt);
    }
  }

  /** The range holds exactly the points of the rectangle; it is empty when the rectangle is. */
  lemma RangeToMembers(p: XYPoint, q: XYPoint)
    ensures forall pt :: pt in RangeTo(p, q) <==> p.x <= pt.x <= q.x && p.y <= pt.y <= q.y
    ensures q.x < p.x || q.y < p.y ==> RangeTo(p, q) == []
  {
    forall pt ensures pt in RangeTo(p, q) <==> p.x <= pt.x <= q.x && p.y <= pt.y <= q.y {
      ColumnsMember(p.x, q.x, p.y, q.y, pt);
    }
    if (q.x < p.x || q.y < p.y) && RangeTo(p, q) != [] {
      ColumnsMember(p.x, q.x, p.y, q.y, RangeTo(p, q)[0]);
    }
  }

  /**
   * The range lists each point of a non-empty rectangle once, column by column
   * and top to bottom within a column.
   */
  lemma RangeToOrder(p: XYPoint, q: XYPoint)
    requires p.x <= q.x && p.y <= q.y
    ensures |RangeTo(p, q)| == (q.x - p.x + 1) * (q.y - p.y + 1)
    ensures forall k :: 0 <= k < |RangeTo(p, q)| ==>
      RangeTo(p, q)[k] == XYPoint(p.x + k / (q.y - p.y + 1), p.y + k % (q.y - p.y + 1))
  {
    var w, h := q.x - p.x + 1, q.y - p.y + 1;
    ColumnsLength(p.x, q.x, p.y, q.y);
    OffsetIsProduct(w, h);
    forall k | 0 <= k < |RangeTo(p, q)|
      ensures RangeTo(p, q)[k] == XYPoint(p.x + k / h, p.y + k % h)
    {
      DivideIndex(k, w, h);
      OffsetIsProduct(k / h, h);
      ColumnsOffsetAt(p.x, q.x, p.y, q.y, k / h, k % h);
    }
  }

  /** Splitting an index below w * h into its column and row. */
  lemma DivideIndex(k: int, w: int, h: int)
    requires h > 0 && 0 <= k < w * h
    ensures 0 <= k / h < w && 0 <= k % h < h
    ensures k == (k / h) * h + k % h
  {
    var i := k / h;
    if i >= w {
      MultiplyMonotone(w, i, h);
    }
  }

  lemma MultiplyMonotone(a: int, b: int, h: int)
    requires a <= b && h > 0
    ensures a * h <= b * h
  {
  }
}
