/**
 * The chess coordinate parser of the chess plug-in: a square is a column
 * letter and a row number ("e4"), a stone a piece letter and a square
 * ("Pe2"), a move a stone and a target ("Pe2:e4") or one of the special forms
 * for castling, promotion and en passant.
 */
module ChessParse {
  import opened Wrappers
  import opened SgfTree
  import opened SgfValues

  /** `parsePoint`: the column is the letter's place in 'a'..'z' plus one (0 for any other character). */
  function ParsePoint(s: string): (r: Option<XYPoint>)
    ensures r.Some? <==> |s| > 0 && ToIntOrNull(s[1..]).Some?
    ensures r.Some? ==> r.value.y == ToIntOrNull(s[1..]).value
    ensures r.Some? && 'a' <= s[0] <= 'z' ==> r.value.x == s[0] as int - 'a' as int + 1
    ensures r.Some? && !('a' <= s[0] <= 'z') ==> r.value.x == 0
  {
    if |s| == 0 then None
    else
      match ToIntOrNull(s[1..])
      case Some(row) => Some(XYPoint(ColumnIndex(s[0]) + 1, row))
      case None => None
  }

  /** Kotlin's `('a'..'z').indexOf(c)`. */
  function ColumnIndex(c: char): int
  {
    if 'a' <= c <= 'z' then c as int - 'a' as int else -1
  }

  /** `toChessStoneType`: the piece letters K, Q, R, B, N and P. */
  function ToChessStoneType(c: char): (r: Option<ChessStoneType>)
    ensures r.Some? <==> c in "KQRBNP"
  {
    match c
    case 'K' => Some(KING)
    case 'Q' => Some(QUEEN)
    case 'R' => Some(ROOK)
    case 'B' => Some(BISHOP)
    case 'N' => Some(KNIGHT)
    case 'P' => Some(PAWN)
    case _ => None
  }

  /** The letter of a piece type, the inverse of `ToChessStoneType`. */
  function TypeLetter(k: ChessStoneType): (c: char)
    ensures ToChessStoneType(c) == Some(k)
  {
    match k
    case KING => 'K'
    case QUEEN => 'Q'
    case ROOK => 'R'
    case BISHOP => 'B'
    case KNIGHT => 'N'
    case PAWN => 'P'
  }

  /** `parseStone` as the piece type and square it names. */
  function ParseChessStone(s: string): (r: Option<(ChessStoneType, XYPoint)>)
    ensures r.Some? <==> |s| > 0 && ToChessStoneType(s[0]).Some? && ParsePoint(s[1..]).Some?
    ensures r.Some? ==> r.value == (ToChessStoneType(s[0]).value, ParsePoint(s[1..]).value)
  {
    if |s| == 0 then None
    else
      match (ToChessStoneType(s[0]), ParsePoint(s[1..]))
      case (Some(k), Some(p)) => Some((k, p))
      case _ => None
  }

  /** `parseStone`. */
  function ParseStone(s: string): (r: Option<Stone>)
    ensures r.Some? <==> ParseChessStone(s).Some?
    ensures r.Some? ==> r.value == ChessStone(ParseChessStone(s).value.0, ParseChessStone(s).value.1)
  {
    match ParseChessStone(s)
    case Some((k, p)) => Some(ChessStone(k, p))
    case None => None
  }

  /** Kotlin's `String.contains(other)` for a substring. */
  function ContainsText(s: string, t: string): bool
    decreases |s|
  {
    if |t| > |s| then false
    else if s[..|t|] == t then true
    else if |s| == 0 then false
    else ContainsText(s[1..], t)
  }

  /** A text without a '.' does not contain "e.p.". */
  lemma {:induction false} NoEnPassantMark(s: string)
    requires '.' !in s
    ensures !ContainsText(s, "e.p.")
    decreases |s|
  {
    if |s| >= 4 {
      assert s[..4][1] == s[1];
      NoEnPassantMark(s[1..]);
    }
  }

  /** `parseStandardMove`: a stone and a target square joined by ':'. */
  function ParseStandardMove(s: string): (r: Option<Move>)
    ensures r.Some? ==> r.value.StandardChessMove?
  {
    match ParseCompose(s, ParseChessStone, ParsePoint)
    case Some(((k, from), to)) => Some(StandardChessMove(k, from, to))
    case None => None
  }

  /** Kotlin's `dropLast(n)`. */
  function DropLast(s: string, n: nat): string
  {
    s[..if |s| >= n then |s| - n else 0]
  }

  /** `parseMove`: castling, promotion, en passant or a standard move; anything unreadable is a pass. */
  function ParseMove(s: string): (r: Move)
    ensures s == "0-0" ==> r == CastlingMove(false)
    ensures s == "0-0-0" ==> r == CastlingMove(true)
    ensures r.XYMove? == false
  {
    if s == "0-0" then CastlingMove(false)
    else if s == "0-0-0" then CastlingMove(true)
    else if '=' in s then
      var parts := Split(s, '=');
      match (ParseStandardMove(parts[0]), if |parts[1]| > 0 then ToChessStoneType(parts[1][0]) else None)
      case (Some(StandardChessMove(k, from, to)), Some(promoted)) => PromotionMove(k, from, to, promoted)
      case _ => ChessPass
    else if ContainsText(s, "e.p.") then
      match ParseStandardMove(DropLast(s, 4))
      case Some(StandardChessMove(k, from, to)) => EnPassantMove(k, from, to)
      case _ => ChessPass
    else
      match ParseStandardMove(s)
      case Some(m) => m
      case None => ChessPass
  }

  /**
   * When `parseMove` falls back to a pass: neither castling text, and the branch the
   * text selects (promotion, en passant or standard) fails to read its move.
   */
  lemma ParseMovePass(s: string)
    ensures ParseMove(s) == ChessPass <==>
      && s != "0-0" && s != "0-0-0"
      && if '=' in s then
           var parts := Split(s, '=');
           ParseStandardMove(parts[0]).None? || |parts[1]| == 0 || ToChessStoneType(parts[1][0]).None?
         else if ContainsText(s, "e.p.") then ParseStandardMove(DropLast(s, 4)).None?
         else ParseStandardMove(s).None?
  {
  }

  /** Text without a ':' names no square pair, so apart from castling it is a pass. */
  lemma NoColonIsPass(s: string)
    requires s != "0-0" && s != "0-0-0" && ':' !in s
    ensures ParseMove(s) == ChessPass
  {
    if '=' in s {
      var parts := Split(s, '=');
      assert parts[0] == s[..IndexOfChar(s, '=')];
      assert ':' !in parts[0] by {
        forall k | 0 <= k < |parts[0]| ensures parts[0][k] != ':' { assert parts[0][k] == s[k]; }
      }
    } else if ContainsText(s, "e.p.") {
      var t := DropLast(s, 4);
      assert ':' !in t by {
        forall k | 0 <= k < |t| ensures t[k] != ':' { assert t[k] == s[k]; }
      }
    }
  }

  /** The name of a square: its column letter and row number. */
  function SquareName(p: XYPoint): string
    requires 1 <= p.x <= 26
  {
    [('a' as int + p.x - 1) as char] + IntDecimal(p.y)
  }

  /** The text of a standard move of piece `k` from `from` to `to`. */
  function StandardMoveText(k: ChessStoneType, from: XYPoint, to: XYPoint): string
    requires 1 <= from.x <= 26 && 1 <= to.x <= 26
  {
    [TypeLetter(k)] + SquareName(from) + ":" + SquareName(to)
  }

  lemma ParseSquareName(p: XYPoint)
    requires 1 <= p.x <= 26 && MinInt <= p.y <= MaxInt
    ensures ParsePoint(SquareName(p)) == Some(p)
    ensures ':' !in SquareName(p) && '=' !in SquareName(p) && '.' !in SquareName(p)
  {
    assert SquareName(p)[1..] == IntDecimal(p.y);
    ToIntOrNullRoundTrip(p.y);
    DecimalCharacters(p.y);
    forall i | 0 < i < |SquareName(p)| ensures SquareName(p)[i] == IntDecimal(p.y)[i - 1] {}
  }

  /** The text of a stone: a piece letter and a square name, with no separator in it. */
  lemma StoneTextFacts(k: ChessStoneType, from: XYPoint)
    requires 1 <= from.x <= 26 && MinInt <= from.y <= MaxInt
    ensures var a := [TypeLetter(k)] + SquareName(from);
      && ParseChessStone(a) == Some((k, from))
      && ':' !in a && '=' !in a && '.' !in a
  {
    var a := [TypeLetter(k)] + SquareName(from);
    ParseSquareName(from);
    assert a[1..] == SquareName(from);
    assert a == [TypeLetter(k)] + a[1..];
  }

  /** What the text of a standard move is made of. */
  lemma StandardMoveTextFacts(k: ChessStoneType, from: XYPoint, to: XYPoint)
    requires 1 <= from.x <= 26 && 1 <= to.x <= 26
    requires MinInt <= from.y <= MaxInt && MinInt <= to.y <= MaxInt
    ensures ParseStandardMove(StandardMoveText(k, from, to)) == Some(StandardChessMove(k, from, to))
    ensures '=' !in StandardMoveText(k, from, to) && '.' !in StandardMoveText(k, from, to)
    ensures StandardMoveText(k, from, to)[0] == TypeLetter(k)
  {
    var a := [TypeLetter(k)] + SquareName(from);
    var b := SquareName(to);
    assert StandardMoveText(k, from, to) == a + ":" + b;
    StoneTextFacts(k, from);
    ParseSquareName(to);
    ComposeRoundTrip(a, b, ParseChessStone, ParsePoint, (k, from), to);
  }

  /** A standard move written out reads back as that move. */
  lemma StandardMoveRoundTrip(k: ChessStoneType, from: XYPoint, to: XYPoint)
    requires 1 <= from.x <= 26 && 1 <= to.x <= 26
    requires MinInt <= from.y <= MaxInt && MinInt <= to.y <= MaxInt
    ensures ParseMove(StandardMoveText(k, from, to)) == StandardChessMove(k, from, to)
  {
    var s := StandardMoveText(k, from, to);
    StandardMoveTextFacts(k, from, to);
    assert s != "0-0" && s != "0-0-0" by { assert s[0] == TypeLetter(k); }
    NoEnPassantMark(s);
  }

  /** A promotion: a standard move, '=' and the letter of the new piece. */
  lemma PromotionRoundTrip(k: ChessStoneType, from: XYPoint, to: XYPoint, promoted: ChessStoneType)
    requires 1 <= from.x <= 26 && 1 <= to.x <= 26
    requires MinInt <= from.y <= MaxInt && MinInt <= to.y <= MaxInt
    ensures ParseMove(StandardMoveText(k, from, to) + "=" + [TypeLetter(promoted)])
      == PromotionMove(k, from, to, promoted)
  {
    var t := StandardMoveText(k, from, to);
    var s := t + "=" + [TypeLetter(promoted)];
    StandardMoveTextFacts(k, from, to);
    assert s[|t|] == '=';
    assert s != "0-0" && s != "0-0-0" by { assert s[0] == TypeLetter(k); }
    SplitTwo(t, [TypeLetter(promoted)], '=');
  }

  /** En passant: a standard move followed by "e.p.". */
  lemma EnPassantRoundTrip(k: ChessStoneType, from: XYPoint, to: XYPoint)
    requires 1 <= from.x <= 26 && 1 <= to.x <= 26
    requires MinInt <= from.y <= MaxInt && MinInt <= to.y <= MaxInt
    ensures ParseMove(StandardMoveText(k, from, to) + "e.p.") == EnPassantMove(k, from, to)
  {
    var t := StandardMoveText(k, from, to);
    var s := t + "e.p.";
    StandardMoveTextFacts(k, from, to);
    assert s != "0-0" && s != "0-0-0" by { assert s[0] == TypeLetter(k); }
    assert '=' !in s by {
      forall i | 0 <= i < |s| ensures s[i] != '=' {
        if i >= |t| { assert s[i] == "e.p."[i - |t|]; }
      }
    }
    ContainsSuffix(t, "e.p.");
    assert DropLast(s, 4) == t;
  }

  lemma {:induction false} ContainsSuffix(u: string, t: string)
    ensures ContainsText(u + t, t)
    decreases |u|
  {
    if |u| > 0 && (u + t)[..|t|] != t {
      assert (u + t)[1..] == u[1..] + t;
      ContainsSuffix(u[1..], t);
    } else if |u| == 0 {
      assert (u + t)[..|t|] == t;
    }
  }

  /** The points (x, y2 down to y1). */
  function ColumnDown(x: int, y1: int, y2: int): seq<XYPoint>
    decreases y2 - y1
  {
    if y1 > y2 then [] else [XYPoint(x, y2)] + ColumnDown(x, y1, y2 - 1)
  }

  function ColumnsDown(x1: int, x2: int, y1: int, y2: int): seq<XYPoint>
    decreases x2 - x1
  {
    if x1 > x2 then [] else ColumnDown(x1, y1, y2) + ColumnsDown(x1 + 1, x2, y1, y2)
  }

  /** `rangeTo`: the rectangle column by column, each column from row `q.y` down to row `p.y`. */
  function RangeTo(p: XYPoint, q: XYPoint): seq<XYPoint>
  {
    ColumnsDown(p.x, q.x, p.y, q.y)
  }

  lemma {:induction false} ColumnDownMember(x: int, y1: int, y2: int, pt: XYPoint)
    ensures pt in ColumnDown(x, y1, y2) <==> pt.x == x && y1 <= pt.y <= y2
    decreases y2 - y1
  {
    if y1 <= y2 { ColumnDownMember(x, y1, y2 - 1, pt); }
  }

  lemma {:induction false} ColumnsDownMember(x1: int, x2: int, y1: int, y2: int, pt: XYPoint)
    ensures pt in ColumnsDown(x1, x2, y1, y2) <==> x1 <= pt.x <= x2 && y1 <= pt.y <= y2
    decreases x2 - x1
  {
    if x1 <= x2 {
      ColumnDownMember(x1, y1, y2, pt);
      ColumnsDownMember(x1 + 1, x2, y1, y2, pt);
    }
  }

  /** The chess range holds exactly the points of the rectangle. */
  lemma RangeToMembers(p: XYPoint, q: XYPoint)
    ensures forall pt :: pt in RangeTo(p, q) <==> p.x <= pt.x <= q.x && p.y <= pt.y <= q.y
    ensures q.x < p.x || q.y < p.y ==> RangeTo(p, q) == []
  {
    forall pt ensures pt in RangeTo(p, q) <==> p.x <= pt.x <= q.x && p.y <= pt.y <= q.y {
      ColumnsDownMember(p.x, q.x, p.y, q.y, pt);
    }
    if (q.x < p.x || q.y < p.y) && RangeTo(p, q) != [] {
      ColumnsDownMember(p.x, q.x, p.y, q.y, RangeTo(p, q)[0]);
    }
  }

  /** Within a column the chess range runs from the higher row number down. */
  lemma ColumnDownOrder(x: int, y1: int, y2: int)
    requires y1 <= y2 + 1
    ensures |ColumnDown(x, y1, y2)| == y2 - y1 + 1
    ensures forall j :: 0 <= j < |ColumnDown(x, y1, y2)| ==> ColumnDown(x, y1, y2)[j] == XYPoint(x, y2 - j)
    decreases y2 - y1
  {
    if y1 <= y2 { ColumnDownOrder(x, y1, y2 - 1); }
  }

  /**
   * The chess range runs column by column with the column number ascending, and from the
   * higher row down within a column: of two positions, the earlier has the smaller column,
   * or the same column and the larger row.
   */
  lemma {:induction false} ColumnsAscending(x1: int, x2: int, y1: int, y2: int)
    ensures forall i, j :: 0 <= i < j < |ColumnsDown(x1, x2, y1, y2)| ==>
      var r := ColumnsDown(x1, x2, y1, y2);
      r[i].x < r[j].x || (r[i].x == r[j].x && r[i].y > r[j].y)
    decreases x2 - x1
  {
    if x1 <= x2 {
      var d, rest := ColumnDown(x1, y1, y2), ColumnsDown(x1 + 1, x2, y1, y2);
      var r := ColumnsDown(x1, x2, y1, y2);
      assert r == d + rest;
      ColumnsAscending(x1 + 1, x2, y1, y2);
      if y1 <= y2 + 1 { ColumnDownOrder(x1, y1, y2); } else { assert d == []; }
      forall k | 0 <= k < |rest| ensures rest[k].x > x1 {
        ColumnsDownMember(x1 + 1, x2, y1, y2, rest[k]);
      }
      forall i, j | 0 <= i < j < |r| ensures r[i].x < r[j].x || (r[i].x == r[j].x && r[i].y > r[j].y) {
        if j < |d| {
          assert r[i] == d[i] && r[j] == d[j];
        } else if i < |d| {
          assert r[i] == d[i] && r[j] == rest[j - |d|];
        } else {
          assert r[i] == rest[i - |d|] && r[j] == rest[j - |d|];
        }
      }
    }
  }

  /** `rangeTo` runs x ascending and, within a column, y descending. */
  lemma RangeToOrder(p: XYPoint, q: XYPoint)
    ensures forall i, j :: 0 <= i < j < |RangeTo(p, q)| ==>
      RangeTo(p, q)[i].x < RangeTo(p, q)[j].x || (RangeTo(p, q)[i].x == RangeTo(p, q)[j].x && RangeTo(p, q)[i].y > RangeTo(p, q)[j].y)
  {
    ColumnsAscending(p.x, q.x, p.y, q.y);
  }
}
