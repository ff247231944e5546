/**
 * The value parsers of the SGF reader: emphasis, colour, number, real, text and
 * composed values, as the extension functions on strings at the end of
 * SgfParser.kt define them.
 */
module SgfValues {
  import opened Wrappers
  import opened SgfTree

  /** The range of a Kotlin `Int`. */
  const MinInt: int := -0x8000_0000
  const MaxInt: int := 0x7fff_ffff

  predicate IsDigit(c: char) { '0' <= c <= '9' }

  /** The characters of Java's `\s`: space, tab, newline, vertical tab, form feed, carriage return. */
  predicate IsWhitespace(c: char)
  {
    c == ' ' || c == '\t' || c == '\n' || c == '\U{0B}' || c == '\U{0C}' || c == '\r'
  }

  // ---------------------------------------------------------------- numbers

  /** The value of a non-empty string of decimal digits, most significant digit first. */
  function DigitsValue(s: string): (r: Option<nat>)
    ensures r.Some? <==> |s| > 0 && forall i :: 0 <= i < |s| ==> IsDigit(s[i])
  {
    if |s| == 0 || !IsDigit(s[|s| - 1]) then None
    else if |s| == 1 then Some(s[0] as int - '0' as int)
    else
      match DigitsValue(s[..|s| - 1])
      case None => None
      case Some(v) => Some(10 * v + (s[|s| - 1] as int - '0' as int))
  }

  /** Keeps a value only if it fits in a Kotlin `Int`. */
  function InIntRange(v: Option<int>): (r: Option<int>)
  {
    if v.Some? && MinInt <= v.value <= MaxInt then v else None
  }

  /**
   * Kotlin's `String.toIntOrNull()` for decimal text: an optional `+` or `-`,
   * then at least one digit, with the value inside Int's range.
   */
  function ToIntOrNull(s: string): (r: Option<int>)
    ensures r.Some? ==> MinInt <= r.value <= MaxInt
    ensures r.Some? ==> |s| > 0 && (IsDigit(s[0]) || s[0] == '-' || s[0] == '+')
    ensures r.Some? ==> forall i :: 0 < i < |s| ==> IsDigit(s[i])
  {
    if |s| == 0 then None
    else if s[0] < '0' then
      if |s| == 1 then None
      else if s[0] == '-' then InIntRange(Signed(true, DigitsValue(s[1..])))
      else if s[0] == '+' then InIntRange(Signed(false, DigitsValue(s[1..])))
      else None
    else InIntRange(Signed(false, DigitsValue(s)))
  }

  function Signed(negative: bool, v: Option<nat>): (r: Option<int>)
  {
    match v
    case None => None
    case Some(n) => Some(if negative then -(n as int) else n as int)
  }

  /** The decimal digits of `n`, without leading zeros. */
  function Decimal(n: nat): (r: string)
    ensures |r| > 0 && r[0] != '-' && r[0] != '+'
  {
    if n < 10 then [('0' as int + n) as char]
    else Decimal(n / 10) + [('0' as int + n % 10) as char]
  }

  /** The usual decimal rendering of an integer. */
  function IntDecimal(n: int): string
  {
    if n < 0 then "-" + Decimal(-n) else Decimal(n)
  }

  lemma {:induction false} DigitsValueOfDecimal(n: nat)
    ensures DigitsValue(Decimal(n)) == Some(n)
  {
    if n >= 10 {
      var d := Decimal(n / 10);
      DigitsValueOfDecimal(n / 10);
      assert Decimal(n)[..|Decimal(n)| - 1] == d;
    }
  }

  /** Every Int's decimal rendering reads back as that Int. */
  lemma ToIntOrNullRoundTrip(n: int)
    requires MinInt <= n <= MaxInt
    ensures ToIntOrNull(IntDecimal(n)) == Some(n)
  {
    if n < 0 {
      DigitsValueOfDecimal(-n);
      assert IntDecimal(n)[1..] == Decimal(-n);
    } else {
      DigitsValueOfDecimal(n);
    }
  }

  /** One past the largest Int does not read as a number (no wrap-around). */
  lemma ToIntOrNullOverflow()
    ensures ToIntOrNull(Decimal(MaxInt + 1)) == None
    ensures ToIntOrNull("-" + Decimal(-MinInt)) == Some(MinInt)
  {
    DigitsValueOfDecimal(MaxInt + 1);
    DigitsValueOfDecimal(-MinInt);
    assert ("-" + Decimal(-MinInt))[1..] == Decimal(-MinInt);
  }

  /** A leading plus sign is accepted and changes nothing. */
  lemma ToIntOrNullPlus(s: string)
    requires |s| > 0 && IsDigit(s[0])
    ensures ToIntOrNull("+" + s) == ToIntOrNull(s)
  {
    assert ("+" + s)[1..] == s;
  }

  /** `parseNumber`: an SGF Number is Kotlin's `toIntOrNull`. */
  function ParseNumber(s: string): (r: Option<int>)
    ensures r.Some? ==> MinInt <= r.value <= MaxInt
    ensures forall n :: MinInt <= n <= MaxInt && s == IntDecimal(n) ==> r == Some(n)
  {
    ToIntOrNullRoundTripAll();
    ToIntOrNull(s)
  }

  lemma ToIntOrNullRoundTripAll()
    ensures forall n :: MinInt <= n <= MaxInt ==> ToIntOrNull(IntDecimal(n)) == Some(n)
  {
    forall n | MinInt <= n <= MaxInt ensures ToIntOrNull(IntDecimal(n)) == Some(n) {
      ToIntOrNullRoundTrip(n);
    }
  }

  // ---------------------------------------------------- emphasis and colour

  /** `parseDouble`: "1" is emphasis, "2" strong emphasis, anything else is refused. */
  function ParseDouble(s: string): (r: Option<Emphasis>)
    ensures r == Some(MUCH) <==> s == "1"
    ensures r == Some(VERY_MUCH) <==> s == "2"
    ensures r.None? <==> s != "1" && s != "2"
  {
    match s
    case "1" => Some(MUCH)
    case "2" => Some(VERY_MUCH)
    case _ => None
  }

  /** `parseColor`: "B" is black, "W" white, anything else is refused. */
  function ParseColor(s: string): (r: Option<Color>)
    ensures r == Some(BLACK) <==> s == "B"
    ensures r == Some(WHITE) <==> s == "W"
    ensures r.None? <==> s != "B" && s != "W"
  {
    match s
    case "B" => Some(BLACK)
    case "W" => Some(WHITE)
    case _ => None
  }

  // --------------------------------------------------------------- reals

  /** Digits with at most one decimal point and at least one digit. */
  predicate DecimalNumeral(s: string)
  {
    && (exists i :: 0 <= i < |s| && IsDigit(s[i]))
    && (forall i :: 0 <= i < |s| ==> IsDigit(s[i]) || s[i] == '.')
    && (forall i, j :: 0 <= i < j < |s| && s[i] == '.' ==> s[j] != '.')
  }

  /** `parseReal`, for plain decimal numerals with an optional sign. */
  function ParseReal(s: string): (r: Option<Real>)
    ensures r.Some? ==> r.value.text == s && |s| > 0
  {
    if |s| > 0 && (s[0] == '+' || s[0] == '-') && DecimalNumeral(s[1..]) then Some(Real(s))
    else if DecimalNumeral(s) then Some(Real(s))
    else None
  }

  // ---------------------------------------------------------------- text

  /** `parseSimpleText`: every whitespace character becomes a space. */
  function ParseSimpleText(s: string): (r: string)
    ensures |r| == |s|
    ensures forall i :: 0 <= i < |s| ==> r[i] == if IsWhitespace(s[i]) then ' ' else s[i]
  {
    if |s| == 0 then ""
    else [if IsWhitespace(s[0]) then ' ' else s[0]] + ParseSimpleText(s[1..])
  }

  /** Simple text holds no line breaks and no whitespace other than spaces. */
  lemma SimpleTextHasNoLineBreaks(s: string)
    ensures forall i :: 0 <= i < |s| ==> !IsWhitespace(ParseSimpleText(s)[i]) || ParseSimpleText(s)[i] == ' '
    ensures '\n' !in ParseSimpleText(s)
  {
  }

  /**
   * `parseText` as written: the pattern `\s&&[^\n]` has no character class, so
   * it matches a whitespace character, two ampersands and one non-newline
   * character, and each such four-character run becomes one space.
   */
  function ParseTextAsWritten(s: string): (r: string)
    ensures |r| <= |s|
    ensures |s| < 4 ==> r == s
  {
    if |s| == 0 then ""
    else if |s| >= 4 && IsWhitespace(s[0]) && s[1] == '&' && s[2] == '&' && s[3] != '\n' then
      " " + ParseTextAsWritten(s[4..])
    else [s[0]] + ParseTextAsWritten(s[1..])
  }

  /** The pattern as written leaves a tab alone and swallows a run like " &&x". */
  lemma ParseTextAsWrittenKeepsTabs()
    ensures ParseTextAsWritten("a\tb") == "a\tb"
    ensures ParseTextAsWritten(" &&x") == " "
  {
  }

  /** `parseText` as intended: whitespace other than a newline becomes a space; newlines stay. */
  function ParseText(s: string): (r: string)
    ensures |r| == |s|
    ensures forall i :: 0 <= i < |s| ==>
      r[i] == if IsWhitespace(s[i]) && s[i] != '\n' then ' ' else s[i]
  {
    if |s| == 0 then ""
    else [if IsWhitespace(s[0]) && s[0] != '\n' then ' ' else s[0]] + ParseText(s[1..])
  }

  /** Text keeps its line breaks, and they are the only whitespace besides spaces. */
  lemma TextKeepsLineBreaks(s: string)
    ensures forall i :: 0 <= i < |s| ==> (ParseText(s)[i] == '\n' <==> s[i] == '\n')
    ensures forall i :: 0 <= i < |s| ==>
      IsWhitespace(ParseText(s)[i]) ==> ParseText(s)[i] == ' ' || ParseText(s)[i] == '\n'
  {
  }

  // ------------------------------------------------------------- composed

  /** Index of the first `c` in `s`, or -1 as Kotlin's `indexOf`. */
  function IndexOfChar(s: string, c: char): (r: int)
    ensures -1 <= r < |s|
    ensures r >= 0 ==> s[r] == c && c !in s[..r]
    ensures r == -1 <==> c !in s
  {
    if |s| == 0 then -1
    else if s[0] == c then 0
    else var k := IndexOfChar(s[1..], c); if k < 0 then -1 else (assert s[..k + 1] == [s[0]] + s[1..][..k]; k + 1)
  }

  /** Kotlin's `split(sep)`: all parts, including empty ones. */
  function Split(s: string, sep: char): (r: seq<string>)
    ensures |r| >= 1
    ensures sep !in s ==> r == [s]
    ensures sep in s ==> |r| >= 2 && r[0] == s[..IndexOfChar(s, sep)]
    ensures forall k :: 0 <= k < |r| ==> sep !in r[k]
    decreases |s|
  {
    var i := IndexOfChar(s, sep);
    if i < 0 then [s] else [s[..i]] + Split(s[i + 1..], sep)
  }

  /** Puts the parts back together with `sep` between them. */
  function Join(parts: seq<string>, sep: char): string
  {
    if |parts| == 0 then "" else if |parts| == 1 then parts[0]
    else parts[0] + [sep] + Join(parts[1..], sep)
  }

  /** Splitting loses nothing: joining the parts gives back the string. */
  lemma {:induction false} JoinSplit(s: string, sep: char)
    ensures Join(Split(s, sep), sep) == s
    decreases |s|
  {
    var i := IndexOfChar(s, sep);
    if i >= 0 {
      JoinSplit(s[i + 1..], sep);
      assert s == s[..i] + [sep] + s[i + 1..];
    }
  }

  /**
   * `parseCompose`: with a ':' the first two parts of the split are parsed by
   * `first` and `second`; without one the value is refused.
   */
  function ParseCompose<S, T>(s: string, first: string -> Option<S>, second: string -> Option<T>): (r: Option<(S, T)>)
    ensures ':' !in s ==> r.None?
    ensures r.Some? ==> first(Split(s, ':')[0]) == Some(r.value.0) && second(Split(s, ':')[1]) == Some(r.value.1)
  {
    if ':' in s then
      var parts := Split(s, ':');
      match (first(parts[0]), second(parts[1]))
      case (Some(x), Some(y)) => Some((x, y))
      case _ => None
    else None
  }

  /** Two separator-free parts joined by the separator split back into those parts. */
  lemma SplitTwo(a: string, b: string, sep: char)
    requires sep !in a && sep !in b
    ensures Split(a + [sep] + b, sep) == [a, b]
  {
    var s := a + [sep] + b;
    assert s[..|a|] == a;
    assert IndexOfChar(s, sep) == |a| by {
      var i := IndexOfChar(s, sep);
      assert i >= 0;
      assert s[..i + 1][i] == sep;
    }
    assert s[|a| + 1..] == b;
  }

  /** Two ':'-free components joined by ':' read back as the pair of their values. */
  lemma ComposeRoundTrip<S, T>(a: string, b: string, first: string -> Option<S>, second: string -> Option<T>, x: S, y: T)
    requires ':' !in a && ':' !in b
    requires first(a) == Some(x) && second(b) == Some(y)
    ensures ParseCompose(a + ":" + b, first, second) == Some((x, y))
  {
    SplitTwo(a, b, ':');
  }

  /** `parseNumberOrComposeNumber`: "n" stands for "n:n", as the SZ property wants. */
  function ParseNumberOrComposeNumber(s: string): (r: Option<(int, int)>)
    ensures ':' !in s ==> (r.Some? <==> ToIntOrNull(s).Some?)
    ensures ':' !in s && r.Some? ==> r.value.0 == r.value.1 == ToIntOrNull(s).value
    ensures ':' in s ==> r == ParseCompose(s, ParseNumber, ParseNumber)
  {
    if ':' in s then ParseCompose(s, ParseNumber, ParseNumber)
    else match ParseNumber(s) case Some(n) => Some((n, n)) case None => None
  }

  lemma SquareSize(n: int)
    requires MinInt <= n <= MaxInt
    ensures ParseNumberOrComposeNumber(IntDecimal(n)) == Some((n, n))
  {
    ToIntOrNullRoundTrip(n);
    DecimalCharacters(n);
  }

  /** A decimal rendering holds digits and at most a leading minus sign. */
  lemma DecimalCharacters(n: int)
    ensures forall i :: 0 <= i < |IntDecimal(n)| ==> IsDigit(IntDecimal(n)[i]) || (i == 0 && IntDecimal(n)[i] == '-')
  {
    var m: nat := if n < 0 then -n else n;
    DigitsValueOfDecimal(m);
    if n < 0 {
      forall i | 0 < i < |IntDecimal(n)| ensures IsDigit(IntDecimal(n)[i]) {
        assert IntDecimal(n)[i] == Decimal(m)[i - 1];
      }
    }
  }
}
