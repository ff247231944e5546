# sgfcharm engine in Dafny

This project models the non-UI engine of **sgfcharm** and its chess plug-in, and proves properties of that model. sgfcharm is a Kotlin library that reads and plays back Smart Game Format (SGF, FF[4]) game records.

- **Parsing.** The parser reads SGF text one character at a time. It is a scanner with four states (`EXPECT_ANYTHING`, `PARSE_PROPIDENT`, `PARSE_PROPVALUE`, `ESCAPE`). It builds a collection of game trees whose nodes hold typed properties.
- **Coordinates.** The Go coordinate parser decodes points written as two letters and expands compressed point lists (`aa:cc`).
- **Navigation.** The navigator moves a cursor forward and back through a tree. It lists the variations at the cursor. It also splices a *user branch* into the tree and takes it out again; a user branch is a variation created when the user plays a move the record does not contain.
- **Board state.** `SgfState` keeps one list of piece changes per node of the current path. From these it can step back exactly two nodes. It also keeps the move counters and prisoner counts, and markup that persists from node to node (*sticky* markup).
- **Go moves.** The Go move handler places a stone, finds groups without liberties by a depth-first search, and removes captured groups and suicides.
- **Node handling.** The node handler folds one node's properties into the state.
- **Controller.** The controller couples navigation with processing: undo, redo, playing a move and loading a record at a saved position.
- **Chess plug-in.** The chess coordinate parser and the chess move and custom-property handlers are the second game strategy.

How the model is built:

- **Trees** are an arena: a `seq<TreeRec>` whose records hold their parent and children as indices (module `SgfTree`).
- **Pure code becomes functions.** The value parsers, the property decoder, both coordinate parsers and the chess parser are functions with contracts and lemmas.
- **Imperative code becomes classes.** The parser, the navigator, the board state, the node handler and the controller are classes whose fields are those of the Kotlin classes. Every method that changes state is proved equal to a pure function of the old state, for example `ensures Value() == BoardState.InitStep(old(Value()))`. The properties the source promises are then proved as lemmas about those functions.
- **Loops stay loops.** `parseSgfCollection`'s character loop, `goToIndices`'s descent, `currentIndices`'s ascent and `markupVariations`'s placement loop are `while`/`for` loops with invariants.
- **No global variables.** The Go capture search's module-level `board`/`alreadyChecked` are passed as explicit arguments.
- **Registered strategies are closed datatypes.** The strategies registered with the node handler's companion object are `MoveHandlerKind` (Go or chess) and `CustomHandlerKind` (none or chess).

The model follows the code, including where the code and its documentation disagree, with one exception: at the four defects listed under "## Findings" the code as written is modelled by its own member (`...AsWritten`) with a lemma showing the defect, and the main pipeline composes the corrected member instead. So `GoCoordinates.ParseXYCoordinate` and the Go parsers built on it read `A`..`Z` as 27..52; `SgfProperties.ParseKnown` turns every whitespace character except line feed in `C`/`GC` text into a space; `NodeHandler.HandleProperty` reports `GB` under its own key; and `ChessHandle.MoveHandler` performs short castling correctly. Everything composed from these (the parser with the Go codec, the node handler, the controller) models the corrected program at those four points and the code elsewhere. Apart from these four points:

- **Repeated scalar values keep the first.** A repeated value of a scalar property (`B[aa][bb]`) keeps the FIRST value, because the second decoded object is never attached to the node (`SgfParser.ScalarKeepsFirst`).
- **Parser state persists.** The parser's `state` field is never reset between calls. `Parser.ParseSgfCollection` starts from whatever state the previous call left.
- **Four-field `MoveInfo`.** `MoveInfo` has four fields (move number, last colour, last move, prisoners), as `SgfState.addMoveInfo` and the Go move handler use it. The three-field declaration in `SgfData.kt` is stale; only the older handler in `Handlers.kt` uses it (`GoMoveHandler.LegacyMoveAgrees`).
- **The navigator receives a parsed tree.** `SgfNavigator`'s constructor takes a string, but the controller hands it a parsed tree, so the navigator class is built over a given arena and root.

## Model

Functions that only compute are listed through the lemmas and methods whose contracts specify them, which cite the same source lines; a function appears under its own name only where its own `ensures` states something.

| member | source | states |
|---|---|---|
| SgfTree.Not | sgfcharm/src/main/java/onion/w4v3xrmknycexlsd/lib/sgfcharm/parse/SgfTree.kt:405-408 | the opposite colour always differs from the colour |
| SgfTree.NotInvolution | sgfcharm/src/main/java/onion/w4v3xrmknycexlsd/lib/sgfcharm/parse/SgfTree.kt:405-408 | swapping colours twice gives the colour back |
| SgfTree.MovePoint | sgfcharm/src/main/java/onion/w4v3xrmknycexlsd/lib/sgfcharm/parse/SgfTree.kt:314-322 | a Go move's point is optional (pass); castling and chess pass have none; other chess moves have their target |
| SgfTree.IndexOf | sgfcharm/src/main/java/onion/w4v3xrmknycexlsd/lib/sgfcharm/parse/SgfNavigator.kt:221 | the first position holding the element, or -1 exactly when it is absent |
| SgfValues.ToIntOrNull | sgfcharm/src/main/java/onion/w4v3xrmknycexlsd/lib/sgfcharm/parse/SgfParser.kt:365 | a result exists only for an optional sign followed by digits, and lies in the 32-bit range |
| SgfValues.ToIntOrNullRoundTrip | sgfcharm/src/main/java/onion/w4v3xrmknycexlsd/lib/sgfcharm/parse/SgfParser.kt:365 | the decimal text of every 32-bit integer parses back to it |
| SgfValues.ToIntOrNullRoundTripAll | sgfcharm/src/main/java/onion/w4v3xrmknycexlsd/lib/sgfcharm/parse/SgfParser.kt:365 | the round trip, stated for all 32-bit integers at once |
| SgfValues.ToIntOrNullOverflow | sgfcharm/src/main/java/onion/w4v3xrmknycexlsd/lib/sgfcharm/parse/SgfParser.kt:365 | 2^31 is rejected as overflow while -2^31 is accepted |
| SgfValues.ToIntOrNullPlus | sgfcharm/src/main/java/onion/w4v3xrmknycexlsd/lib/sgfcharm/parse/SgfParser.kt:365 | a leading `+` before digits reads the same as the digits alone |
| SgfValues.ParseNumber | sgfcharm/src/main/java/onion/w4v3xrmknycexlsd/lib/sgfcharm/parse/SgfParser.kt:365 | a Number is a 32-bit integer, and the decimal text of each such integer decodes to it |
| SgfValues.ParseDouble | sgfcharm/src/main/java/onion/w4v3xrmknycexlsd/lib/sgfcharm/parse/SgfParser.kt:347-352 | exactly "1" is MUCH, exactly "2" is VERY_MUCH, anything else fails |
| SgfValues.ParseColor | sgfcharm/src/main/java/onion/w4v3xrmknycexlsd/lib/sgfcharm/parse/SgfParser.kt:356-361 | exactly "B" is black, exactly "W" is white, anything else fails |
| SgfValues.ParseReal | sgfcharm/src/main/java/onion/w4v3xrmknycexlsd/lib/sgfcharm/parse/SgfParser.kt:369 | an accepted Real keeps its non-empty text |
| SgfValues.ParseSimpleText | sgfcharm/src/main/java/onion/w4v3xrmknycexlsd/lib/sgfcharm/parse/SgfParser.kt:378-379 | same length; each whitespace character becomes a space, all others are kept |
| SgfValues.SimpleTextHasNoLineBreaks | sgfcharm/src/main/java/onion/w4v3xrmknycexlsd/lib/sgfcharm/parse/SgfParser.kt:378-379 | SimpleText holds no line feed and no whitespace other than spaces |
| SgfValues.ParseTextAsWritten | sgfcharm/src/main/java/onion/w4v3xrmknycexlsd/lib/sgfcharm/parse/SgfParser.kt:373-374 | the regex as written never lengthens the text and leaves texts shorter than 4 characters alone |
| SgfValues.ParseTextAsWrittenKeepsTabs | sgfcharm/src/main/java/onion/w4v3xrmknycexlsd/lib/sgfcharm/parse/SgfParser.kt:373-374 | as written, a tab survives and only a whitespace-`&&`-character run is replaced |
| SgfValues.ParseText | sgfcharm/src/main/java/onion/w4v3xrmknycexlsd/lib/sgfcharm/parse/SgfParser.kt:373 | as intended: same length, each whitespace character except line feed becomes a space |
| SgfValues.TextKeepsLineBreaks | sgfcharm/src/main/java/onion/w4v3xrmknycexlsd/lib/sgfcharm/parse/SgfParser.kt:373 | Text keeps exactly the line feeds of its input, and every other whitespace becomes a space |
| SgfValues.Split | sgfcharm/src/main/java/onion/w4v3xrmknycexlsd/lib/sgfcharm/parse/SgfParser.kt:392 | at least one part; the input itself when the separator is absent; the first part ends before the first separator; no part contains the separator |
| SgfValues.JoinSplit | sgfcharm/src/main/java/onion/w4v3xrmknycexlsd/lib/sgfcharm/parse/SgfParser.kt:392 | joining the parts with the separator gives back the input |
| SgfValues.ParseCompose | sgfcharm/src/main/java/onion/w4v3xrmknycexlsd/lib/sgfcharm/parse/SgfParser.kt:387-396 | no `:` means no result; a result's halves are the parses of the text before the first `:` and of the text between the first and the second `:` (or the end when there is no second) |
| SgfValues.ComposeRoundTrip | sgfcharm/src/main/java/onion/w4v3xrmknycexlsd/lib/sgfcharm/parse/SgfParser.kt:387-396 | `a:b` composes the parses of a and b when neither contains `:` |
| SgfValues.ParseNumberOrComposeNumber | sgfcharm/src/main/java/onion/w4v3xrmknycexlsd/lib/sgfcharm/parse/SgfParser.kt:406-410 | without `:` a single number n gives (n, n); with `:` it is a composed pair of numbers |
| SgfValues.SquareSize | sgfcharm/src/main/java/onion/w4v3xrmknycexlsd/lib/sgfcharm/parse/SgfParser.kt:406-410 | `SZ[n]` gives an n by n board for every 32-bit n |
| GoCoordinates.GetIntAsWritten | sgfcharm/src/main/java/onion/w4v3xrmknycexlsd/lib/sgfcharm/parse/GoCoordinateParser.kt:59-63 | exactly the letters a-z and A-Z have a coordinate |
| GoCoordinates.GetIntAsWrittenCollides | sgfcharm/src/main/java/onion/w4v3xrmknycexlsd/lib/sgfcharm/parse/GoCoordinateParser.kt:61 | as written, `A` and `z` both decode to 26, so "zA" and "Az" are the same point |
| GoCoordinates.GetInt | sgfcharm/src/main/java/onion/w4v3xrmknycexlsd/lib/sgfcharm/parse/GoCoordinateParser.kt:58-63 | as intended: a-z are 1..26 and A-Z are 27..52; nothing else decodes |
| GoCoordinates.GetIntLetter | sgfcharm/src/main/java/onion/w4v3xrmknycexlsd/lib/sgfcharm/parse/GoCoordinateParser.kt:58-63 | with the intended decoding, each of 1..52 has exactly one letter |
| GoCoordinates.ParseXYCoordinateAsWritten | sgfcharm/src/main/java/onion/w4v3xrmknycexlsd/lib/sgfcharm/parse/GoCoordinateParser.kt:51-56 | as written, a coordinate exists exactly when the first two characters are letters |
| GoCoordinates.ParseXYCoordinate | sgfcharm/src/main/java/onion/w4v3xrmknycexlsd/lib/sgfcharm/parse/GoCoordinateParser.kt:51-56 | a coordinate exists exactly when the first two characters are letters, and lies in 1..52 (as intended, Findings row 2) |
| GoCoordinates.ParsePointPrefix | sgfcharm/src/main/java/onion/w4v3xrmknycexlsd/lib/sgfcharm/parse/GoCoordinateParser.kt:51-56 | only the first two characters are read |
| GoCoordinates.ParsePoint | sgfcharm/src/main/java/onion/w4v3xrmknycexlsd/lib/sgfcharm/parse/GoCoordinateParser.kt:31-34 | a point exists exactly when the coordinate does (as intended, Findings row 2) |
| GoCoordinates.ParsePointName | sgfcharm/src/main/java/onion/w4v3xrmknycexlsd/lib/sgfcharm/parse/GoCoordinateParser.kt:31-34 | every point of 1..52 × 1..52 written as two letters parses back, whatever follows (as intended, Findings row 2) |
| GoCoordinates.ParseStone | sgfcharm/src/main/java/onion/w4v3xrmknycexlsd/lib/sgfcharm/parse/GoCoordinateParser.kt:36-39 | a stone exists exactly when the point does, and stands on it (as intended, Findings row 2) |
| GoCoordinates.ParseMove | sgfcharm/src/main/java/onion/w4v3xrmknycexlsd/lib/sgfcharm/parse/GoCoordinateParser.kt:41-44 | never fails: a Go move whose point is the parsed point, or none (a pass) (as intended, Findings row 2) |
| GoCoordinates.RangeToMembers | sgfcharm/src/main/java/onion/w4v3xrmknycexlsd/lib/sgfcharm/parse/GoCoordinateParser.kt:46-47 | the range holds exactly the points of the rectangle, and is empty when the corner lies left of or above the start |
| GoCoordinates.RangeToOrder | sgfcharm/src/main/java/onion/w4v3xrmknycexlsd/lib/sgfcharm/parse/GoCoordinateParser.kt:46-47 | the range has width × height points, listed column by column with y ascending |
| ChessParse.ParsePoint | sgfcharm-chess/src/main/java/onion/w4v3xrmknycexlsd/lib/sgfcharm_chess/ChessParse.kt:120-124 | a point exists exactly when the text after the first character is an integer (the row); a-z give columns 1..26 and other characters column 0 |
| ChessParse.ToChessStoneType | sgfcharm-chess/src/main/java/onion/w4v3xrmknycexlsd/lib/sgfcharm_chess/ChessParse.kt:134-143 | exactly K, Q, R, B, N and P name a piece type |
| ChessParse.TypeLetter | sgfcharm-chess/src/main/java/onion/w4v3xrmknycexlsd/lib/sgfcharm_chess/ChessParse.kt:134-143 | each piece type has a letter that decodes to it |
| ChessParse.ParseChessStone | sgfcharm-chess/src/main/java/onion/w4v3xrmknycexlsd/lib/sgfcharm_chess/ChessParse.kt:126-132 | a stone is a piece letter followed by a valid point |
| ChessParse.ParseStone | sgfcharm-chess/src/main/java/onion/w4v3xrmknycexlsd/lib/sgfcharm_chess/ChessParse.kt:126-132 | a chess stone exists exactly when the letter and point decode |
| ChessParse.ParseStandardMove | sgfcharm-chess/src/main/java/onion/w4v3xrmknycexlsd/lib/sgfcharm_chess/ChessParse.kt:162-165 | a successful `stone:point` parse is a standard move |
| ChessParse.ParseMove | sgfcharm-chess/src/main/java/onion/w4v3xrmknycexlsd/lib/sgfcharm_chess/ChessParse.kt:145-159 | `0-0` is short and `0-0-0` long castling; never a Go move |
| ChessParse.ParseMovePass | sgfcharm-chess/src/main/java/onion/w4v3xrmknycexlsd/lib/sgfcharm_chess/ChessParse.kt:145-159 | a move is a pass exactly when it is not castling text and the branch its text selects fails: the promotion with its standard move or its piece letter, the en passant move without its last four characters, or the standard move |
| ChessParse.NoColonIsPass | sgfcharm-chess/src/main/java/onion/w4v3xrmknycexlsd/lib/sgfcharm_chess/ChessParse.kt:145-165 | apart from castling, text without a `:` is always a pass |
| ChessParse.ParseSquareName | sgfcharm-chess/src/main/java/onion/w4v3xrmknycexlsd/lib/sgfcharm_chess/ChessParse.kt:120-124 | a square written as column letter and row parses back, and holds no `:`, `=` or `.` |
| ChessParse.StandardMoveTextFacts | sgfcharm-chess/src/main/java/onion/w4v3xrmknycexlsd/lib/sgfcharm_chess/ChessParse.kt:162-165 | `Ka1:b2`-style text decodes to that standard move |
| ChessParse.StandardMoveRoundTrip | sgfcharm-chess/src/main/java/onion/w4v3xrmknycexlsd/lib/sgfcharm_chess/ChessParse.kt:158-165 | a written standard move parses back to itself |
| ChessParse.PromotionRoundTrip | sgfcharm-chess/src/main/java/onion/w4v3xrmknycexlsd/lib/sgfcharm_chess/ChessParse.kt:148-154 | a standard move followed by `=X` parses to the promotion to X |
| ChessParse.EnPassantRoundTrip | sgfcharm-chess/src/main/java/onion/w4v3xrmknycexlsd/lib/sgfcharm_chess/ChessParse.kt:155-157 | a standard move followed by `e.p.` parses to the en passant capture |
| ChessParse.RangeToMembers | sgfcharm-chess/src/main/java/onion/w4v3xrmknycexlsd/lib/sgfcharm_chess/ChessParse.kt:167-168 | the chess range holds exactly the rectangle's points, and is empty unless x ≤ x' and y ≤ y' |
| ChessParse.ColumnDownOrder | sgfcharm-chess/src/main/java/onion/w4v3xrmknycexlsd/lib/sgfcharm_chess/ChessParse.kt:167-168 | within a column, y runs from the top row down |
| ChessParse.ColumnsAscending | sgfcharm-chess/src/main/java/onion/w4v3xrmknycexlsd/lib/sgfcharm_chess/ChessParse.kt:167-168 | along the columns the column number never decreases, and within one column the row decreases |
| ChessParse.RangeToOrder | sgfcharm-chess/src/main/java/onion/w4v3xrmknycexlsd/lib/sgfcharm_chess/ChessParse.kt:167-168 | `rangeTo` runs x ascending and y descending: the earlier of two points has the smaller column, or the same column and the larger row |
| CoordinateParser.PointToStone | sgfcharm/src/main/java/onion/w4v3xrmknycexlsd/lib/sgfcharm/parse/SgfParser.kt:87 | Go turns every point into a stone; chess turns none into one |
| CoordinateParser.MapPointsToStones | sgfcharm/src/main/java/onion/w4v3xrmknycexlsd/lib/sgfcharm/parse/SgfParser.kt:147 | Go maps each point to its stone in order; chess gives nothing |
| CoordinateParser.ParsePointList | sgfcharm/src/main/java/onion/w4v3xrmknycexlsd/lib/sgfcharm/parse/SgfParser.kt:123-129 | without `:` the list is the single parsed point, or empty |
| CoordinateParser.ParseStoneList | sgfcharm/src/main/java/onion/w4v3xrmknycexlsd/lib/sgfcharm/parse/SgfParser.kt:144-150 | without `:` the list is the single parsed stone, or empty |
| CoordinateParser.GoStoneListIsPointList | sgfcharm/src/main/java/onion/w4v3xrmknycexlsd/lib/sgfcharm/parse/SgfParser.kt:144-150 | for Go a stone list is the point list with each point as a stone |
| CoordinateParser.ChessCompressedStoneListEmpty | sgfcharm/src/main/java/onion/w4v3xrmknycexlsd/lib/sgfcharm/parse/SgfParser.kt:145-147 | a compressed chess stone list is always empty |
| CoordinateParser.CompressedGoPointList | sgfcharm/src/main/java/onion/w4v3xrmknycexlsd/lib/sgfcharm/parse/SgfParser.kt:124-126 | `aa:cc` lists exactly the points of the rectangle between the corners |
| CoordinateParser.CompressedListBadCorner | sgfcharm/src/main/java/onion/w4v3xrmknycexlsd/lib/sgfcharm/parse/SgfParser.kt:124-126 | a compressed list with an unparsable corner is empty |
| SgfProperties.NameOfId | sgfcharm/src/main/java/onion/w4v3xrmknycexlsd/lib/sgfcharm/parse/SgfParser.kt:237-334 | every known identifier is recognised as its own property |
| SgfProperties.IdOfName | sgfcharm/src/main/java/onion/w4v3xrmknycexlsd/lib/sgfcharm/parse/SgfParser.kt:237-334 | the lookup only recognises an identifier as the property of that name |
| SgfProperties.ParseKnown | sgfcharm/src/main/java/onion/w4v3xrmknycexlsd/lib/sgfcharm/parse/SgfParser.kt:237-334 | a decoded property has the requested identifier; list properties always decode (as intended, Findings row 1) |
| SgfProperties.ParsePropValue | sgfcharm/src/main/java/onion/w4v3xrmknycexlsd/lib/sgfcharm/parse/SgfParser.kt:232-342 | the result carries the identifier it was asked for; list properties always decode; an unknown identifier gives `CUSTOM(ident, raw value)` and never fails (as intended, Findings row 1) |
| SgfProperties.StoneListStarts | sgfcharm/src/main/java/onion/w4v3xrmknycexlsd/lib/sgfcharm/parse/SgfParser.kt:242-247 | a first AB/AW value gives the stones of that value |
| SgfProperties.StoneListAccumulates | sgfcharm/src/main/java/onion/w4v3xrmknycexlsd/lib/sgfcharm/parse/SgfParser.kt:242-247 | a further AB/AW value appends its stones to the previous ones |
| SgfProperties.PointListAccumulates | sgfcharm/src/main/java/onion/w4v3xrmknycexlsd/lib/sgfcharm/parse/SgfParser.kt:244-334 | a further value of a point-list property appends its points |
| SgfProperties.PairListAccumulates | sgfcharm/src/main/java/onion/w4v3xrmknycexlsd/lib/sgfcharm/parse/SgfParser.kt:261-283 | a further AR/LN value appends its pair if it parses |
| SgfProperties.LabelListAccumulates | sgfcharm/src/main/java/onion/w4v3xrmknycexlsd/lib/sgfcharm/parse/SgfParser.kt:272-276 | a further LB value appends its label if it parses |
| SgfProperties.ScalarIgnoresPrior | sgfcharm/src/main/java/onion/w4v3xrmknycexlsd/lib/sgfcharm/parse/SgfParser.kt:237-334 | a scalar property's value is decoded without regard to the previous property |
| SgfProperties.ForeignPriorIgnored | sgfcharm/src/main/java/onion/w4v3xrmknycexlsd/lib/sgfcharm/parse/SgfParser.kt:242-334 | a list property whose previous property is of another kind starts a new list (`property as? AB ?: AB()`) |
| SgfParser.Initial | sgfcharm/src/main/java/onion/w4v3xrmknycexlsd/lib/sgfcharm/parse/SgfParser.kt:156-163 | a parse starts at a single empty root tree, which is the current tree, with no open property |
| SgfParser.NewChild | sgfcharm/src/main/java/onion/w4v3xrmknycexlsd/lib/sgfcharm/parse/SgfParser.kt:177-182 | `(` adds an empty tree whose parent is the current tree as its last child, and changes nothing else |
| SgfParser.NewNode | sgfcharm/src/main/java/onion/w4v3xrmknycexlsd/lib/sgfcharm/parse/SgfParser.kt:184 | `;` appends one empty node to the current tree only |
| SgfParser.AppendProperty | sgfcharm/src/main/java/onion/w4v3xrmknycexlsd/lib/sgfcharm/parse/SgfParser.kt:205 | a property is appended to the last node of the current tree only |
| SgfParser.SetProperty | sgfcharm/src/main/java/onion/w4v3xrmknycexlsd/lib/sgfcharm/parse/SgfParser.kt:242-243 | an open list property is updated in place, wherever it sits in the arena |
| SgfParser.Close | sgfcharm/src/main/java/onion/w4v3xrmknycexlsd/lib/sgfcharm/parse/SgfParser.kt:202-209 | `]` returns to `EXPECT_ANYTHING`, keeps the current tree and the identifier, and changes no parent or child link |
| SgfParser.Step | sgfcharm/src/main/java/onion/w4v3xrmknycexlsd/lib/sgfcharm/parse/SgfParser.kt:169-219 | one character keeps the arena well formed |
| SgfParser.Run | sgfcharm/src/main/java/onion/w4v3xrmknycexlsd/lib/sgfcharm/parse/SgfParser.kt:165-220 | the character loop keeps the arena well formed |
| SgfParser.RunAppend | sgfcharm/src/main/java/onion/w4v3xrmknycexlsd/lib/sgfcharm/parse/SgfParser.kt:165-220 | scanning a + b is scanning a and then b |
| SgfParser.OpenParenDescends | sgfcharm/src/main/java/onion/w4v3xrmknycexlsd/lib/sgfcharm/parse/SgfParser.kt:177-182 | `(` creates a child of the current tree and descends into it |
| SgfParser.CloseParenAscends | sgfcharm/src/main/java/onion/w4v3xrmknycexlsd/lib/sgfcharm/parse/SgfParser.kt:183 | `)` goes to the parent, and changes nothing at the root |
| SgfParser.SemicolonAddsNode | sgfcharm/src/main/java/onion/w4v3xrmknycexlsd/lib/sgfcharm/parse/SgfParser.kt:184 | `;` appends one empty node and changes nothing else |
| SgfParser.ParenPair | sgfcharm/src/main/java/onion/w4v3xrmknycexlsd/lib/sgfcharm/parse/SgfParser.kt:177-183 | `()` leaves an empty child and returns to the same tree |
| SgfParser.Escape | sgfcharm/src/main/java/onion/w4v3xrmknycexlsd/lib/sgfcharm/parse/SgfParser.kt:201-218 | a backslash makes the next character literal, and an escaped line feed is dropped |
| SgfParser.ReadValue | sgfcharm/src/main/java/onion/w4v3xrmknycexlsd/lib/sgfcharm/parse/SgfParser.kt:190-210 | `[v]` accumulates v verbatim and then closes the value |
| SgfParser.CloseAttaches | sgfcharm/src/main/java/onion/w4v3xrmknycexlsd/lib/sgfcharm/parse/SgfParser.kt:202-209 | a first value of a property goes to the end of the last node and becomes the open property, remembered with its place |
| SgfParser.CloseExtends | sgfcharm/src/main/java/onion/w4v3xrmknycexlsd/lib/sgfcharm/parse/SgfParser.kt:202-209 | a further value of the open list property replaces it in place with the extended list |
| SgfParser.CloseReplaces | sgfcharm/src/main/java/onion/w4v3xrmknycexlsd/lib/sgfcharm/parse/SgfParser.kt:202-209 | a further value of a scalar property only replaces the open property; the arena is unchanged |
| SgfParser.NextValueDetached | sgfcharm/src/main/java/onion/w4v3xrmknycexlsd/lib/sgfcharm/parse/SgfParser.kt:202-209 | a value that the open property does not take leaves every tree unchanged |
| SgfParser.AttachOrDrop | sgfcharm/src/main/java/onion/w4v3xrmknycexlsd/lib/sgfcharm/parse/SgfParser.kt:203-206 | a decoded value goes onto the last node; with no node yet it is discarded |
| SgfParser.UnknownIsCustom | sgfcharm/src/main/java/onion/w4v3xrmknycexlsd/lib/sgfcharm/parse/SgfParser.kt:335-340 | an unknown identifier's value is attached as `CUSTOM(ident, value)` |
| SgfParser.ReusedValues | sgfcharm/src/main/java/onion/w4v3xrmknycexlsd/lib/sgfcharm/parse/SgfParser.kt:203-207 | a second value of a list property updates the same property object in the node |
| SgfParser.ReplacedValues | sgfcharm/src/main/java/onion/w4v3xrmknycexlsd/lib/sgfcharm/parse/SgfParser.kt:203-207 | a second value of a scalar property is not attached: the node keeps the first |
| SgfParser.StoneValuesAccumulate | sgfcharm/src/main/java/onion/w4v3xrmknycexlsd/lib/sgfcharm/parse/SgfParser.kt:242-243 | `AB[v1][v2]` yields one AB property holding the stones of both values |
| SgfParser.ScalarKeepsFirst | sgfcharm/src/main/java/onion/w4v3xrmknycexlsd/lib/sgfcharm/parse/SgfParser.kt:203-207 | `B[v1][v2]` leaves only the first decoded move in the node |
| SgfParser.Normalize | sgfcharm/src/main/java/onion/w4v3xrmknycexlsd/lib/sgfcharm/parse/SgfParser.kt:165-168 | the normalised text holds no carriage return and is no longer than the input |
| SgfParser.NormalizeBreaks | sgfcharm/src/main/java/onion/w4v3xrmknycexlsd/lib/sgfcharm/parse/SgfParser.kt:165-168 | CRLF, LFCR and a lone CR each become one line feed |
| SgfParser.NormalizeNoCR | sgfcharm/src/main/java/onion/w4v3xrmknycexlsd/lib/sgfcharm/parse/SgfParser.kt:165-168 | text without carriage returns is unchanged |
| SgfParser.ClearParents | sgfcharm/src/main/java/onion/w4v3xrmknycexlsd/lib/sgfcharm/parse/SgfParser.kt:224 | exactly the listed trees lose their parent; nothing else changes |
| SgfParser.Finish | sgfcharm/src/main/java/onion/w4v3xrmknycexlsd/lib/sgfcharm/parse/SgfParser.kt:222-224 | the collection is the current tree's children, turned into parentless well-formed roots |
| SgfParser.Parser.constructor | sgfcharm/src/main/java/onion/w4v3xrmknycexlsd/lib/sgfcharm/parse/SgfParser.kt:59-67 | a new parser holds its coordinate parser and starts in `EXPECT_ANYTHING` |
| SgfParser.Parser.ParseSgfCollection | sgfcharm/src/main/java/onion/w4v3xrmknycexlsd/lib/sgfcharm/parse/SgfParser.kt:155-225 | the result is the scan of the normalised text from the parser's current state, and the state is left where the scan ended |
| SgfParser.CloseValue | sgfcharm/src/main/java/onion/w4v3xrmknycexlsd/lib/sgfcharm/parse/SgfParser.kt:202-209 | closing a value in place does what `Close` specifies |
| SgfParser.Scanner | sgfcharm/src/main/java/onion/w4v3xrmknycexlsd/lib/sgfcharm/parse/SgfParser.kt:165-220 | the character loop computes the scan of the whole text |
| SgfData.PiecePoint | sgfcharm/src/main/java/onion/w4v3xrmknycexlsd/lib/sgfcharm/handle/SgfData.kt:41 | a piece's point is its stone's point, if it has a stone |
| SgfData.GoPoint | sgfcharm/src/main/java/onion/w4v3xrmknycexlsd/lib/sgfcharm/handle/GoMoveHandler.kt:105 | the point of a piece holding a Go stone |
| BoardState.Fresh | sgfcharm/src/main/java/onion/w4v3xrmknycexlsd/lib/sgfcharm/handle/SgfState.kt:54-139 | a new state has empty histories and board, game 1, a 19 × 19 board, and shows successor variations |
| BoardState.RemoveFirst | sgfcharm/src/main/java/onion/w4v3xrmknycexlsd/lib/sgfcharm/handle/SgfState.kt:190 | removing a piece takes out one occurrence, and nothing when it is absent |
| BoardState.SamePoint | sgfcharm/src/main/java/onion/w4v3xrmknycexlsd/lib/sgfcharm/handle/SgfState.kt:176 | exactly the pieces standing on the given piece's point |
| BoardState.AddToLast | sgfcharm/src/main/java/onion/w4v3xrmknycexlsd/lib/sgfcharm/handle/SgfState.kt:173 | a change is appended to the last frame only |
| BoardState.UndoFwd | sgfcharm/src/main/java/onion/w4v3xrmknycexlsd/lib/sgfcharm/handle/SgfState.kt:157-164 | replaying a frame's changes in reverse undoes them |
| BoardState.UndoPiecesCount | sgfcharm/src/main/java/onion/w4v3xrmknycexlsd/lib/sgfcharm/handle/SgfState.kt:159-164 | undoing on the list of pieces agrees with undoing on the multiset |
| BoardState.RecordChange | sgfcharm/src/main/java/onion/w4v3xrmknycexlsd/lib/sgfcharm/handle/SgfState.kt:173-190 | recording a change keeps every frame undoable |
| BoardState.RemovePiece | sgfcharm/src/main/java/onion/w4v3xrmknycexlsd/lib/sgfcharm/handle/SgfState.kt:185-192 | an absent piece changes nothing and records nothing; a present one is removed once and recorded as MINUS |
| BoardState.RemovePieces | sgfcharm/src/main/java/onion/w4v3xrmknycexlsd/lib/sgfcharm/handle/SgfState.kt:195 | only the board and the last frame change |
| BoardState.RemovePiecesCount | sgfcharm/src/main/java/onion/w4v3xrmknycexlsd/lib/sgfcharm/handle/SgfState.kt:195 | the board loses exactly the listed pieces present on it |
| BoardState.AddPiece | sgfcharm/src/main/java/onion/w4v3xrmknycexlsd/lib/sgfcharm/handle/SgfState.kt:172-178 | only the board and the last frame change |
| BoardState.AddPieceAlone | sgfcharm/src/main/java/onion/w4v3xrmknycexlsd/lib/sgfcharm/handle/SgfState.kt:172-178 | after adding p, p is the only piece on its point and the rest of the board is unchanged |
| BoardState.AddPieces | sgfcharm/src/main/java/onion/w4v3xrmknycexlsd/lib/sgfcharm/handle/SgfState.kt:181 | only the board and the last frame change |
| BoardState.RemovePieceKeepsHistory | sgfcharm/src/main/java/onion/w4v3xrmknycexlsd/lib/sgfcharm/handle/SgfState.kt:185-192 | removing keeps the history undoable back to every snapshot |
| BoardState.RemovePiecesKeepsHistory | sgfcharm/src/main/java/onion/w4v3xrmknycexlsd/lib/sgfcharm/handle/SgfState.kt:195 | removing a list keeps the history undoable |
| BoardState.AddPieceHistory | sgfcharm/src/main/java/onion/w4v3xrmknycexlsd/lib/sgfcharm/handle/SgfState.kt:172-178 | adding keeps the history undoable |
| BoardState.AddPiecesHistory | sgfcharm/src/main/java/onion/w4v3xrmknycexlsd/lib/sgfcharm/handle/SgfState.kt:181 | adding a list keeps the history undoable |
| BoardState.InitStep | sgfcharm/src/main/java/onion/w4v3xrmknycexlsd/lib/sgfcharm/handle/SgfState.kt:142-151 | one new frame each for pieces, move info and inherited markup; per-node lists and overrides cleared; board and settings kept |
| BoardState.InitStepHistory | sgfcharm/src/main/java/onion/w4v3xrmknycexlsd/lib/sgfcharm/handle/SgfState.kt:142-151 | a new empty frame records the current board as a snapshot |
| BoardState.StepBack | sgfcharm/src/main/java/onion/w4v3xrmknycexlsd/lib/sgfcharm/handle/SgfState.kt:156-167 | exactly two frames are popped from each history; nothing else but the board changes |
| BoardState.PopFrameHistory | sgfcharm/src/main/java/onion/w4v3xrmknycexlsd/lib/sgfcharm/handle/SgfState.kt:159-166 | popping one frame restores the board of the last snapshot |
| BoardState.StepBackRestores | sgfcharm/src/main/java/onion/w4v3xrmknycexlsd/lib/sgfcharm/handle/SgfState.kt:156-167 | stepping back restores the board as it was before the last two steps |
| BoardState.FreshHistory | sgfcharm/src/main/java/onion/w4v3xrmknycexlsd/lib/sgfcharm/handle/SgfState.kt:54-57 | a new state has an empty, aligned history |
| BoardState.AddMarkups | sgfcharm/src/main/java/onion/w4v3xrmknycexlsd/lib/sgfcharm/handle/SgfState.kt:199-200 | markup is appended and nothing else changes |
| BoardState.Numbered | sgfcharm/src/main/java/onion/w4v3xrmknycexlsd/lib/sgfcharm/handle/SgfState.kt:203-206 | variation i is recorded with index i and its move |
| BoardState.AddInherits | sgfcharm/src/main/java/onion/w4v3xrmknycexlsd/lib/sgfcharm/handle/SgfState.kt:213-214 | sticky markup goes into the last frame only |
| BoardState.AddNodeInfo | sgfcharm/src/main/java/onion/w4v3xrmknycexlsd/lib/sgfcharm/handle/SgfState.kt:218-219 | node info is appended and nothing else changes |
| BoardState.LastMoveInfoIsLast | sgfcharm/src/main/java/onion/w4v3xrmknycexlsd/lib/sgfcharm/handle/SgfState.kt:118-119 | `lastMoveInfo` is the last non-null entry, or none when all are null |
| BoardState.NextColorCases | sgfcharm/src/main/java/onion/w4v3xrmknycexlsd/lib/sgfcharm/handle/SgfState.kt:125-126 | the next colour is the colour set by PL, else the opposite of the last mover, else black |
| BoardState.AddMoveInfo | sgfcharm/src/main/java/onion/w4v3xrmknycexlsd/lib/sgfcharm/handle/SgfState.kt:222-230 | only the last move-info entry changes |
| BoardState.AddMoveInfoCounts | sgfcharm/src/main/java/onion/w4v3xrmknycexlsd/lib/sgfcharm/handle/SgfState.kt:222-230 | move number is the MN override, else the last number plus the delta; the prisoner counts add up |
| BoardState.SetMoveNumber | sgfcharm/src/main/java/onion/w4v3xrmknycexlsd/lib/sgfcharm/handle/SgfState.kt:129-135 | MN records the override and changes only the move-info list |
| BoardState.MoveNumberEitherOrder | sgfcharm/src/main/java/onion/w4v3xrmknycexlsd/lib/sgfcharm/handle/SgfState.kt:129-135 | MN before or after the move in a node gives the same move number |
| BoardState.LastNonEmpty | sgfcharm/src/main/java/onion/w4v3xrmknycexlsd/lib/sgfcharm/handle/SgfState.kt:47 | the last non-empty frame of sticky markup, or none if all are empty |
| BoardState.Present | sgfcharm/src/main/java/onion/w4v3xrmknycexlsd/lib/sgfcharm/handle/SgfState.kt:47 | the markup entries that are not null |
| BoardState.InheritedMarkupFrames | sgfcharm/src/main/java/onion/w4v3xrmknycexlsd/lib/sgfcharm/handle/SgfState.kt:47 | a new sticky frame replaces the shown markup; a `[null]` frame clears it; an empty frame keeps it |
| BoardState.Data | sgfcharm/src/main/java/onion/w4v3xrmknycexlsd/lib/sgfcharm/handle/SgfState.kt:45-49 | the data starts with the board, and ends with the board configuration and then the last move info, if any |
| State.SgfState.constructor | sgfcharm/src/main/java/onion/w4v3xrmknycexlsd/lib/sgfcharm/handle/SgfState.kt:42-139 | a new state holds the initial values and an empty snapshot history |
| State.SgfState.InitStep | sgfcharm/src/main/java/onion/w4v3xrmknycexlsd/lib/sgfcharm/handle/SgfState.kt:142-151 | does what `BoardState.InitStep` specifies and records the board as a snapshot |
| State.SgfState.OpenFrames | sgfcharm/src/main/java/onion/w4v3xrmknycexlsd/lib/sgfcharm/handle/SgfState.kt:143-150 | pushes the three empty frames |
| State.SgfState.RemovePiece | sgfcharm/src/main/java/onion/w4v3xrmknycexlsd/lib/sgfcharm/handle/SgfState.kt:185-192 | does what `BoardState.RemovePiece` specifies and keeps the history valid |
| State.SgfState.RemovePieces | sgfcharm/src/main/java/onion/w4v3xrmknycexlsd/lib/sgfcharm/handle/SgfState.kt:195 | does what `BoardState.RemovePieces` specifies and keeps the history valid |
| State.SgfState.AddPiece | sgfcharm/src/main/java/onion/w4v3xrmknycexlsd/lib/sgfcharm/handle/SgfState.kt:172-178 | does what `BoardState.AddPiece` specifies and keeps the history valid |
| State.SgfState.AddPieces | sgfcharm/src/main/java/onion/w4v3xrmknycexlsd/lib/sgfcharm/handle/SgfState.kt:181 | does what `BoardState.AddPieces` specifies and keeps the history valid |
| State.SgfState.PopFrame | sgfcharm/src/main/java/onion/w4v3xrmknycexlsd/lib/sgfcharm/handle/SgfState.kt:159-166 | pops one frame from each history, replaying the changes in reverse |
| State.SgfState.StepBack | sgfcharm/src/main/java/onion/w4v3xrmknycexlsd/lib/sgfcharm/handle/SgfState.kt:156-167 | pops two frames and restores the board of the snapshot two steps back |
| State.SgfState.AddMarkups | sgfcharm/src/main/java/onion/w4v3xrmknycexlsd/lib/sgfcharm/handle/SgfState.kt:199-200 | appends the markup |
| State.SgfState.SetVariationInfos | sgfcharm/src/main/java/onion/w4v3xrmknycexlsd/lib/sgfcharm/handle/SgfState.kt:203-206 | replaces the variation data with the numbered infos |
| State.SgfState.AddInherits | sgfcharm/src/main/java/onion/w4v3xrmknycexlsd/lib/sgfcharm/handle/SgfState.kt:213-214 | appends to the last sticky markup frame |
| State.SgfState.AddNodeInfo | sgfcharm/src/main/java/onion/w4v3xrmknycexlsd/lib/sgfcharm/handle/SgfState.kt:218-219 | appends the node info |
| State.SgfState.AddMoveInfo | sgfcharm/src/main/java/onion/w4v3xrmknycexlsd/lib/sgfcharm/handle/SgfState.kt:222-230 | does what `BoardState.AddMoveInfo` specifies |
| State.SgfState.SetMoveNumber | sgfcharm/src/main/java/onion/w4v3xrmknycexlsd/lib/sgfcharm/handle/SgfState.kt:129-135 | does what `BoardState.SetMoveNumber` specifies |
| GoMoveHandler.FindAt | sgfcharm/src/main/java/onion/w4v3xrmknycexlsd/lib/sgfcharm/handle/GoMoveHandler.kt:114-121 | the piece found at (x, y) stands there; none means no board piece does |
| GoMoveHandler.Candidate | sgfcharm/src/main/java/onion/w4v3xrmknycexlsd/lib/sgfcharm/handle/GoMoveHandler.kt:131-134 | a neighbour is searched further only if it has the group's colour and was not checked yet |
| GoMoveHandler.Check | sgfcharm/src/main/java/onion/w4v3xrmknycexlsd/lib/sgfcharm/handle/GoMoveHandler.kt:104-141 | the checked list only grows |
| GoMoveHandler.Candidates | sgfcharm/src/main/java/onion/w4v3xrmknycexlsd/lib/sgfcharm/handle/GoMoveHandler.kt:114-134 | the four neighbours to search have the group's colour and are unchecked |
| GoMoveHandler.Explore | sgfcharm/src/main/java/onion/w4v3xrmknycexlsd/lib/sgfcharm/handle/GoMoveHandler.kt:137-140 | the checked list only grows |
| GoMoveHandler.CheckTrue | sgfcharm/src/main/java/onion/w4v3xrmknycexlsd/lib/sgfcharm/handle/GoMoveHandler.kt:104-141 | when the search finds a liberty, the group reaches an empty on-board point |
| GoMoveHandler.CheckFalse | sgfcharm/src/main/java/onion/w4v3xrmknycexlsd/lib/sgfcharm/handle/GoMoveHandler.kt:104-141 | when it finds none, every newly checked stone is dead and of the group's colour |
| GoMoveHandler.DeadNeverReaches | sgfcharm/src/main/java/onion/w4v3xrmknycexlsd/lib/sgfcharm/handle/GoMoveHandler.kt:106-127 | a closed set of dead stones never reaches a liberty; off-board points are never liberties |
| GoMoveHandler.CheckIff | sgfcharm/src/main/java/onion/w4v3xrmknycexlsd/lib/sgfcharm/handle/GoMoveHandler.kt:104-141 | the search finds a liberty exactly when the group reaches an empty on-board neighbour |
| GoMoveHandler.CountNewIsSize | sgfcharm/src/main/java/onion/w4v3xrmknycexlsd/lib/sgfcharm/handle/GoMoveHandler.kt:100 | counting the new entries counts the distinct ones |
| GoMoveHandler.DistinctCountIsSize | sgfcharm/src/main/java/onion/w4v3xrmknycexlsd/lib/sgfcharm/handle/GoMoveHandler.kt:100 | `distinct().size` is the number of distinct pieces |
| GoMoveHandler.Capture | sgfcharm/src/main/java/onion/w4v3xrmknycexlsd/lib/sgfcharm/handle/GoMoveHandler.kt:97-101 | only the board and the last frame change |
| GoMoveHandler.CaptureFacts | sgfcharm/src/main/java/onion/w4v3xrmknycexlsd/lib/sgfcharm/handle/GoMoveHandler.kt:97-141 | stones are removed exactly when the probed group has no liberty; then the whole connected group goes and the count is its number of distinct stones |
| GoMoveHandler.GoMove | sgfcharm/src/main/java/onion/w4v3xrmknycexlsd/lib/sgfcharm/handle/GoMoveHandler.kt:39-93 | a Go move changes only the board and the last frame |
| GoMoveHandler.CaptureFrom | sgfcharm/src/main/java/onion/w4v3xrmknycexlsd/lib/sgfcharm/handle/GoMoveHandler.kt:71-78 | each neighbour check adds a non-negative count |
| GoMoveHandler.CaptureAround | sgfcharm/src/main/java/onion/w4v3xrmknycexlsd/lib/sgfcharm/handle/GoMoveHandler.kt:69-78 | the four neighbour checks count a non-negative number of prisoners |
| GoMoveHandler.GoMovePasses | sgfcharm/src/main/java/onion/w4v3xrmknycexlsd/lib/sgfcharm/handle/GoMoveHandler.kt:43-59 | a non-Go move gives null and no change; a null point or (20,20) on a board up to 19 × 19 is a pass with no change and `MoveInfo(1, color, pass, (0,0))` |
| GoMoveHandler.GoMoveReports | sgfcharm/src/main/java/onion/w4v3xrmknycexlsd/lib/sgfcharm/handle/GoMoveHandler.kt:61-92 | a real move places the stone, captures around it, then checks suicide; the info has delta 1, the mover, the point, and black's and white's removed stones in that order |
| GoMoveHandler.HandleCheck | sgfcharm/src/main/java/onion/w4v3xrmknycexlsd/lib/sgfcharm/handle/GoMoveHandler.kt:97-101 | performs the capture `Capture` specifies on the state |
| GoMoveHandler.MakeMove | sgfcharm/src/main/java/onion/w4v3xrmknycexlsd/lib/sgfcharm/handle/GoMoveHandler.kt:39-93 | performs the move `GoMove` specifies on the state, keeping the history valid |
| GoMoveHandler.CaptureNeighbours | sgfcharm/src/main/java/onion/w4v3xrmknycexlsd/lib/sgfcharm/handle/GoMoveHandler.kt:69-78 | performs the four neighbour checks `CaptureAround` specifies |
| GoMoveHandler.CheckNeighbour | sgfcharm/src/main/java/onion/w4v3xrmknycexlsd/lib/sgfcharm/handle/GoMoveHandler.kt:71-78 | performs one neighbour check and adds its count |
| GoMoveHandler.LegacyMoveAgrees | sgfcharm/src/main/java/onion/w4v3xrmknycexlsd/lib/sgfcharm/handle/Handlers.kt:42-127 | the older handler changes the board identically; its pass adds 1 to the last move number and keeps the previous prisoners; its real move adds the new prisoners to the previous ones |
| VariationMarker.AtLeastOne | sgfcharm/src/main/java/onion/w4v3xrmknycexlsd/lib/sgfcharm/handle/Handlers.kt:202-203 | `coerceAtLeast(1)`: at least 1 and at least n, and n itself when n ≥ 1 |
| VariationMarker.Label | sgfcharm/src/main/java/onion/w4v3xrmknycexlsd/lib/sgfcharm/handle/Handlers.kt:187 | variation i is labelled with the character 'A' + i |
| VariationMarker.PointOf | sgfcharm/src/main/java/onion/w4v3xrmknycexlsd/lib/sgfcharm/handle/Handlers.kt:187-196 | a variation with a move point is marked at that point |
| VariationMarker.VariationMark | sgfcharm/src/main/java/onion/w4v3xrmknycexlsd/lib/sgfcharm/handle/Handlers.kt:194-198 | a variation mark carries its point and its one-letter label |
| VariationMarker.Indices | sgfcharm/src/main/java/onion/w4v3xrmknycexlsd/lib/sgfcharm/handle/Handlers.kt:192-201 | the variations with (or without) a move point, in increasing order |
| VariationMarker.IndicesSplit | sgfcharm/src/main/java/onion/w4v3xrmknycexlsd/lib/sgfcharm/handle/Handlers.kt:192-201 | every variation is either placed at its move or among the others |
| VariationMarker.IndicesNoPoint | sgfcharm/src/main/java/onion/w4v3xrmknycexlsd/lib/sgfcharm/handle/Handlers.kt:201 | with no move points, all variations are placed in order |
| VariationMarker.MarkMoves | sgfcharm/src/main/java/onion/w4v3xrmknycexlsd/lib/sgfcharm/handle/Handlers.kt:190-199 | each variation with a move point gets its label at that point |
| VariationMarker.Insert | sgfcharm/src/main/java/onion/w4v3xrmknycexlsd/lib/sgfcharm/handle/Handlers.kt:225 | insertion adds exactly one mark |
| VariationMarker.SortByLabel | sgfcharm/src/main/java/onion/w4v3xrmknycexlsd/lib/sgfcharm/handle/Handlers.kt:225 | `sortBy { label }`: a sorted permutation of the marks |
| VariationMarker.FindFree | sgfcharm/src/main/java/onion/w4v3xrmknycexlsd/lib/sgfcharm/handle/Handlers.kt:206-215 | the search ends on a point no mark occupies, in a row at or below the starting one and a column from `start` to `max(start+1, numCols)`; it stops at the first candidate `(start+1, y)` when that is free |
| VariationMarker.MarkNoMoves | sgfcharm/src/main/java/onion/w4v3xrmknycexlsd/lib/sgfcharm/handle/Handlers.kt:205-224 | each variation without a move point gets its label on a free point; with no moves the labels are spread along the middle row |
| VariationMarker.SortedVariations | sgfcharm/src/main/java/onion/w4v3xrmknycexlsd/lib/sgfcharm/handle/Handlers.kt:185-227 | the sorted marks describe variation i in position i, and no label without a move shares a point with another mark |
| VariationMarker.MarkupVariations | sgfcharm/src/main/java/onion/w4v3xrmknycexlsd/lib/sgfcharm/handle/Handlers.kt:180-228 | one mark per variation, in label order: mark i is labelled 'A'+i and stands on variation i's move point, or, for a variation without a point, in a column of at least 1 on or below row y0 = max(1, (numRows+1)/2) and on no other mark's point; when no variation has a point, mark i stands at ((i+1)·dx + 1, y0) with dx = max(1, (numCols-1)/(k+1)) |
| ChessHandle.FirstIndex | sgfcharm-chess/src/main/java/onion/w4v3xrmknycexlsd/lib/sgfcharm_chess/ChessHandle.kt:38 | the first position satisfying the predicate, or -1 exactly when none does |
| ChessHandle.First | sgfcharm-chess/src/main/java/onion/w4v3xrmknycexlsd/lib/sgfcharm_chess/ChessHandle.kt:38 | `find`: a satisfying piece of the board, or none exactly when there is none |
| ChessHandle.ChessKind | sgfcharm-chess/src/main/java/onion/w4v3xrmknycexlsd/lib/sgfcharm_chess/ChessHandle.kt:41 | the piece type of a chess stone |
| ChessHandle.Worth | sgfcharm-chess/src/main/java/onion/w4v3xrmknycexlsd/lib/sgfcharm_chess/ChessHandle.kt:41-49 | a capture is worth 0..9 points, and 0 exactly for a king or a non-chess piece |
| ChessHandle.CheckCapture | sgfcharm-chess/src/main/java/onion/w4v3xrmknycexlsd/lib/sgfcharm_chess/ChessHandle.kt:37-50 | the first piece on the point is removed, if there is one; otherwise nothing changes |
| ChessHandle.Displace | sgfcharm-chess/src/main/java/onion/w4v3xrmknycexlsd/lib/sgfcharm_chess/ChessHandle.kt:53-57 | only the board and the last frame change |
| ChessHandle.DisplaceFacts | sgfcharm-chess/src/main/java/onion/w4v3xrmknycexlsd/lib/sgfcharm_chess/ChessHandle.kt:53-57 | the mover leaves its square, the target's first other piece is captured, and the landed piece stands alone on the target |
| ChessHandle.CastlingPieces | sgfcharm-chess/src/main/java/onion/w4v3xrmknycexlsd/lib/sgfcharm_chess/ChessHandle.kt:60-71 | the king is the mover's first king; the rook is one of the mover's rooks |
| ChessHandle.Vacate | sgfcharm-chess/src/main/java/onion/w4v3xrmknycexlsd/lib/sgfcharm_chess/ChessHandle.kt:73-74 | only the board and the last frame change |
| ChessHandle.VacateCount | sgfcharm-chess/src/main/java/onion/w4v3xrmknycexlsd/lib/sgfcharm_chess/ChessHandle.kt:73-74 | the king and rook found are removed from the board |
| ChessHandle.Castle | sgfcharm-chess/src/main/java/onion/w4v3xrmknycexlsd/lib/sgfcharm_chess/ChessHandle.kt:59-98 | only the board and the last frame change (as intended, Findings row 4) |
| ChessHandle.CastleFacts | sgfcharm-chess/src/main/java/onion/w4v3xrmknycexlsd/lib/sgfcharm_chess/ChessHandle.kt:59-98 | as intended, castling either way leaves the king and rook alone on their new squares, and every other point holds what it held minus the king and rook that were found |
| ChessHandle.CastleAsWrittenShort | sgfcharm-chess/src/main/java/onion/w4v3xrmknycexlsd/lib/sgfcharm_chess/ChessHandle.kt:84-97 | as written, short castling only removes the king and rook |
| ChessHandle.KingsideFound | sgfcharm-chess/src/main/java/onion/w4v3xrmknycexlsd/lib/sgfcharm_chess/ChessHandle.kt:60-71 | on a board with the king on e1 and a rook on h1, short castling finds both |
| ChessHandle.ShortCastlingLosesKing | sgfcharm-chess/src/main/java/onion/w4v3xrmknycexlsd/lib/sgfcharm_chess/ChessHandle.kt:84-97 | white castling short from e1/h1 empties the board as written, and leaves the king alone on g1 as intended |
| ChessHandle.ChessMove | sgfcharm-chess/src/main/java/onion/w4v3xrmknycexlsd/lib/sgfcharm_chess/ChessHandle.kt:31-119 | a Go move gives null; otherwise the info has delta 1, the mover and the move; a pass changes nothing; castling and pass score no prisoners (as intended, Findings row 4) |
| ChessHandle.ChessMoveDisplaces | sgfcharm-chess/src/main/java/onion/w4v3xrmknycexlsd/lib/sgfcharm_chess/ChessHandle.kt:53-108 | standard, promotion and en passant moves capture the first piece at the capture point (the target, or the target column on the source row for en passant) and land the moved or promoted piece alone on the target |
| ChessHandle.PrisonersCount | sgfcharm-chess/src/main/java/onion/w4v3xrmknycexlsd/lib/sgfcharm_chess/ChessHandle.kt:112-117 | the points go to the captured colour's slot, and nothing is scored without a capture |
| ChessHandle.Rank | sgfcharm-chess/src/main/java/onion/w4v3xrmknycexlsd/lib/sgfcharm_chess/ChessHandle.kt:142-339 | a rank of pieces from column 1 on |
| ChessHandle.ChessCustom | sgfcharm-chess/src/main/java/onion/w4v3xrmknycexlsd/lib/sgfcharm_chess/ChessHandle.kt:137-344 | CHK[1]/CHK[2] add the Check/Checkmate info; other CHK values and other identifiers do nothing; DEF sets white to move and changes only the board |
| ChessHandle.AddPiecesAlone | sgfcharm-chess/src/main/java/onion/w4v3xrmknycexlsd/lib/sgfcharm_chess/ChessHandle.kt:142-339 | adding pieces on distinct points leaves each alone on its point |
| ChessHandle.AddPiecesOnto | sgfcharm-chess/src/main/java/onion/w4v3xrmknycexlsd/lib/sgfcharm_chess/ChessHandle.kt:142-339 | adding pieces on free points appends them to the board |
| ChessHandle.StandardSetupDistinct | sgfcharm-chess/src/main/java/onion/w4v3xrmknycexlsd/lib/sgfcharm_chess/ChessHandle.kt:142-339 | the starting position has 32 chess pieces on distinct squares |
| ChessHandle.DefSetsUp | sgfcharm-chess/src/main/java/onion/w4v3xrmknycexlsd/lib/sgfcharm_chess/ChessHandle.kt:142-339 | DEF puts each of the 32 starting pieces alone on its square, sets white to move, and on an empty board yields exactly the starting position |
| ChessHandle.SetUp | sgfcharm-chess/src/main/java/onion/w4v3xrmknycexlsd/lib/sgfcharm_chess/ChessHandle.kt:142-339 | adding distinct-point pieces leaves the rest of the board unchanged |
| ChessHandle.CheckCaptureOn | sgfcharm-chess/src/main/java/onion/w4v3xrmknycexlsd/lib/sgfcharm_chess/ChessHandle.kt:37-50 | performs `CheckCapture` on the state |
| ChessHandle.MoveHandler | sgfcharm-chess/src/main/java/onion/w4v3xrmknycexlsd/lib/sgfcharm_chess/ChessHandle.kt:31-119 | performs `ChessMove` on the state, keeping the history valid (as intended, Findings row 4) |
| ChessHandle.CastleOn | sgfcharm-chess/src/main/java/onion/w4v3xrmknycexlsd/lib/sgfcharm_chess/ChessHandle.kt:59-98 | performs `Castle` on the state (as intended, Findings row 4) |
| ChessHandle.VacateOn | sgfcharm-chess/src/main/java/onion/w4v3xrmknycexlsd/lib/sgfcharm_chess/ChessHandle.kt:73-74 | performs `Vacate` on the state |
| ChessHandle.CustomPropertyHandler | sgfcharm-chess/src/main/java/onion/w4v3xrmknycexlsd/lib/sgfcharm_chess/ChessHandle.kt:137-344 | performs `ChessCustom` on the state |
| NodeHandler.DefaultRegistry | sgfcharm/src/main/java/onion/w4v3xrmknycexlsd/lib/sgfcharm/handle/SgfNodeHandler.kt:213-215 | initially only Go (game 1) has a move handler, and there is no custom handler |
| NodeHandler.Action | sgfcharm/src/main/java/onion/w4v3xrmknycexlsd/lib/sgfcharm/handle/SgfNodeHandler.kt:58-138 | the dispatch of `processNode`, with GB under its own info key |
| NodeHandler.RunMoveHandler | sgfcharm/src/main/java/onion/w4v3xrmknycexlsd/lib/sgfcharm/handle/SgfNodeHandler.kt:142-146 | a move handler changes only the board and the last frame |
| NodeHandler.MakeMove | sgfcharm/src/main/java/onion/w4v3xrmknycexlsd/lib/sgfcharm/handle/SgfNodeHandler.kt:145-146 | a move keeps the number of frames |
| NodeHandler.RefusedMoveIgnored | sgfcharm/src/main/java/onion/w4v3xrmknycexlsd/lib/sgfcharm/handle/SgfNodeHandler.kt:145-146 | a null handler result adds no move info; a non-null result goes to `addMoveInfo` |
| NodeHandler.StandingOn | sgfcharm/src/main/java/onion/w4v3xrmknycexlsd/lib/sgfcharm/handle/SgfNodeHandler.kt:159 | exactly the pieces standing on the point |
| NodeHandler.RemovePoints | sgfcharm/src/main/java/onion/w4v3xrmknycexlsd/lib/sgfcharm/handle/SgfNodeHandler.kt:155-162 | AE changes only the board and the last frame |
| NodeHandler.RemovePointsFacts | sgfcharm/src/main/java/onion/w4v3xrmknycexlsd/lib/sgfcharm/handle/SgfNodeHandler.kt:155-162 | AE removes every piece on the listed points and only those |
| NodeHandler.AddStonesFacts | sgfcharm/src/main/java/onion/w4v3xrmknycexlsd/lib/sgfcharm/handle/SgfNodeHandler.kt:149-152 | AB/AW put each listed stone, in the given colour, alone on its point |
| NodeHandler.SetColorNext | sgfcharm/src/main/java/onion/w4v3xrmknycexlsd/lib/sgfcharm/handle/SgfNodeHandler.kt:168-171 | PL makes that colour the next to play and adds the player info |
| NodeHandler.InheritMarksPresent | sgfcharm/src/main/java/onion/w4v3xrmknycexlsd/lib/sgfcharm/handle/SgfNodeHandler.kt:206-208 | an empty DD/VW list gives the clearing `[null]` frame; otherwise the marks of the points |
| NodeHandler.InheritsShown | sgfcharm/src/main/java/onion/w4v3xrmknycexlsd/lib/sgfcharm/handle/SgfNodeHandler.kt:206-208 | after DD/VW the shown sticky markup is exactly that list's marks, and an empty list clears it |
| NodeHandler.GameIdFacts | sgfcharm/src/main/java/onion/w4v3xrmknycexlsd/lib/sgfcharm/handle/SgfNodeHandler.kt:173-179 | GM sets the game id, a 19 × 19 board for Go and 8 × 8 otherwise, and the registered move handler or Go's |
| NodeHandler.VariationsDecode | sgfcharm/src/main/java/onion/w4v3xrmknycexlsd/lib/sgfcharm/handle/SgfNodeHandler.kt:185-191 | ST: an odd value means siblings, and variations are shown iff the value is below 2 |
| NodeHandler.BoardEffect | sgfcharm/src/main/java/onion/w4v3xrmknycexlsd/lib/sgfcharm/handle/SgfNodeHandler.kt:59-66 | move and setup properties keep the number of frames |
| NodeHandler.InfoEffect | sgfcharm/src/main/java/onion/w4v3xrmknycexlsd/lib/sgfcharm/handle/SgfNodeHandler.kt:67-79 | info properties change neither the board, the markup nor the history |
| NodeHandler.MarkupEffect | sgfcharm/src/main/java/onion/w4v3xrmknycexlsd/lib/sgfcharm/handle/SgfNodeHandler.kt:80-88 | markup properties change only the markup |
| NodeHandler.ConfigEffect | sgfcharm/src/main/java/onion/w4v3xrmknycexlsd/lib/sgfcharm/handle/SgfNodeHandler.kt:97-99 | GM, ST and SZ change only the game settings, and only GM changes the move handler |
| NodeHandler.Apply | sgfcharm/src/main/java/onion/w4v3xrmknycexlsd/lib/sgfcharm/handle/SgfNodeHandler.kt:58-138 | a property keeps the number of frames, and only GM changes the move handler |
| NodeHandler.HandleCustom | sgfcharm/src/main/java/onion/w4v3xrmknycexlsd/lib/sgfcharm/handle/SgfNodeHandler.kt:134-137 | with no custom handler a custom property does nothing |
| NodeHandler.HandleProperty | sgfcharm/src/main/java/onion/w4v3xrmknycexlsd/lib/sgfcharm/handle/SgfNodeHandler.kt:58-138 | handling a property keeps the number of frames (as intended, Findings row 3) |
| NodeHandler.HandleProperties | sgfcharm/src/main/java/onion/w4v3xrmknycexlsd/lib/sgfcharm/handle/SgfNodeHandler.kt:57-139 | handling a list of properties keeps the number of frames |
| NodeHandler.HandlePropertiesAppend | sgfcharm/src/main/java/onion/w4v3xrmknycexlsd/lib/sgfcharm/handle/SgfNodeHandler.kt:57 | properties are handled in node order, one after the other |
| NodeHandler.ProcessNodeFrames | sgfcharm/src/main/java/onion/w4v3xrmknycexlsd/lib/sgfcharm/handle/SgfNodeHandler.kt:55-57 | a node opens exactly one frame in each history, then handles its properties in order |
| NodeHandler.GoodForBlackAsWritten | sgfcharm/src/main/java/onion/w4v3xrmknycexlsd/lib/sgfcharm/handle/SgfNodeHandler.kt:70 | as written, GB has the same effect as DM; as intended, it differs |
| NodeHandler.Companion.constructor | sgfcharm/src/main/java/onion/w4v3xrmknycexlsd/lib/sgfcharm/handle/SgfNodeHandler.kt:213-215 | the companion starts with the default registrations |
| NodeHandler.Companion.UseMoveHandler | sgfcharm/src/main/java/onion/w4v3xrmknycexlsd/lib/sgfcharm/handle/SgfNodeHandler.kt:238-240 | registers the move handler for that game id only |
| NodeHandler.Companion.UseCustomPropertyHandler | sgfcharm/src/main/java/onion/w4v3xrmknycexlsd/lib/sgfcharm/handle/SgfNodeHandler.kt:252-254 | replaces the custom handler only |
| NodeHandler.SgfNodeHandler.constructor | sgfcharm/src/main/java/onion/w4v3xrmknycexlsd/lib/sgfcharm/handle/SgfNodeHandler.kt:142-143 | a new node handler uses Go's move handler |
| NodeHandler.SgfNodeHandler.ProcessNode | sgfcharm/src/main/java/onion/w4v3xrmknycexlsd/lib/sgfcharm/handle/SgfNodeHandler.kt:55-140 | processes the node as `HandleNode` specifies, records one snapshot and keeps the history valid (as intended, Findings row 3) |
| NodeHandler.HandlePropertyOn | sgfcharm/src/main/java/onion/w4v3xrmknycexlsd/lib/sgfcharm/handle/SgfNodeHandler.kt:58-138 | handles one property as `HandleProperty` specifies |
| NodeHandler.BoardOn | sgfcharm/src/main/java/onion/w4v3xrmknycexlsd/lib/sgfcharm/handle/SgfNodeHandler.kt:59-66 | performs `BoardEffect` on the state |
| NodeHandler.MakeMoveOn | sgfcharm/src/main/java/onion/w4v3xrmknycexlsd/lib/sgfcharm/handle/SgfNodeHandler.kt:145-146 | performs `MakeMove` on the state |
| NodeHandler.InfoOn | sgfcharm/src/main/java/onion/w4v3xrmknycexlsd/lib/sgfcharm/handle/SgfNodeHandler.kt:67-126 | performs `InfoEffect` on the state |
| NodeHandler.MarkupOn | sgfcharm/src/main/java/onion/w4v3xrmknycexlsd/lib/sgfcharm/handle/SgfNodeHandler.kt:80-133 | performs `MarkupEffect` on the state |
| NodeHandler.ConfigOn | sgfcharm/src/main/java/onion/w4v3xrmknycexlsd/lib/sgfcharm/handle/SgfNodeHandler.kt:173-191 | performs `ConfigEffect` on the state |
| Navigator.GetOrNull | sgfcharm/src/main/java/onion/w4v3xrmknycexlsd/lib/sgfcharm/parse/SgfNavigator.kt:50 | an element exactly when the index is in range, and then that element |
| Navigator.Take | sgfcharm/src/main/java/onion/w4v3xrmknycexlsd/lib/sgfcharm/parse/SgfNavigator.kt:139 | the first n elements, or all of them |
| Navigator.Drop | sgfcharm/src/main/java/onion/w4v3xrmknycexlsd/lib/sgfcharm/parse/SgfNavigator.kt:140 | what `take` leaves, so that the two parts give the whole |
| Navigator.NextSteps | sgfcharm/src/main/java/onion/w4v3xrmknycexlsd/lib/sgfcharm/parse/SgfNavigator.kt:46-59 | `nextNode` advances within the sequence, else descends into child 0 at index 0, else returns null with no change |
| Navigator.Unbranch | sgfcharm/src/main/java/onion/w4v3xrmknycexlsd/lib/sgfcharm/parse/SgfNavigator.kt:163-170 | deleting the branch keeps the number of trees |
| Navigator.UnbranchOk | sgfcharm/src/main/java/onion/w4v3xrmknycexlsd/lib/sgfcharm/parse/SgfNavigator.kt:163-170 | deleting the branch keeps the trees well formed |
| Navigator.PreviousSteps | sgfcharm/src/main/java/onion/w4v3xrmknycexlsd/lib/sgfcharm/parse/SgfNavigator.kt:65-79 | `previousNode` steps back, else ascends to the parent's last node and leaves any user branch, else returns null at the root |
| Navigator.NextThenPrevious | sgfcharm/src/main/java/onion/w4v3xrmknycexlsd/lib/sgfcharm/parse/SgfNavigator.kt:46-79 | going forward and back returns to the same position and node |
| Navigator.PreviousThenNextIsMainLine | sgfcharm/src/main/java/onion/w4v3xrmknycexlsd/lib/sgfcharm/parse/SgfNavigator.kt:52-72 | back from a variation's first node and forward again enters the main variation |
| Navigator.FindChild | sgfcharm/src/main/java/onion/w4v3xrmknycexlsd/lib/sgfcharm/parse/SgfNavigator.kt:116-117 | the first child whose first node contains the move, or none exactly when no child does |
| Navigator.BranchShapes | sgfcharm/src/main/java/onion/w4v3xrmknycexlsd/lib/sgfcharm/parse/SgfNavigator.kt:132-150 | branching truncates the sequence after the cursor; child 0 holds the single node [move]; child 1 holds the remainder; old children shift up by two |
| Navigator.BranchWellFormed | sgfcharm/src/main/java/onion/w4v3xrmknycexlsd/lib/sgfcharm/parse/SgfNavigator.kt:132-150 | branching keeps the trees well formed |
| Navigator.ExtendTruncates | sgfcharm/src/main/java/onion/w4v3xrmknycexlsd/lib/sgfcharm/parse/SgfNavigator.kt:154-160 | inside a user branch a move truncates the branch after the cursor and appends the move |
| Navigator.Leave | sgfcharm/src/main/java/onion/w4v3xrmknycexlsd/lib/sgfcharm/parse/SgfNavigator.kt:107-123 | leaving the node by a variation, a matching child or a new branch keeps the cursor valid |
| Navigator.PlayOk | sgfcharm/src/main/java/onion/w4v3xrmknycexlsd/lib/sgfcharm/parse/SgfNavigator.kt:95-128 | `makeMove` keeps the cursor valid |
| Navigator.PlayFollows | sgfcharm/src/main/java/onion/w4v3xrmknycexlsd/lib/sgfcharm/parse/SgfNavigator.kt:101-124 | the next node holding the move is taken first; then a given variation, with no change when it does not exist; then, at the last node, the first child containing the move; else a new branch |
| Navigator.BranchRoundTrip | sgfcharm/src/main/java/onion/w4v3xrmknycexlsd/lib/sgfcharm/parse/SgfNavigator.kt:70-170 | creating a user branch and stepping back out restores the original nodes, children and position |
| Navigator.FirstMove | sgfcharm/src/main/java/onion/w4v3xrmknycexlsd/lib/sgfcharm/parse/SgfNavigator.kt:189-190 | the value of the node's first B or W property, and none without one |
| Navigator.LeadMoves | sgfcharm/src/main/java/onion/w4v3xrmknycexlsd/lib/sgfcharm/parse/SgfNavigator.kt:187-191 | one lead move per child, in order |
| Navigator.VariationsListed | sgfcharm/src/main/java/onion/w4v3xrmknycexlsd/lib/sgfcharm/parse/SgfNavigator.kt:181-206 | successor variations exist only at a sequence's last node, one per child; sibling variations only at a first node outside a user branch, one per sibling |
| Navigator.Path | sgfcharm/src/main/java/onion/w4v3xrmknycexlsd/lib/sgfcharm/parse/SgfNavigator.kt:211-226 | the index path is non-empty and starts with a node index of at least -1 |
| Navigator.Walk | sgfcharm/src/main/java/onion/w4v3xrmknycexlsd/lib/sgfcharm/parse/SgfNavigator.kt:233-236 | the descent stays inside the tree |
| Navigator.WalkAppend | sgfcharm/src/main/java/onion/w4v3xrmknycexlsd/lib/sgfcharm/parse/SgfNavigator.kt:233-236 | descending along two index lists is descending along one, then the other |
| Navigator.WalkIndices | sgfcharm/src/main/java/onion/w4v3xrmknycexlsd/lib/sgfcharm/parse/SgfNavigator.kt:211-242 | descending from the root along a tree's index path reaches that tree |
| Navigator.GoTo | sgfcharm/src/main/java/onion/w4v3xrmknycexlsd/lib/sgfcharm/parse/SgfNavigator.kt:230-242 | `goToIndices` keeps the cursor valid and the trees unchanged |
| Navigator.IndicesRoundTrip | sgfcharm/src/main/java/onion/w4v3xrmknycexlsd/lib/sgfcharm/parse/SgfNavigator.kt:211-242 | outside a user branch `goToIndices(currentIndices)` reaches the same tree and index; inside one it reaches the branch point |
| Navigator.SgfNavigator.constructor | sgfcharm/src/main/java/onion/w4v3xrmknycexlsd/lib/sgfcharm/parse/SgfNavigator.kt:36-40 | a new navigator stands before the root's first node, outside any user branch |
| Navigator.SgfNavigator.NextNode | sgfcharm/src/main/java/onion/w4v3xrmknycexlsd/lib/sgfcharm/parse/SgfNavigator.kt:46-59 | computes `Next` and keeps the navigator valid |
| Navigator.SgfNavigator.PreviousNode | sgfcharm/src/main/java/onion/w4v3xrmknycexlsd/lib/sgfcharm/parse/SgfNavigator.kt:65-79 | computes `Previous` and keeps the navigator valid |
| Navigator.SgfNavigator.DeleteUserBranch | sgfcharm/src/main/java/onion/w4v3xrmknycexlsd/lib/sgfcharm/parse/SgfNavigator.kt:163-170 | splices the branch out as `Unbranch` specifies and leaves branch mode |
| Navigator.SgfNavigator.MakeMove | sgfcharm/src/main/java/onion/w4v3xrmknycexlsd/lib/sgfcharm/parse/SgfNavigator.kt:95-128 | computes `Play` and keeps the navigator valid |
| Navigator.SgfNavigator.LeaveNode | sgfcharm/src/main/java/onion/w4v3xrmknycexlsd/lib/sgfcharm/parse/SgfNavigator.kt:107-123 | computes `Leave` |
| Navigator.SgfNavigator.CreateUserBranch | sgfcharm/src/main/java/onion/w4v3xrmknycexlsd/lib/sgfcharm/parse/SgfNavigator.kt:132-150 | computes `Branch` |
| Navigator.SgfNavigator.AddToUserBranch | sgfcharm/src/main/java/onion/w4v3xrmknycexlsd/lib/sgfcharm/parse/SgfNavigator.kt:154-160 | computes `Extend` |
| Navigator.SgfNavigator.Variations | sgfcharm/src/main/java/onion/w4v3xrmknycexlsd/lib/sgfcharm/parse/SgfNavigator.kt:181-206 | lists the variations `VariationMoves` specifies |
| Navigator.SgfNavigator.CurrentIndices | sgfcharm/src/main/java/onion/w4v3xrmknycexlsd/lib/sgfcharm/parse/SgfNavigator.kt:211-226 | the ascent loop computes the index path |
| Navigator.SgfNavigator.GoToIndices | sgfcharm/src/main/java/onion/w4v3xrmknycexlsd/lib/sgfcharm/parse/SgfNavigator.kt:230-242 | the descent loop computes `GoTo` and keeps the navigator valid |
| Navigator.SgfNavigator.WalkDown | sgfcharm/src/main/java/onion/w4v3xrmknycexlsd/lib/sgfcharm/parse/SgfNavigator.kt:233-236 | the descent loop collects the nodes `Walk` specifies |
| Controller.ShowsVariations | sgfcharm/src/main/java/onion/w4v3xrmknycexlsd/lib/sgfcharm/SgfController.kt:119 | the controller's setting wins over the state's |
| Controller.ProcessShowsVariations | sgfcharm/src/main/java/onion/w4v3xrmknycexlsd/lib/sgfcharm/SgfController.kt:116-127 | `process` handles the node, then sets the variation infos only if they are enabled by the controller or the state |
| Controller.ProcessFrames | sgfcharm/src/main/java/onion/w4v3xrmknycexlsd/lib/sgfcharm/SgfController.kt:116-127 | processing a node adds exactly one frame |
| Controller.ProcessAllFrames | sgfcharm/src/main/java/onion/w4v3xrmknycexlsd/lib/sgfcharm/SgfController.kt:97 | processing n nodes adds n frames |
| Controller.RedoStep | sgfcharm/src/main/java/onion/w4v3xrmknycexlsd/lib/sgfcharm/SgfController.kt:149 | `onRedo` processes the next node; a null result changes nothing |
| Controller.StepBackOrThrow | sgfcharm/src/main/java/onion/w4v3xrmknycexlsd/lib/sgfcharm/handle/SgfState.kt:156-167 | `stepBack` throws exactly when fewer than two frames remain; a throw after one pop leaves that pop done |
| Controller.UndoStep | sgfcharm/src/main/java/onion/w4v3xrmknycexlsd/lib/sgfcharm/SgfController.kt:152-156 | `onUndo` steps back and re-processes when there is a previous node; otherwise nothing happens |
| Controller.RedoThenUndo | sgfcharm/src/main/java/onion/w4v3xrmknycexlsd/lib/sgfcharm/SgfController.kt:149-156 | redo followed by undo returns to the same position with the same number of frames |
| Controller.MoveProperty | sgfcharm/src/main/java/onion/w4v3xrmknycexlsd/lib/sgfcharm/SgfController.kt:139-143 | the move is wrapped as B for black and W for white |
| Controller.PlayStep | sgfcharm/src/main/java/onion/w4v3xrmknycexlsd/lib/sgfcharm/SgfController.kt:139-145 | playing keeps the controller valid |
| Controller.Played | sgfcharm/src/main/java/onion/w4v3xrmknycexlsd/lib/sgfcharm/SgfController.kt:139-144 | playing leaves a loaded game |
| Controller.MoveStep | sgfcharm/src/main/java/onion/w4v3xrmknycexlsd/lib/sgfcharm/SgfController.kt:130-146 | DISABLE or no game does nothing; in siblings mode with variations shown and an index, undo comes first; then the move is played |
| Controller.MoveBranchesWithNextColor | sgfcharm/src/main/java/onion/w4v3xrmknycexlsd/lib/sgfcharm/SgfController.kt:139-144 | an unmatched move mid-sequence opens a user branch whose node is the move of the next colour |
| Controller.Parse | sgfcharm/src/main/java/onion/w4v3xrmknycexlsd/lib/sgfcharm/SgfController.kt:92 | the first parsed tree, if any, is a well-formed root |
| Controller.NewGame | sgfcharm/src/main/java/onion/w4v3xrmknycexlsd/lib/sgfcharm/SgfController.kt:92-95 | a game exists exactly when the text holds a tree; it starts before the root's first node with a fresh state |
| Controller.Start | sgfcharm/src/main/java/onion/w4v3xrmknycexlsd/lib/sgfcharm/SgfController.kt:92-95 | a started game is valid |
| Controller.WalkStep | sgfcharm/src/main/java/onion/w4v3xrmknycexlsd/lib/sgfcharm/SgfController.kt:97 | the nodes from `goToIndices` are processed in order, adding one frame each |
| Controller.LoadStep | sgfcharm/src/main/java/onion/w4v3xrmknycexlsd/lib/sgfcharm/SgfController.kt:86-103 | `loadAtIndices` keeps the old game if the text holds no tree, walks to the indices and processes the nodes on the way |
| Controller.LoadAtFirstNode | sgfcharm/src/main/java/onion/w4v3xrmknycexlsd/lib/sgfcharm/SgfController.kt:86-103 | loading with the default indices [0] stands on the root's first node with one frame |
| Controller.SgfController.constructor | sgfcharm/src/main/java/onion/w4v3xrmknycexlsd/lib/sgfcharm/SgfController.kt:48-63 | a new controller has no game and uses Go's move handler |
| Controller.SgfController.Into | sgfcharm/src/main/java/onion/w4v3xrmknycexlsd/lib/sgfcharm/SgfController.kt:107-109 | attaching a view (`into`, which goes through the `sgfViewAdapter` setter) sets the flag that `COUNTERMOVE`'s automatic reply depends on; the game, the handler and the settings stay as they were |
| Controller.SgfController.Process | sgfcharm/src/main/java/onion/w4v3xrmknycexlsd/lib/sgfcharm/SgfController.kt:116-127 | computes `ProcessStep` |
| Controller.SgfController.OnRedo | sgfcharm/src/main/java/onion/w4v3xrmknycexlsd/lib/sgfcharm/SgfController.kt:149 | computes `RedoStep` |
| Controller.SgfController.OnUndo | sgfcharm/src/main/java/onion/w4v3xrmknycexlsd/lib/sgfcharm/SgfController.kt:152-156 | computes `UndoStep`, reporting a thrown `stepBack` |
| Controller.SgfController.OnMove | sgfcharm/src/main/java/onion/w4v3xrmknycexlsd/lib/sgfcharm/SgfController.kt:130-146 | computes `MoveStep` |
| Controller.SgfController.PlayMove | sgfcharm/src/main/java/onion/w4v3xrmknycexlsd/lib/sgfcharm/SgfController.kt:139-145 | computes `PlayStep` |
| Controller.SgfController.MoveAndProcess | sgfcharm/src/main/java/onion/w4v3xrmknycexlsd/lib/sgfcharm/SgfController.kt:139-144 | computes `Played` |
| Controller.SgfController.LoadAtIndices | sgfcharm/src/main/java/onion/w4v3xrmknycexlsd/lib/sgfcharm/SgfController.kt:86-103 | computes `LoadStep` and remembers the text |
| Controller.SgfController.LoadGame | sgfcharm/src/main/java/onion/w4v3xrmknycexlsd/lib/sgfcharm/SgfController.kt:90-95 | installs a fresh navigator and state when the text holds a tree, and keeps the old ones otherwise |
| Controller.SgfController.ParseText | sgfcharm/src/main/java/onion/w4v3xrmknycexlsd/lib/sgfcharm/SgfController.kt:92 | parses with a new Go parser |
| Controller.SgfController.Install | sgfcharm/src/main/java/onion/w4v3xrmknycexlsd/lib/sgfcharm/SgfController.kt:92-95 | installs the new game, if any |
| Controller.SgfController.GoAndProcess | sgfcharm/src/main/java/onion/w4v3xrmknycexlsd/lib/sgfcharm/SgfController.kt:97 | computes `WalkStep` |

## Left out

- Rendering, touch handling, the view adapter and `loadIntoView` are not modelled; the model records only whether a view is attached (`viewAttached`), because COUNTERMOVE's reply move depends on it.
- The Android `Bundle` save and restore (`putSgfController`/`getSgfController`) is not modelled: it is platform serialisation.
- The `sgfview` and `sgfcharmer` modules and the stale `CoordinateParsers.kt` are not part of this model: they are earlier iterations of the same code.
- The game strategies are closed: `useMoveHandler` and `useCustomPropertyHandler` can register only Go's or the chess plug-in's handlers. Arbitrary user-supplied lambdas cannot be represented without extern code.
- Kotlin's typed `SgfProperty` classes are one `Prop(id, value)` shape. `Action` dispatches on the value's shape, and a value of an unexpected shape is ignored; the parser never produces one.
- SgfValues.ParseReal: Real values are kept as text and accepted for plain decimal numerals with an optional sign, because floating point is not modelled; exponents and `NaN`/`Infinity` forms of `toFloatOrNull` are left out.
- SgfValues.ToIntOrNull: reads ASCII digits only, whereas Kotlin's `String.toIntOrNull` also accepts the other Unicode decimal digits (`"１９"` is 19). So `SZ`, `MN`, `ST`, `GM` and chess row numbers written in such digits decode to nothing in the model.
- NodeHandler.NumberText: a real value's info text is its source numeral, whereas the Kotlin code prints the parsed `Float` (`KM[7]` shows `7.0`, `KM[+6.50]` shows `6.5`, `TM[.5]` shows `0.5`). Floating-point formatting is not modelled.
- SgfValues.ToIntOrNull: `Int` is modelled as a mathematical integer bounded to the 32-bit range; move numbers and prisoner sums are unbounded, so Kotlin's 32-bit wrap-around on overflow is not modelled.
- SgfTree.IndexOf: `currentIndices` compares trees with the data-class `indexOf`, which is structural; the model compares arena indices. The two differ only when two sibling trees are equal in content.
- BoardState.StepBackRestores: the board after `stepBack` is promised equal as a multiset, because pieces re-added by undo go to the end of `_currentPieces` and the source does not restore the order.
- VariationMarker.MarkupVariations: requires at most 0xD800 - 65 variations, so that every label `'A' + i` stays a Unicode scalar value.
- ChessHandle.ChessCustom: DEF is modelled with `addPiece` in the listed order; the promise is that each starting piece stands alone on its square.
- Controller.SgfController.LoadAtIndices: requires indices that are non-empty with a node index of at least -1, and that an old game kept after a failed parse is outside a user branch.
- Navigator.SgfNavigator.GoToIndices: requires the navigator to be outside a user branch; the controller only calls it on a fresh navigator.
- Navigator.Unbranch: deleting a user branch leaves the removed trees as unreachable records in the arena instead of freeing them.
- Controller.SgfController.OnUndo: after a `stepBack` that throws (fewer than two frames), the controller's invariant is not promised, because the source leaves the state half popped.
- Controller.SgfController.OnMove: a thrown `stepBack` during the sibling undo is reported, and the move is then not played, as the exception would abort `onMove`.

## Findings

| source | as written | input that shows it | evidently intended | confidence | as-written member | corrected member |
|---|---|---|---|---|---|---|
| sgfcharm/src/main/java/onion/w4v3xrmknycexlsd/lib/sgfcharm/parse/SgfParser.kt:373-374 | `Regex("\\s&&[^\n]")` has `&&` outside a character class, so it matches a whitespace character followed by two `&` and a non-newline character | `"a\tb"` keeps its tab; `" &&x"` becomes `" "` | every whitespace character other than line feed becomes a space | not executed | SgfValues.ParseTextAsWritten, SgfValues.ParseTextAsWrittenKeepsTabs | SgfValues.ParseText, SgfValues.TextKeepsLineBreaks |
| sgfcharm/src/main/java/onion/w4v3xrmknycexlsd/lib/sgfcharm/parse/GoCoordinateParser.kt:61 | uppercase letters map to their index plus 26, so `A` is 26 like `z` | `"zA"` and `"Az"` both parse to (26, 26) | `A`..`Z` map to 27..52 | not executed | GoCoordinates.GetIntAsWritten, GoCoordinates.GetIntAsWrittenCollides | GoCoordinates.GetInt, GoCoordinates.GetIntLetter |
| sgfcharm/src/main/java/onion/w4v3xrmknycexlsd/lib/sgfcharm/handle/SgfNodeHandler.kt:70 | GB adds its node info under DM's key | `GB[1]` has the same effect on the state as `DM[1]` | GB is reported under its own key | not executed | NodeHandler.ActionAsWritten, NodeHandler.GoodForBlackAsWritten | NodeHandler.Action |
| sgfcharm-chess/src/main/java/onion/w4v3xrmknycexlsd/lib/sgfcharm_chess/ChessHandle.kt:84-97 | the king and rook are re-added only for long castling | white king e1, rook h1, move `0-0`: the board ends empty | short castling puts the king on g1 and the rook on f1 | not executed | ChessHandle.ChessMoveAsWritten, ChessHandle.CastleAsWrittenShort, ChessHandle.ShortCastlingLosesKing | ChessHandle.ChessMove, ChessHandle.CastleFacts |
