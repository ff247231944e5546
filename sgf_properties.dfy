/**
 * `parsePropValue`: the typed property an identifier and its raw value make,
 * and how a repeated value extends a list-valued property.
 */
module SgfProperties {
  import opened Wrappers
  import opened SgfTree
  import opened SgfValues
  import opened CoordinateParser

  /**
   * The tag whose identifier is exactly `ident`, found character by
   * character; None for an identifier without a class of its own.
   */
  function IdOf(ident: string): Option<Id>
  {
    if |ident| == 1 then IdOfLetter(ident[0])
    else if |ident| == 2 then IdOfPair(ident[0], ident[1])
    else None
  }

  function IdOfLetter(c: char): Option<Id>
  {
    match c
    case 'B' => Some(IdB)
    case 'C' => Some(IdC)
    case 'N' => Some(IdN)
    case 'V' => Some(IdV)
    case 'W' => Some(IdW)
    case _ => None
  }

  function IdOfPair(c: char, d: char): Option<Id>
  {
    match c
    case 'A' => IdOfA(d)
    case 'B' => IdOfB(d)
    case 'C' => IdOfC(d)
    case 'D' => IdOfD(d)
    case 'E' => IdOfE(d)
    case 'F' => IdOfF(d)
    case 'G' => IdOfG(d)
    case 'H' => IdOfH(d)
    case 'I' => IdOfI(d)
    case 'K' => IdOfK(d)
    case 'L' => IdOfL(d)
    case 'M' => IdOfM(d)
    case 'O' => IdOfO(d)
    case 'P' => IdOfP(d)
    case 'R' => IdOfR(d)
    case 'S' => IdOfS(d)
    case 'T' => IdOfT(d)
    case 'U' => IdOfU(d)
    case 'V' => IdOfV(d)
    case 'W' => IdOfW(d)
    case _ => None
  }

  function IdOfA(d: char): Option<Id>
  {
    match d
    case 'B' => Some(IdAB)
    case 'E' => Some(IdAE)
    case 'N' => Some(IdAN)
    case 'P' => Some(IdAP)
    case 'R' => Some(IdAR)
    case 'W' => Some(IdAW)
    case _ => None
  }

  function IdOfB(d: char): Option<Id>
  {
    match d
    case 'L' => Some(IdBL)
    case 'M' => Some(IdBM)
    case 'R' => Some(IdBR)
    case 'T' => Some(IdBT)
    case _ => None
  }

  function IdOfC(d: char): Option<Id>
  {
    match d
    case 'A' => Some(IdCA)
    case 'P' => Some(IdCP)
    case 'R' => Some(IdCR)
    case _ => None
  }

  function IdOfD(d: char): Option<Id>
  {
    match d
    case 'D' => Some(IdDD)
    case 'M' => Some(IdDM)
    case 'O' => Some(IdDO)
    case 'T' => Some(IdDT)
    case _ => None
  }

  function IdOfE(d: char): Option<Id>
  {
    match d
    case 'V' => Some(IdEV)
    case _ => None
  }

  function IdOfF(d: char): Option<Id>
  {
    match d
    case 'F' => Some(IdFF)
    case 'G' => Some(IdFG)
    case _ => None
  }

  function IdOfG(d: char): Option<Id>
  {
    match d
    case 'B' => Some(IdGB)
    case 'C' => Some(IdGC)
    case 'M' => Some(IdGM)
    case 'N' => Some(IdGN)
    case 'W' => Some(IdGW)
    case _ => None
  }

  function IdOfH(d: char): Option<Id>
  {
    match d
    case 'A' => Some(IdHA)
    case 'O' => Some(IdHO)
    case _ => None
  }

  function IdOfI(d: char): Option<Id>
  {
    match d
    case 'T' => Some(IdIT)
    case _ => None
  }

  function IdOfK(d: char): Option<Id>
  {
    match d
    case 'M' => Some(IdKM)
    case 'O' => Some(IdKO)
    case _ => None
  }

  function IdOfL(d: char): Option<Id>
  {
    match d
    case 'B' => Some(IdLB)
    case 'N' => Some(IdLN)
    case _ => None
  }

  function IdOfM(d: char): Option<Id>
  {
    match d
    case 'A' => Some(IdMA)
    case 'N' => Some(IdMN)
    case _ => None
  }

  function IdOfO(d: char): Option<Id>
  {
    match d
    case 'B' => Some(IdOB)
    case 'N' => Some(IdON)
    case 'T' => Some(IdOT)
    case 'W' => Some(IdOW)
    case _ => None
  }

  function IdOfP(d: char): Option<Id>
  {
    match d
    case 'B' => Some(IdPB)
    case 'C' => Some(IdPC)
    case 'L' => Some(IdPL)
    case 'M' => Some(IdPM)
    case 'W' => Some(IdPW)
    case _ => None
  }

  function IdOfR(d: char): Option<Id>
  {
    match d
    case 'E' => Some(IdRE)
    case 'O' => Some(IdRO)
    case 'U' => Some(IdRU)
    case _ => None
  }

  function IdOfS(d: char): Option<Id>
  {
    match d
    case 'L' => Some(IdSL)
    case 'O' => Some(IdSO)
    case 'Q' => Some(IdSQ)
    case 'T' => Some(IdST)
    case 'Z' => Some(IdSZ)
    case _ => None
  }

  function IdOfT(d: char): Option<Id>
  {
    match d
    case 'B' => Some(IdTB)
    case 'E' => Some(IdTE)
    case 'M' => Some(IdTM)
    case 'R' => Some(IdTR)
    case 'W' => Some(IdTW)
    case _ => None
  }

  function IdOfU(d: char): Option<Id>
  {
    match d
    case 'C' => Some(IdUC)
    case 'S' => Some(IdUS)
    case _ => None
  }

  function IdOfV(d: char): Option<Id>
  {
    match d
    case 'W' => Some(IdVW)
    case _ => None
  }

  function IdOfW(d: char): Option<Id>
  {
    match d
    case 'L' => Some(IdWL)
    case 'R' => Some(IdWR)
    case 'T' => Some(IdWT)
    case _ => None
  }

  /** Reading a tag's identifier gives back the tag. */
  lemma NameOfId(id: Id)
    ensures IdOf(IdName(id)) == Some(id)
  {
    NameOfGroup0(id);
    NameOfGroup1(id);
    NameOfGroup2(id);
    NameOfGroup3(id);
    NameOfGroup4(id);
    NameOfGroup5(id);
    NameOfGroup6(id);
    NameOfGroup7(id);
    NameOfGroup8(id);
    NameOfGroup9(id);
    NameOfGroup10(id);
    NameOfGroup11(id);
    NameOfGroup12(id);
    NameOfGroup13(id);
  }

  lemma NameOfGroup0(id: Id)
    ensures id.IdB? || id.IdKO? || id.IdMN? || id.IdW? || id.IdAB? ==> IdOf(IdName(id)) == Some(id)
  {
  }

  lemma NameOfGroup1(id: Id)
    ensures id.IdAE? || id.IdAW? || id.IdPL? || id.IdC? || id.IdDM? ==> IdOf(IdName(id)) == Some(id)
  {
  }

  lemma NameOfGroup2(id: Id)
    ensures id.IdGB? || id.IdGW? || id.IdHO? || id.IdN? || id.IdUC? ==> IdOf(IdName(id)) == Some(id)
  {
  }

  lemma NameOfGroup3(id: Id)
    ensures id.IdV? || id.IdBM? || id.IdDO? || id.IdIT? || id.IdTE? ==> IdOf(IdName(id)) == Some(id)
  {
  }

  lemma NameOfGroup4(id: Id)
    ensures id.IdAR? || id.IdCR? || id.IdDD? || id.IdLB? || id.IdLN? ==> IdOf(IdName(id)) == Some(id)
  {
  }

  lemma NameOfGroup5(id: Id)
    ensures id.IdMA? || id.IdSL? || id.IdSQ? || id.IdTR? || id.IdAP? ==> IdOf(IdName(id)) == Some(id)
  {
  }

  lemma NameOfGroup6(id: Id)
    ensures id.IdCA? || id.IdFF? || id.IdGM? || id.IdST? || id.IdSZ? ==> IdOf(IdName(id)) == Some(id)
  {
  }

  lemma NameOfGroup7(id: Id)
    ensures id.IdAN? || id.IdBR? || id.IdBT? || id.IdCP? || id.IdDT? ==> IdOf(IdName(id)) == Some(id)
  {
  }

  lemma NameOfGroup8(id: Id)
    ensures id.IdEV? || id.IdGN? || id.IdGC? || id.IdON? || id.IdOT? ==> IdOf(IdName(id)) == Some(id)
  {
  }

  lemma NameOfGroup9(id: Id)
    ensures id.IdPB? || id.IdPC? || id.IdPW? || id.IdRE? || id.IdRO? ==> IdOf(IdName(id)) == Some(id)
  {
  }

  lemma NameOfGroup10(id: Id)
    ensures id.IdRU? || id.IdSO? || id.IdTM? || id.IdUS? || id.IdWR? ==> IdOf(IdName(id)) == Some(id)
  {
  }

  lemma NameOfGroup11(id: Id)
    ensures id.IdWT? || id.IdBL? || id.IdOB? || id.IdOW? || id.IdWL? ==> IdOf(IdName(id)) == Some(id)
  {
  }

  lemma NameOfGroup12(id: Id)
    ensures id.IdFG? || id.IdPM? || id.IdVW? || id.IdHA? || id.IdKM? ==> IdOf(IdName(id)) == Some(id)
  {
  }

  lemma NameOfGroup13(id: Id)
    ensures id.IdTB? || id.IdTW? ==> IdOf(IdName(id)) == Some(id)
  {
  }

  lemma IdOfLetterName(c: char)
    ensures IdOfLetter(c).Some? ==> IdName(IdOfLetter(c).value) == [c]
  {
  }

  lemma IdOfAName(d: char)
    ensures IdOfA(d).Some? ==> IdName(IdOfA(d).value) == ['A', d]
  {
  }

  lemma IdOfBName(d: char)
    ensures IdOfB(d).Some? ==> IdName(IdOfB(d).value) == ['B', d]
  {
  }

  lemma IdOfCName(d: char)
    ensures IdOfC(d).Some? ==> IdName(IdOfC(d).value) == ['C', d]
  {
  }

  lemma IdOfDName(d: char)
    ensures IdOfD(d).Some? ==> IdName(IdOfD(d).value) == ['D', d]
  {
  }

  lemma IdOfEName(d: char)
    ensures IdOfE(d).Some? ==> IdName(IdOfE(d).value) == ['E', d]
  {
  }

  lemma IdOfFName(d: char)
    ensures IdOfF(d).Some? ==> IdName(IdOfF(d).value) == ['F', d]
  {
  }

  lemma IdOfGName(d: char)
    ensures IdOfG(d).Some? ==> IdName(IdOfG(d).value) == ['G', d]
  {
  }

  lemma IdOfHName(d: char)
    ensures IdOfH(d).Some? ==> IdName(IdOfH(d).value) == ['H', d]
  {
  }

  lemma IdOfIName(d: char)
    ensures IdOfI(d).Some? ==> IdName(IdOfI(d).value) == ['I', d]
  {
  }

  lemma IdOfKName(d: char)
    ensures IdOfK(d).Some? ==> IdName(IdOfK(d).value) == ['K', d]
  {
  }

  lemma IdOfLName(d: char)
    ensures IdOfL(d).Some? ==> IdName(IdOfL(d).value) == ['L', d]
  {
  }

  lemma IdOfMName(d: char)
    ensures IdOfM(d).Some? ==> IdName(IdOfM(d).value) == ['M', d]
  {
  }

  lemma IdOfOName(d: char)
    ensures IdOfO(d).Some? ==> IdName(IdOfO(d).value) == ['O', d]
  {
  }

  lemma IdOfPName(d: char)
    ensures IdOfP(d).Some? ==> IdName(IdOfP(d).value) == ['P', d]
  {
  }

  lemma IdOfRName(d: char)
    ensures IdOfR(d).Some? ==> IdName(IdOfR(d).value) == ['R', d]
  {
  }

  lemma IdOfSName(d: char)
    ensures IdOfS(d).Some? ==> IdName(IdOfS(d).value) == ['S', d]
  {
  }

  lemma IdOfTName(d: char)
    ensures IdOfT(d).Some? ==> IdName(IdOfT(d).value) == ['T', d]
  {
  }

  lemma IdOfUName(d: char)
    ensures IdOfU(d).Some? ==> IdName(IdOfU(d).value) == ['U', d]
  {
  }

  lemma IdOfVName(d: char)
    ensures IdOfV(d).Some? ==> IdName(IdOfV(d).value) == ['V', d]
  {
  }

  lemma IdOfWName(d: char)
    ensures IdOfW(d).Some? ==> IdName(IdOfW(d).value) == ['W', d]
  {
  }

  lemma IdOfPairName(c: char, d: char)
    ensures IdOfPair(c, d).Some? ==> IdName(IdOfPair(c, d).value) == [c, d]
  {
    match c
    case 'A' => IdOfAName(d);
    case 'B' => IdOfBName(d);
    case 'C' => IdOfCName(d);
    case 'D' => IdOfDName(d);
    case 'E' => IdOfEName(d);
    case 'F' => IdOfFName(d);
    case 'G' => IdOfGName(d);
    case 'H' => IdOfHName(d);
    case 'I' => IdOfIName(d);
    case 'K' => IdOfKName(d);
    case 'L' => IdOfLName(d);
    case 'M' => IdOfMName(d);
    case 'O' => IdOfOName(d);
    case 'P' => IdOfPName(d);
    case 'R' => IdOfRName(d);
    case 'S' => IdOfSName(d);
    case 'T' => IdOfTName(d);
    case 'U' => IdOfUName(d);
    case 'V' => IdOfVName(d);
    case 'W' => IdOfWName(d);
    case _ =>
  }

  /** `IdOf` finds a tag only for that tag's exact identifier. */
  lemma IdOfName(ident: string)
    ensures IdOf(ident).Some? ==> IdName(IdOf(ident).value) == ident
  {
    if |ident| == 1 {
      IdOfLetterName(ident[0]);
      assert [ident[0]] == ident;
    } else if |ident| == 2 {
      IdOfPairName(ident[0], ident[1]);
      assert [ident[0], ident[1]] == ident;
    }
  }

  /**
   * Whether `property as? X` succeeds for the class X of tag `id`, so that
   * `parsePropValue` extends and returns that same object.
   */
  predicate Reuses(id: Id, prior: Option<Property>)
  {
    prior.Some? && prior.value.Prop? && prior.value.id == id
  }

  function PriorStones(id: Id, prior: Option<Property>): seq<Stone>
  {
    if Reuses(id, prior) && prior.value.value.StoneList? then prior.value.value.stones else []
  }

  function PriorPoints(id: Id, prior: Option<Property>): seq<XYPoint>
  {
    if Reuses(id, prior) && prior.value.value.PointList? then prior.value.value.points else []
  }

  function PriorPairs(id: Id, prior: Option<Property>): seq<(XYPoint, XYPoint)>
  {
    if Reuses(id, prior) && prior.value.value.PairList? then prior.value.value.pairs else []
  }

  function PriorLabels(id: Id, prior: Option<Property>): seq<(XYPoint, string)>
  {
    if Reuses(id, prior) && prior.value.value.LabelList? then prior.value.value.labels else []
  }

  /** The optional element as a list of zero or one element (`?.let { add(it) }`). */
  function OneOrNone<T>(v: Option<T>): seq<T>
  {
    match v case Some(x) => [x] case None => []
  }

  /** `coordinateParser::parsePoint` as a function value. */
  function Pt(codec: Codec): string -> Option<XYPoint>
  {
    s => ParsePoint(codec, s)
  }

  /** `String::parseSimpleText` as a component parser that never refuses. */
  function JustText(s: string): Option<string>
  {
    Some(ParseSimpleText(s))
  }

  /**
   * The `when (propIdent)` branch of a known identifier: list properties
   * extend the reused prior (or a fresh empty one) and are never refused;
   * every other property is built anew from `value` alone, or refused (None)
   * when the value does not read.
   */
  function ParseKnown(codec: Codec, id: Id, value: string, prior: Option<Property>): (r: Option<Property>)
    ensures r.Some? ==> r.value.Prop? && r.value.id == id
    ensures IsList(id) ==> r.Some?
  {
    match id
    case IdB | IdKO | IdMN | IdW | IdAB | IdAE | IdAW | IdPL =>
      ParseMoveSetup(codec, id, value, prior)
    case IdC | IdDM | IdGB | IdGW | IdHO | IdN | IdUC | IdV | IdBM | IdDO | IdIT | IdTE =>
      ParseAnnotation(codec, id, value, prior)
    case IdAR | IdCR | IdDD | IdLB | IdLN | IdMA | IdSL | IdSQ | IdTR =>
      ParseMarkup(codec, id, value, prior)
    case IdAP | IdCA | IdFF | IdGM | IdST | IdSZ =>
      ParseRoot(codec, id, value, prior)
    case IdAN | IdBR | IdBT | IdCP | IdDT | IdEV | IdGN | IdGC | IdON | IdOT | IdPB =>
      ParseGameInfo(codec, id, value, prior)
    case IdPC | IdPW | IdRE | IdRO | IdRU | IdSO | IdTM | IdUS | IdWR | IdWT =>
      ParseGameInfoRest(codec, id, value, prior)
    case IdBL | IdOB | IdOW | IdWL =>
      ParseTiming(codec, id, value, prior)
    case IdFG | IdPM | IdVW =>
      ParseMisc(codec, id, value, prior)
    case IdHA | IdKM | IdTB | IdTW =>
      ParseGoSpecific(codec, id, value, prior)
  }

  /** `parsePropValue` for the move and setup properties; None for any other tag. */
  function ParseMoveSetup(codec: Codec, id: Id, value: string, prior: Option<Property>): (r: Option<Property>)
    ensures r.Some? ==> r.value.Prop? && r.value.id == id
    ensures IsList(id) && (id.IdB? || id.IdKO? || id.IdMN? || id.IdW? || id.IdAB? || id.IdAE? || id.IdAW? || id.IdPL?) ==> r.Some?
  {
    match id
    case IdB => Some(Prop(IdB, MoveValue(ParseMove(codec, value))))
    case IdKO => Some(Prop(IdKO, NoValue))
    case IdMN => (match ParseNumber(value) case Some(n) => Some(Prop(IdMN, NumberValue(n))) case None => None)
    case IdW => Some(Prop(IdW, MoveValue(ParseMove(codec, value))))
    case IdAB => Some(Prop(IdAB, StoneList(PriorStones(id, prior) + ParseStoneList(codec, value))))
    case IdAE => Some(Prop(IdAE, PointList(PriorPoints(id, prior) + ParsePointList(codec, value))))
    case IdAW => Some(Prop(IdAW, StoneList(PriorStones(id, prior) + ParseStoneList(codec, value))))
    case IdPL => (match ParseColor(value) case Some(c) => Some(Prop(IdPL, ColorValue(c))) case None => None)
    case _ => None
  }

  /** `parsePropValue` for the node and move annotation properties; None for any other tag. */
  function ParseAnnotation(codec: Codec, id: Id, value: string, prior: Option<Property>): (r: Option<Property>)
    ensures r.Some? ==> r.value.Prop? && r.value.id == id
    ensures IsList(id) && (id.IdC? || id.IdDM? || id.IdGB? || id.IdGW? || id.IdHO? || id.IdN? || id.IdUC? || id.IdV? || id.IdBM? || id.IdDO? || id.IdIT? || id.IdTE?) ==> r.Some?
  {
    match id
    case IdC => Some(Prop(IdC, TextValue(ParseText(value))))
    case IdDM => (match ParseDouble(value) case Some(e) => Some(Prop(IdDM, DoubleValue(e))) case None => None)
    case IdGB => (match ParseDouble(value) case Some(e) => Some(Prop(IdGB, DoubleValue(e))) case None => None)
    case IdGW => (match ParseDouble(value) case Some(e) => Some(Prop(IdGW, DoubleValue(e))) case None => None)
    case IdHO => (match ParseDouble(value) case Some(e) => Some(Prop(IdHO, DoubleValue(e))) case None => None)
    case IdN => Some(Prop(IdN, TextValue(ParseSimpleText(value))))
    case IdUC => (match ParseDouble(value) case Some(e) => Some(Prop(IdUC, DoubleValue(e))) case None => None)
    case IdV => (match ParseReal(value) case Some(x) => Some(Prop(IdV, RealValue(x))) case None => None)
    case IdBM => (match ParseDouble(value) case Some(e) => Some(Prop(IdBM, DoubleValue(e))) case None => None)
    case IdDO => Some(Prop(IdDO, NoValue))
    case IdIT => Some(Prop(IdIT, NoValue))
    case IdTE => (match ParseDouble(value) case Some(e) => Some(Prop(IdTE, DoubleValue(e))) case None => None)
    case _ => None
  }

  /** `parsePropValue` for the markup properties; None for any other tag. */
  function ParseMarkup(codec: Codec, id: Id, value: string, prior: Option<Property>): (r: Option<Property>)
    ensures r.Some? ==> r.value.Prop? && r.value.id == id
    ensures IsList(id) && (id.IdAR? || id.IdCR? || id.IdDD? || id.IdLB? || id.IdLN? || id.IdMA? || id.IdSL? || id.IdSQ? || id.IdTR?) ==> r.Some?
  {
    match id
    case IdAR => Some(Prop(IdAR, PairList(PriorPairs(id, prior) + OneOrNone(ParseCompose(value, Pt(codec), Pt(codec))))))
    case IdCR => Some(Prop(IdCR, PointList(PriorPoints(id, prior) + ParsePointList(codec, value))))
    case IdDD => Some(Prop(IdDD, PointList(PriorPoints(id, prior) + ParsePointList(codec, value))))
    case IdLB => Some(Prop(IdLB, LabelList(PriorLabels(id, prior) + OneOrNone(ParseCompose(value, Pt(codec), JustText)))))
    case IdLN => Some(Prop(IdLN, PairList(PriorPairs(id, prior) + OneOrNone(ParseCompose(value, Pt(codec), Pt(codec))))))
    case IdMA => Some(Prop(IdMA, PointList(PriorPoints(id, prior) + ParsePointList(codec, value))))
    case IdSL => Some(Prop(IdSL, PointList(PriorPoints(id, prior) + ParsePointList(codec, value))))
    case IdSQ => Some(Prop(IdSQ, PointList(PriorPoints(id, prior) + ParsePointList(codec, value))))
    case IdTR => Some(Prop(IdTR, PointList(PriorPoints(id, prior) + ParsePointList(codec, value))))
    case _ => None
  }

  /** `parsePropValue` for the root properties; None for any other tag. */
  function ParseRoot(codec: Codec, id: Id, value: string, prior: Option<Property>): (r: Option<Property>)
    ensures r.Some? ==> r.value.Prop? && r.value.id == id
    ensures IsList(id) && (id.IdAP? || id.IdCA? || id.IdFF? || id.IdGM? || id.IdST? || id.IdSZ?) ==> r.Some?
  {
    match id
    case IdAP => (match ParseCompose(value, JustText, JustText) case Some((a, b)) => Some(Prop(IdAP, AppValue(a, b))) case None => None)
    case IdCA => Some(Prop(IdCA, TextValue(ParseSimpleText(value))))
    case IdFF => (match ParseNumber(value) case Some(n) => Some(Prop(IdFF, NumberValue(n))) case None => None)
    case IdGM => (match ParseNumber(value) case Some(n) => Some(Prop(IdGM, NumberValue(n))) case None => None)
    case IdST => (match ParseNumber(value) case Some(n) => Some(Prop(IdST, NumberValue(n))) case None => None)
    case IdSZ => (match ParseNumberOrComposeNumber(value) case Some((c, r)) => Some(Prop(IdSZ, SizeValue(c, r))) case None => None)
    case _ => None
  }

  /** `parsePropValue` for the game-info properties; None for any other tag. */
  function ParseGameInfo(codec: Codec, id: Id, value: string, prior: Option<Property>): (r: Option<Property>)
    ensures r.Some? ==> r.value.Prop? && r.value.id == id
    ensures IsList(id) && (id.IdAN? || id.IdBR? || id.IdBT? || id.IdCP? || id.IdDT? || id.IdEV? || id.IdGN? || id.IdGC? || id.IdON? || id.IdOT? || id.IdPB?) ==> r.Some?
  {
    match id
    case IdAN => Some(Prop(IdAN, TextValue(ParseSimpleText(value))))
    case IdBR => Some(Prop(IdBR, TextValue(ParseSimpleText(value))))
    case IdBT => Some(Prop(IdBT, TextValue(ParseSimpleText(value))))
    case IdCP => Some(Prop(IdCP, TextValue(ParseSimpleText(value))))
    case IdDT => Some(Prop(IdDT, TextValue(ParseSimpleText(value))))
    case IdEV => Some(Prop(IdEV, TextValue(ParseSimpleText(value))))
    case IdGN => Some(Prop(IdGN, TextValue(ParseSimpleText(value))))
    case IdGC => Some(Prop(IdGC, TextValue(ParseText(value))))
    case IdON => Some(Prop(IdON, TextValue(ParseSimpleText(value))))
    case IdOT => Some(Prop(IdOT, TextValue(ParseSimpleText(value))))
    case IdPB => Some(Prop(IdPB, TextValue(ParseSimpleText(value))))
    case _ => None
  }

  /** `parsePropValue` for the remaining game-info properties; None for any other tag. */
  function ParseGameInfoRest(codec: Codec, id: Id, value: string, prior: Option<Property>): (r: Option<Property>)
    ensures r.Some? ==> r.value.Prop? && r.value.id == id
    ensures IsList(id) && (id.IdPC? || id.IdPW? || id.IdRE? || id.IdRO? || id.IdRU? || id.IdSO? || id.IdTM? || id.IdUS? || id.IdWR? || id.IdWT?) ==> r.Some?
  {
    match id
    case IdPC => Some(Prop(IdPC, TextValue(ParseSimpleText(value))))
    case IdPW => Some(Prop(IdPW, TextValue(ParseSimpleText(value))))
    case IdRE => Some(Prop(IdRE, TextValue(ParseSimpleText(value))))
    case IdRO => Some(Prop(IdRO, TextValue(ParseSimpleText(value))))
    case IdRU => Some(Prop(IdRU, TextValue(ParseSimpleText(value))))
    case IdSO => Some(Prop(IdSO, TextValue(ParseSimpleText(value))))
    case IdTM => (match ParseReal(value) case Some(x) => Some(Prop(IdTM, RealValue(x))) case None => None)
    case IdUS => Some(Prop(IdUS, TextValue(ParseSimpleText(value))))
    case IdWR => Some(Prop(IdWR, TextValue(ParseSimpleText(value))))
    case IdWT => Some(Prop(IdWT, TextValue(ParseSimpleText(value))))
    case _ => None
  }

  /** `parsePropValue` for the timing properties; None for any other tag. */
  function ParseTiming(codec: Codec, id: Id, value: string, prior: Option<Property>): (r: Option<Property>)
    ensures r.Some? ==> r.value.Prop? && r.value.id == id
    ensures IsList(id) && (id.IdBL? || id.IdOB? || id.IdOW? || id.IdWL?) ==> r.Some?
  {
    match id
    case IdBL => (match ParseReal(value) case Some(x) => Some(Prop(IdBL, RealValue(x))) case None => None)
    case IdOB => (match ParseNumber(value) case Some(n) => Some(Prop(IdOB, NumberValue(n))) case None => None)
    case IdOW => (match ParseNumber(value) case Some(n) => Some(Prop(IdOW, NumberValue(n))) case None => None)
    case IdWL => (match ParseReal(value) case Some(x) => Some(Prop(IdWL, RealValue(x))) case None => None)
    case _ => None
  }

  /** `parsePropValue` for the miscellaneous properties; None for any other tag. */
  function ParseMisc(codec: Codec, id: Id, value: string, prior: Option<Property>): (r: Option<Property>)
    ensures r.Some? ==> r.value.Prop? && r.value.id == id
    ensures IsList(id) && (id.IdFG? || id.IdPM? || id.IdVW?) ==> r.Some?
  {
    match id
    case IdFG => (match ParseCompose(value, ParseNumber, JustText) case Some((n, t)) => Some(Prop(IdFG, FigureValue(n, t))) case None => None)
    case IdPM => (match ParseNumber(value) case Some(n) => Some(Prop(IdPM, NumberValue(n))) case None => None)
    case IdVW => Some(Prop(IdVW, PointList(PriorPoints(id, prior) + ParsePointList(codec, value))))
    case _ => None
  }

  /** `parsePropValue` for the Go-specific properties; None for any other tag. */
  function ParseGoSpecific(codec: Codec, id: Id, value: string, prior: Option<Property>): (r: Option<Property>)
    ensures r.Some? ==> r.value.Prop? && r.value.id == id
    ensures IsList(id) && (id.IdHA? || id.IdKM? || id.IdTB? || id.IdTW?) ==> r.Some?
  {
    match id
    case IdHA => (match ParseNumber(value) case Some(n) => Some(Prop(IdHA, NumberValue(n))) case None => None)
    case IdKM => (match ParseReal(value) case Some(x) => Some(Prop(IdKM, RealValue(x))) case None => None)
    case IdTB => Some(Prop(IdTB, PointList(PriorPoints(id, prior) + ParsePointList(codec, value))))
    case IdTW => Some(Prop(IdTW, PointList(PriorPoints(id, prior) + ParsePointList(codec, value))))
    case _ => None
  }

  /**
   * `parsePropValue`: the property for identifier `ident` with raw value
   * `value`, given the property `prior` that earlier values of the same
   * identifier produced. A known identifier's result has that identifier and
   * is never refused for a list property; any unknown identifier gives a
   * CUSTOM property holding the identifier and the raw value.
   */
  function ParsePropValue(codec: Codec, ident: string, value: string, prior: Option<Property>): (r: Option<Property>)
    ensures r.Some? ==> Ident(r.value) == ident
    ensures IdOf(ident).Some? && IsList(IdOf(ident).value) ==> r.Some?
    ensures IdOf(ident).None? ==> r == Some(Custom(ident, value))
  {
    IdOfName(ident);
    match IdOf(ident)
    case Some(id) => ParseKnown(codec, id, value, prior)
    case None => Some(Custom(ident, value))
  }

  /** A further value of AB or AW appends its stones to the reused prior's. */
  lemma StoneListAccumulates(codec: Codec, id: Id, stones: seq<Stone>, value: string)
    requires id == IdAB || id == IdAW
    ensures ParseKnown(codec, id, value, Some(Prop(id, StoneList(stones))))
      == Some(Prop(id, StoneList(stones + ParseStoneList(codec, value))))
  {
  }

  /** The first value of AB or AW, with no prior: its stones alone. */
  lemma StoneListStarts(codec: Codec, id: Id, value: string)
    requires id == IdAB || id == IdAW
    ensures ParseKnown(codec, id, value, None) == Some(Prop(id, StoneList(ParseStoneList(codec, value))))
  {
    assert [] + ParseStoneList(codec, value) == ParseStoneList(codec, value);
  }

  /** A further value of a point-list property appends its points to the reused prior's. */
  lemma PointListAccumulates(codec: Codec, id: Id, points: seq<XYPoint>, value: string)
    requires IsList(id) && !(id == IdAB || id == IdAW || id == IdAR || id == IdLN || id == IdLB)
    ensures ParseKnown(codec, id, value, Some(Prop(id, PointList(points))))
      == Some(Prop(id, PointList(points + ParsePointList(codec, value))))
  {
    PointsMoveSetupAccumulate(codec, id, points, value);
    PointsMarkupAccumulate(codec, id, points, value);
    PointsMiscAccumulate(codec, id, points, value);
    PointsGoSpecificAccumulate(codec, id, points, value);
  }

  lemma PointsMoveSetupAccumulate(codec: Codec, id: Id, points: seq<XYPoint>, value: string)
    requires IsList(id) && !(id == IdAB || id == IdAW || id == IdAR || id == IdLN || id == IdLB)
    ensures var r := ParseMoveSetup(codec, id, value, Some(Prop(id, PointList(points))));
      r.Some? ==> r == Some(Prop(id, PointList(points + ParsePointList(codec, value))))
  {
    assert PriorPoints(id, Some(Prop(id, PointList(points)))) == points;
  }

  lemma PointsMarkupAccumulate(codec: Codec, id: Id, points: seq<XYPoint>, value: string)
    requires IsList(id) && !(id == IdAB || id == IdAW || id == IdAR || id == IdLN || id == IdLB)
    ensures var r := ParseMarkup(codec, id, value, Some(Prop(id, PointList(points))));
      r.Some? ==> r == Some(Prop(id, PointList(points + ParsePointList(codec, value))))
  {
    assert PriorPoints(id, Some(Prop(id, PointList(points)))) == points;
  }

  lemma PointsMiscAccumulate(codec: Codec, id: Id, points: seq<XYPoint>, value: string)
    requires IsList(id) && !(id == IdAB || id == IdAW || id == IdAR || id == IdLN || id == IdLB)
    ensures var r := ParseMisc(codec, id, value, Some(Prop(id, PointList(points))));
      r.Some? ==> r == Some(Prop(id, PointList(points + ParsePointList(codec, value))))
  {
    assert PriorPoints(id, Some(Prop(id, PointList(points)))) == points;
  }

  lemma PointsGoSpecificAccumulate(codec: Codec, id: Id, points: seq<XYPoint>, value: string)
    requires IsList(id) && !(id == IdAB || id == IdAW || id == IdAR || id == IdLN || id == IdLB)
    ensures var r := ParseGoSpecific(codec, id, value, Some(Prop(id, PointList(points))));
      r.Some? ==> r == Some(Prop(id, PointList(points + ParsePointList(codec, value))))
  {
    assert PriorPoints(id, Some(Prop(id, PointList(points)))) == points;
  }

  /** A further value of AR or LN appends at most one pair to the reused prior's. */
  lemma PairListAccumulates(codec: Codec, id: Id, pairs: seq<(XYPoint, XYPoint)>, value: string)
    requires id == IdAR || id == IdLN
    ensures ParseKnown(codec, id, value, Some(Prop(id, PairList(pairs))))
      == Some(Prop(id, PairList(pairs + OneOrNone(ParseCompose(value, Pt(codec), Pt(codec))))))
  {
  }

  /** A further value of LB appends at most one label to the reused prior's. */
  lemma LabelListAccumulates(codec: Codec, labels: seq<(XYPoint, string)>, value: string)
    ensures ParseKnown(codec, IdLB, value, Some(Prop(IdLB, LabelList(labels))))
      == Some(Prop(IdLB, LabelList(labels + OneOrNone(ParseCompose(value, Pt(codec), JustText)))))
  {
  }

  /** A property that is not a list is built from its own value only: earlier values are dropped. */
  lemma ScalarIgnoresPrior(codec: Codec, id: Id, value: string, prior: Option<Property>)
    requires !IsList(id)
    ensures ParseKnown(codec, id, value, prior) == ParseKnown(codec, id, value, None)
  {
    ScalarMoveSetupIgnoresPrior(codec, id, value, prior);
    ScalarAnnotationIgnoresPrior(codec, id, value, prior);
    ScalarMarkupIgnoresPrior(codec, id, value, prior);
    ScalarRootIgnoresPrior(codec, id, value, prior);
    ScalarGameInfoIgnoresPrior(codec, id, value, prior);
    ScalarGameInfoRestIgnoresPrior(codec, id, value, prior);
    ScalarTimingIgnoresPrior(codec, id, value, prior);
    ScalarMiscIgnoresPrior(codec, id, value, prior);
    ScalarGoSpecificIgnoresPrior(codec, id, value, prior);
  }

  lemma ScalarMoveSetupIgnoresPrior(codec: Codec, id: Id, value: string, prior: Option<Property>)
    requires !IsList(id)
    ensures ParseMoveSetup(codec, id, value, prior) == ParseMoveSetup(codec, id, value, None)
  {
  }

  lemma ScalarAnnotationIgnoresPrior(codec: Codec, id: Id, value: string, prior: Option<Property>)
    requires !IsList(id)
    ensures ParseAnnotation(codec, id, value, prior) == ParseAnnotation(codec, id, value, None)
  {
  }

  lemma ScalarMarkupIgnoresPrior(codec: Codec, id: Id, value: string, prior: Option<Property>)
    requires !IsList(id)
    ensures ParseMarkup(codec, id, value, prior) == ParseMarkup(codec, id, value, None)
  {
  }

  lemma ScalarRootIgnoresPrior(codec: Codec, id: Id, value: string, prior: Option<Property>)
    requires !IsList(id)
    ensures ParseRoot(codec, id, value, prior) == ParseRoot(codec, id, value, None)
  {
  }

  lemma ScalarGameInfoIgnoresPrior(codec: Codec, id: Id, value: string, prior: Option<Property>)
    requires !IsList(id)
    ensures ParseGameInfo(codec, id, value, prior) == ParseGameInfo(codec, id, value, None)
  {
  }

  lemma ScalarGameInfoRestIgnoresPrior(codec: Codec, id: Id, value: string, prior: Option<Property>)
    requires !IsList(id)
    ensures ParseGameInfoRest(codec, id, value, prior) == ParseGameInfoRest(codec, id, value, None)
  {
  }

  lemma ScalarTimingIgnoresPrior(codec: Codec, id: Id, value: string, prior: Option<Property>)
    requires !IsList(id)
    ensures ParseTiming(codec, id, value, prior) == ParseTiming(codec, id, value, None)
  {
  }

  lemma ScalarMiscIgnoresPrior(codec: Codec, id: Id, value: string, prior: Option<Property>)
    requires !IsList(id)
    ensures ParseMisc(codec, id, value, prior) == ParseMisc(codec, id, value, None)
  {
  }

  lemma ScalarGoSpecificIgnoresPrior(codec: Codec, id: Id, value: string, prior: Option<Property>)
    requires !IsList(id)
    ensures ParseGoSpecific(codec, id, value, prior) == ParseGoSpecific(codec, id, value, None)
  {
  }

  /** A prior of another class is not reused: the list starts afresh. */
  lemma ForeignPriorIgnored(codec: Codec, id: Id, value: string, prior: Property)
    requires !Reuses(id, Some(prior))
    ensures ParseKnown(codec, id, value, Some(prior)) == ParseKnown(codec, id, value, None)
  {
    ForeignMoveSetupIgnored(codec, id, value, prior);
    ForeignAnnotationIgnored(codec, id, value, prior);
    ForeignMarkupIgnored(codec, id, value, prior);
    ForeignRootIgnored(codec, id, value, prior);
    ForeignGameInfoIgnored(codec, id, value, prior);
    ForeignGameInfoRestIgnored(codec, id, value, prior);
    ForeignTimingIgnored(codec, id, value, prior);
    ForeignMiscIgnored(codec, id, value, prior);
    ForeignGoSpecificIgnored(codec, id, value, prior);
  }

  lemma ForeignMoveSetupIgnored(codec: Codec, id: Id, value: string, prior: Property)
    requires !Reuses(id, Some(prior))
    ensures ParseMoveSetup(codec, id, value, Some(prior)) == ParseMoveSetup(codec, id, value, None)
  {
    assert PriorStones(id, Some(prior)) == PriorStones(id, None) == [];
    assert PriorPoints(id, Some(prior)) == PriorPoints(id, None) == [];
    assert PriorPairs(id, Some(prior)) == PriorPairs(id, None) == [];
    assert PriorLabels(id, Some(prior)) == PriorLabels(id, None) == [];
  }

  lemma ForeignAnnotationIgnored(codec: Codec, id: Id, value: string, prior: Property)
    requires !Reuses(id, Some(prior))
    ensures ParseAnnotation(codec, id, value, Some(prior)) == ParseAnnotation(codec, id, value, None)
  {
  }

  lemma ForeignMarkupIgnored(codec: Codec, id: Id, value: string, prior: Property)
    requires !Reuses(id, Some(prior))
    ensures ParseMarkup(codec, id, value, Some(prior)) == ParseMarkup(codec, id, value, None)
  {
    assert PriorStones(id, Some(prior)) == PriorStones(id, None) == [];
    assert PriorPoints(id, Some(prior)) == PriorPoints(id, None) == [];
    assert PriorPairs(id, Some(prior)) == PriorPairs(id, None) == [];
    assert PriorLabels(id, Some(prior)) == PriorLabels(id, None) == [];
  }

  lemma ForeignRootIgnored(codec: Codec, id: Id, value: string, prior: Property)
    requires !Reuses(id, Some(prior))
    ensures ParseRoot(codec, id, value, Some(prior)) == ParseRoot(codec, id, value, None)
  {
  }

  lemma ForeignGameInfoIgnored(codec: Codec, id: Id, value: string, prior: Property)
    requires !Reuses(id, Some(prior))
    ensures ParseGameInfo(codec, id, value, Some(prior)) == ParseGameInfo(codec, id, value, None)
  {
  }

  lemma ForeignGameInfoRestIgnored(codec: Codec, id: Id, value: string, prior: Property)
    requires !Reuses(id, Some(prior))
    ensures ParseGameInfoRest(codec, id, value, Some(prior)) == ParseGameInfoRest(codec, id, value, None)
  {
  }

  lemma ForeignTimingIgnored(codec: Codec, id: Id, value: string, prior: Property)
    requires !Reuses(id, Some(prior))
    ensures ParseTiming(codec, id, value, Some(prior)) == ParseTiming(codec, id, value, None)
  {
  }

  lemma ForeignMiscIgnored(codec: Codec, id: Id, value: string, prior: Property)
    requires !Reuses(id, Some(prior))
    ensures ParseMisc(codec, id, value, Some(prior)) == ParseMisc(codec, id, value, None)
  {
    assert PriorStones(id, Some(prior)) == PriorStones(id, None) == [];
    assert PriorPoints(id, Some(prior)) == PriorPoints(id, None) == [];
    assert PriorPairs(id, Some(prior)) == PriorPairs(id, None) == [];
    assert PriorLabels(id, Some(prior)) == PriorLabels(id, None) == [];
  }

  lemma ForeignGoSpecificIgnored(codec: Codec, id: Id, value: string, prior: Property)
    requires !Reuses(id, Some(prior))
    ensures ParseGoSpecific(codec, id, value, Some(prior)) == ParseGoSpecific(codec, id, value, None)
  {
    assert PriorStones(id, Some(prior)) == PriorStones(id, None) == [];
    assert PriorPoints(id, Some(prior)) == PriorPoints(id, None) == [];
    assert PriorPairs(id, Some(prior)) == PriorPairs(id, None) == [];
    assert PriorLabels(id, Some(prior)) == PriorLabels(id, None) == [];
  }

}
