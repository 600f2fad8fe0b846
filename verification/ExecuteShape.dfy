/** The typed shape of
    execute(uint8,address,uint256,uint256,address,uint256,bytes32,(uint8,address,address,address,uint256,bytes32)[]):
    the bytes its arguments encode to, and an independent reader of those bytes. */
module ExecuteShape {
  import opened Outcomes
  import Ordering
  import opened AbiWords
  import opened AbiSpec
  import opened AbiShapes
  import RouteEncoding

  datatype LegFields = LegFields(route: RouteEncoding.RouteLeg, minOut: nat)

  datatype Fields = Fields(provider: nat, borrowToken: seq<byte>, amountBorrow: nat, minProfit: nat,
                           profitTo: seq<byte>, deadline: nat, routeId: seq<byte>, legs: seq<LegFields>)

  ghost predicate LegFits(l: LegFields) { RouteEncoding.FixedSizes(l.route) && l.minOut < WORD_LIMIT }

  ghost predicate Fits(f: Fields) {
    && f.provider < WORD_LIMIT && f.amountBorrow < WORD_LIMIT && f.minProfit < WORD_LIMIT && f.deadline < WORD_LIMIT
    && |f.borrowToken| == 20 && |f.profitTo| == 20 && |f.routeId| == 32
    && |f.legs| <= 255 && forall i | 0 <= i < |f.legs| :: LegFits(f.legs[i])
  }

  const LEG_TY: Ty := WordTupleTy(6)
  const EXECUTE_TY: Ty := TTuple(Words(7, [TArray(LEG_TY)]))

  function LegWords(l: LegFields): seq<nat> {
    [l.route.dexId, FromBytes(l.route.venue), FromBytes(l.route.tokenIn), FromBytes(l.route.tokenOut), l.minOut,
     FromBytes(l.route.aux)]
  }

  function LegVal(l: LegFields): Val { VTuple(WordVals(LegWords(l), [])) }

  function LegVals(legs: seq<LegFields>): (vs: seq<Val>)
    ensures |vs| == |legs|
  {
    if legs == [] then [] else LegVals(legs[..|legs|-1]) + [LegVal(legs[|legs|-1])]
  }

  function HeadWords(f: Fields): seq<nat> {
    [f.provider, FromBytes(f.borrowToken), f.amountBorrow, f.minProfit, FromBytes(f.profitTo), f.deadline,
     FromBytes(f.routeId)]
  }

  /** The typed argument tuple of the call. */
  function ExecuteVal(f: Fields): Val { VTuple(WordVals(HeadWords(f), [VArray(LegVals(f.legs))])) }

  // -------------------------------------------------------------------- the bytes

  lemma AddressIsWord(a: seq<byte>)
    requires |a| == 20
    ensures AddressWord(a) == Word(FromBytes(a)) && FromBytes(a) < WORD_LIMIT
  {
    WordOfShortBytes(a);
  }

  lemma Bytes32IsWord(b: seq<byte>)
    requires |b| == 32
    ensures b == Word(FromBytes(b)) && FromBytes(b) < WORD_LIMIT
  {
    ToFrom(b);
  }

  lemma LegBytesAre(l: LegFields)
    requires LegFits(l)
    ensures Word(l.route.dexId) + AddressWord(l.route.venue) + AddressWord(l.route.tokenIn)
            + AddressWord(l.route.tokenOut) + Word(l.minOut) + l.route.aux
         == Enc(LEG_TY, LegVal(l))
  {
    AddressIsWord(l.route.venue);
    AddressIsWord(l.route.tokenIn);
    AddressIsWord(l.route.tokenOut);
    Bytes32IsWord(l.route.aux);
    SixWords(l.route.dexId, FromBytes(l.route.venue), FromBytes(l.route.tokenIn), FromBytes(l.route.tokenOut),
             l.minOut, FromBytes(l.route.aux));
    WordTuple(LegWords(l));
  }

  lemma SevenWords(a: nat, b: nat, c: nat, d: nat, e: nat, g: nat, h: nat)
    ensures WordBytes([a, b, c, d, e, g, h]) == Word(a) + Word(b) + Word(c) + Word(d) + Word(e) + Word(g) + Word(h)
  {
    WordBytesCons(a, [b, c, d, e, g, h]);
    SixWords(b, c, d, e, g, h);
  }

  lemma HeadBytesAre(f: Fields)
    requires |f.borrowToken| == 20 && |f.profitTo| == 20 && |f.routeId| == 32
    ensures Word(f.provider) + AddressWord(f.borrowToken) + Word(f.amountBorrow) + Word(f.minProfit)
            + AddressWord(f.profitTo) + Word(f.deadline) + f.routeId
         == WordBytes(HeadWords(f))
  {
    AddressIsWord(f.borrowToken);
    AddressIsWord(f.profitTo);
    Bytes32IsWord(f.routeId);
    SevenWords(f.provider, FromBytes(f.borrowToken), f.amountBorrow, f.minProfit, FromBytes(f.profitTo),
               f.deadline, FromBytes(f.routeId));
  }

  lemma ExecuteBytesAre(f: Fields)
    ensures Enc(EXECUTE_TY, ExecuteVal(f))
         == WordBytes(HeadWords(f)) + Word(256) + Enc(TArray(LEG_TY), VArray(LegVals(f.legs)))
  {
    WordsAndOneDynamic(HeadWords(f), TArray(LEG_TY), VArray(LegVals(f.legs)));
  }

  lemma LegArrayBytes(legs: seq<LegFields>)
    ensures Enc(TArray(LEG_TY), VArray(LegVals(legs))) == Word(|legs|) + ConcatEnc(LEG_TY, LegVals(legs))
  {
    WordTupleTyped([0, 0, 0, 0, 0, 0]);
    StaticArray(LEG_TY, LegVals(legs));
  }

  // ----------------------------------------------------------------------- typing

  lemma SixFit(a: nat, b: nat, c: nat, d: nat, e: nat, g: nat)
    requires a < WORD_LIMIT && b < WORD_LIMIT && c < WORD_LIMIT && d < WORD_LIMIT && e < WORD_LIMIT && g < WORD_LIMIT
    ensures AllWords([a, b, c, d, e, g])
  {
    FitsCons(g, []);
    FitsCons(e, [g]);
    FitsCons(d, [e, g]);
    FitsCons(c, [d, e, g]);
    FitsCons(b, [c, d, e, g]);
    FitsCons(a, [b, c, d, e, g]);
  }

  lemma LegTyped(l: LegFields)
    requires LegFits(l)
    ensures HasType(LEG_TY, LegVal(l)) && |Enc(LEG_TY, LegVal(l))| == 192
  {
    SmallFits(l.route.dexId);
    AddressIsWord(l.route.venue);
    AddressIsWord(l.route.tokenIn);
    AddressIsWord(l.route.tokenOut);
    Bytes32IsWord(l.route.aux);
    SixFit(l.route.dexId, FromBytes(l.route.venue), FromBytes(l.route.tokenIn), FromBytes(l.route.tokenOut),
           l.minOut, FromBytes(l.route.aux));
    WordTupleTyped(LegWords(l));
    WordTuple(LegWords(l));
  }

  lemma HeadTyped(f: Fields)
    requires Fits(f)
    ensures AllWords(HeadWords(f))
  {
    AddressIsWord(f.borrowToken);
    AddressIsWord(f.profitTo);
    Bytes32IsWord(f.routeId);
    SixFit(FromBytes(f.borrowToken), f.amountBorrow, f.minProfit, FromBytes(f.profitTo), f.deadline,
           FromBytes(f.routeId));
    FitsCons(f.provider, HeadWords(f)[1..]);
  }

  lemma {:induction false} LegsTyped(legs: seq<LegFields>)
    requires forall i | 0 <= i < |legs| :: LegFits(legs[i])
    ensures |ConcatEnc(LEG_TY, LegVals(legs))| == 192 * |legs|
    ensures forall i | 0 <= i < |legs| :: HasType(LEG_TY, LegVals(legs)[i])
  {
    if legs != [] {
      var init, last := legs[..|legs|-1], legs[|legs|-1];
      LegsTyped(init);
      LegTyped(last);
      ConcatEncSnoc(LEG_TY, LegVals(init), LegVal(last));
    }
  }

  lemma ArrayTypedAndSmall(legs: seq<LegFields>)
    requires |legs| <= 255 && forall i | 0 <= i < |legs| :: LegFits(legs[i])
    ensures HasType(TArray(LEG_TY), VArray(LegVals(legs)))
    ensures |Enc(TArray(LEG_TY), VArray(LegVals(legs)))| == 32 + 192 * |legs|
  {
    LegsTyped(legs);
    ArrayTyped(LEG_TY, LegVals(legs));
    LegArrayBytes(legs);
    SmallFits(|legs|);
  }

  lemma ExecuteTyped(f: Fields)
    requires Fits(f)
    ensures HasType(EXECUTE_TY, ExecuteVal(f))
    ensures |Enc(EXECUTE_TY, ExecuteVal(f))| == 288 + 192 * |f.legs| < WORD_LIMIT
  {
    var t, v := TArray(LEG_TY), VArray(LegVals(f.legs));
    ArrayTypedAndSmall(f.legs);
    ExecuteBytesAre(f);
    HeadTyped(f);
    TypesCons(t, v, [], []);
    EmptyRight([t]);
    EmptyRight([v]);
    WordsThenTypes(HeadWords(f), [t], [v]);
    SmallFits(288 + 192 * |f.legs|);
  }

  // ------------------------------------------------------------------- the reader

  function AsWord(v: Val): nat { if v.VWord? then v.n else 0 }

  function ReadLegVal(v: Val): Option<LegFields> {
    if !v.VTuple? || |v.parts| != 6 || AsWord(v.parts[0]) > 255 then None
    else
      var w := v.parts;
      Some(LegFields(RouteEncoding.RouteLeg(AsWord(w[0]), ToBytes(AsWord(w[1]), 20), ToBytes(AsWord(w[2]), 20),
                              ToBytes(AsWord(w[3]), 20), ToBytes(AsWord(w[5]), 32)),
                     AsWord(w[4])))
  }

  function ReadLegVals(vs: seq<Val>): Option<seq<LegFields>> {
    if vs == [] then Some([])
    else
      var rest, last := ReadLegVals(vs[..|vs|-1]), ReadLegVal(vs[|vs|-1]);
      if last.None? || rest.None? then None else Some(rest.value + [last.value])
  }

  function ReadVal(v: Val): Option<Fields> {
    if !v.VTuple? || |v.parts| != 8 || !v.parts[7].VArray? then None
    else
      var w := v.parts;
      match ReadLegVals(w[7].items)
      case None => None
      case Some(legs) =>
        Some(Fields(AsWord(w[0]), ToBytes(AsWord(w[1]), 20), AsWord(w[2]), AsWord(w[3]),
                    ToBytes(AsWord(w[4]), 20), AsWord(w[5]), ToBytes(AsWord(w[6]), 32), legs))
  }

  /** Decodes the bytes after the selector by type and offset, and reads the words back. */
  function ReadExecute(calldata: seq<byte>): Option<Fields> {
    if |calldata| < 4 then None else
    match Dec(EXECUTE_TY, calldata[4..])
    case None => None
    case Some(v) => ReadVal(v)
  }

  lemma {:induction false} WordValsIndex(ns: seq<nat>, vs: seq<Val>, i: nat)
    requires i < |ns| + |vs|
    ensures WordVals(ns, vs)[i] == if i < |ns| then VWord(ns[i]) else vs[i - |ns|]
  {
    if ns != [] && i > 0 {
      WordValsIndex(ns[1..], vs, i - 1);
    }
  }

  lemma ReadLegBack(l: LegFields)
    requires LegFits(l)
    ensures ReadLegVal(LegVal(l)) == Some(l)
  {
    var ns := LegWords(l);
    WordValsIndex(ns, [], 0);
    WordValsIndex(ns, [], 1);
    WordValsIndex(ns, [], 2);
    WordValsIndex(ns, [], 3);
    WordValsIndex(ns, [], 4);
    WordValsIndex(ns, [], 5);
    ToFrom(l.route.venue);
    ToFrom(l.route.tokenIn);
    ToFrom(l.route.tokenOut);
    ToFrom(l.route.aux);
  }

  lemma ReadLegValsSnoc(vs: seq<Val>, v: Val, legs: seq<LegFields>, l: LegFields)
    requires ReadLegVals(vs) == Some(legs) && ReadLegVal(v) == Some(l)
    ensures ReadLegVals(vs + [v]) == Some(legs + [l])
  {
    SnocParts(vs, v);
  }

  lemma {:induction false} ReadLegsBack(legs: seq<LegFields>)
    requires forall i | 0 <= i < |legs| :: LegFits(legs[i])
    ensures ReadLegVals(LegVals(legs)) == Some(legs)
  {
    if legs != [] {
      var init, last := legs[..|legs|-1], legs[|legs|-1];
      ReadLegsBack(init);
      ReadLegBack(last);
      ReadLegValsSnoc(LegVals(init), LegVal(last), init, last);
      Ordering.InitAndLast(legs);
    }
  }

  /** The eight components of the encoded call. */
  lemma ExecuteParts(f: Fields, i: nat)
    requires Fits(f) && i < 7
    ensures ExecuteVal(f).VTuple? && |ExecuteVal(f).parts| == 8
    ensures ExecuteVal(f).parts[7] == VArray(LegVals(f.legs))
    ensures AsWord(ExecuteVal(f).parts[i]) == HeadWords(f)[i]
  {
    WordValsIndex(HeadWords(f), [VArray(LegVals(f.legs))], 7);
    WordValsIndex(HeadWords(f), [VArray(LegVals(f.legs))], i);
  }

  lemma BytesReadBack(f: Fields)
    requires Fits(f)
    ensures ToBytes(HeadWords(f)[1], 20) == f.borrowToken && ToBytes(HeadWords(f)[4], 20) == f.profitTo
    ensures ToBytes(HeadWords(f)[6], 32) == f.routeId
  {
    ToFrom(f.borrowToken);
    ToFrom(f.profitTo);
    ToFrom(f.routeId);
  }

  lemma ReadValBack(f: Fields)
    requires Fits(f)
    ensures ReadVal(ExecuteVal(f)) == Some(f)
  {
    ExecuteParts(f, 0);
    ExecuteParts(f, 1);
    ExecuteParts(f, 2);
    ExecuteParts(f, 3);
    ExecuteParts(f, 4);
    ExecuteParts(f, 5);
    ExecuteParts(f, 6);
    ReadLegsBack(f.legs);
    BytesReadBack(f);
  }

  /** The reader recovers all arguments and legs from the encoding, for any number of legs
      that the route format admits. */
  lemma ReadExecuteBack(selector: seq<byte>, f: Fields)
    requires Fits(f) && |selector| == 4
    ensures ReadExecute(selector + Enc(EXECUTE_TY, ExecuteVal(f))) == Some(f)
  {
    ExecuteTyped(f);
    DecodeEncode(EXECUTE_TY, ExecuteVal(f));
    assert (selector + Enc(EXECUTE_TY, ExecuteVal(f)))[4..] == Enc(EXECUTE_TY, ExecuteVal(f));
    ReadValBack(f);
  }
}
