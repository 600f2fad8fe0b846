/** The executor calldata builder (calldata_builder.py), proved against ExecuteShape. */
module ExecutorCalldata {
  import opened Outcomes
  import opened AbiWords
  import opened AbiSpec
  import opened AbiShapes
  import opened RouteEncoding
  import opened ExecuteShape

  datatype Leg = Leg(route: EncLeg, minOut: int)

  datatype Args = Args(provider: string, borrowToken: Address, amountBorrow: int, minProfit: int, profitTo: Address,
                       deadline: int, legs: seq<Leg>)

  const SIGNATURE :=
    "execute(uint8,address,uint256,uint256,address,uint256,bytes32,(uint8,address,address,address,uint256,bytes32)[])"

  function Ascii(s: string): seq<byte> { seq(|s|, i requires 0 <= i < |s| => (s[i] as int) % 256) }

  /** The hash is any function to 32 bytes. */
  type Hash = seq<byte> -> Bytes32

  function Selector(hash: Hash): (r: seq<byte>)
    ensures |r| == 4
  {
    hash(Ascii(SIGNATURE))[..4]
  }

  function ProviderId(provider: string): Option<nat> {
    if provider == "aave" then Some(1) else if provider == "balancer" then Some(2) else None
  }

  predicate IsUint(n: int) { 0 <= n < WORD_LIMIT }

  predicate LegEncodable(leg: Leg) { DexId(leg.route.dex).Some? && IsUint(leg.minOut) }

  ghost predicate LegsEncodable(legs: seq<Leg>) { forall i | 0 <= i < |legs| :: LegEncodable(legs[i]) }

  /** What the builder accepts. */
  ghost predicate Encodable(a: Args) {
    && ProviderId(a.provider).Some? && |a.legs| <= 255 && LegsEncodable(a.legs)
    && IsUint(a.amountBorrow) && IsUint(a.minProfit) && IsUint(a.deadline)
  }

  function FieldsOfLeg(leg: Leg): LegFields
    requires LegEncodable(leg)
  {
    LegFields(Normal(leg.route), leg.minOut)
  }

  function FieldsOfLegs(legs: seq<Leg>): (r: seq<LegFields>)
    requires LegsEncodable(legs)
    ensures |r| == |legs| && forall i | 0 <= i < |legs| :: r[i] == FieldsOfLeg(legs[i])
  {
    seq(|legs|, i requires 0 <= i < |legs| => FieldsOfLeg(legs[i]))
  }

  function Routes(legs: seq<Leg>): (r: seq<EncLeg>)
    ensures |r| == |legs| && forall i | 0 <= i < |legs| :: r[i] == legs[i].route
  {
    seq(|legs|, i requires 0 <= i < |legs| => legs[i].route)
  }

  /** The routes of decoded legs. */
  function DecodedRoutes(legs: seq<LegFields>): (r: seq<RouteLeg>)
    ensures |r| == |legs| && forall i | 0 <= i < |legs| :: r[i] == legs[i].route
  {
    seq(|legs|, i requires 0 <= i < |legs| => legs[i].route)
  }

  function FieldsOf(hash: Hash, a: Args): Fields
    requires Encodable(a)
  {
    var legs := FieldsOfLegs(a.legs);
    Fields(ProviderId(a.provider).value, a.borrowToken, a.amountBorrow, a.minProfit, a.profitTo, a.deadline,
           hash(RouteBytes(DecodedRoutes(legs))), legs)
  }

  /** The arguments with the route id, as an independent reader must find them; None when
      the builder must refuse them. */
  ghost function Expected(hash: Hash, a: Args): (r: Option<Fields>)
    ensures r.Some? <==> Encodable(a)
    ensures r.Some? ==> Fits(r.value)
  {
    if Encodable(a) then
      FieldsFit(hash, a);
      Some(FieldsOf(hash, a))
    else None
  }

  /** Selector and specification encoding. */
  ghost function CalldataOf(hash: Hash, f: Fields): seq<byte> { Selector(hash) + Enc(EXECUTE_TY, ExecuteVal(f)) }

  function EncUint(n: int): (r: Option<seq<byte>>)
    ensures r.Some? <==> IsUint(n)
  {
    if IsUint(n) then Some(Word(n)) else None
  }

  method EncodeLegTuple(leg: Leg) returns (r: Option<seq<byte>>)
    ensures r.Some? <==> LegEncodable(leg)
    ensures r.Some? ==> r.value == Enc(LEG_TY, LegVal(FieldsOfLeg(leg)))
  {
    var dexId := DexId(leg.route.dex);
    var minOut := EncUint(leg.minOut);
    if dexId.None? || minOut.None? {
      return None;
    }
    LegBytesAre(FieldsOfLeg(leg));
    return Some(Word(dexId.value) + AddressWord(leg.route.venue) + AddressWord(leg.route.tokenIn)
                + AddressWord(leg.route.tokenOut) + minOut.value + AuxWord(leg.route.aux));
  }

  lemma LegArrayStep(legs: seq<Leg>, n: nat)
    requires n < |legs| && LegsEncodable(legs[..n]) && LegEncodable(legs[n])
    ensures LegsEncodable(legs[..n+1])
    ensures ConcatEnc(LEG_TY, LegVals(FieldsOfLegs(legs[..n+1])))
         == ConcatEnc(LEG_TY, LegVals(FieldsOfLegs(legs[..n]))) + Enc(LEG_TY, LegVal(FieldsOfLeg(legs[n])))
  {
    var all := FieldsOfLegs(legs[..n+1]);
    assert all[..n] == FieldsOfLegs(legs[..n]) && all[n] == FieldsOfLeg(legs[n]);
    ConcatEncSnoc(LEG_TY, LegVals(all[..n]), LegVal(all[n]));
  }

  /** The array bytes after n legs. */
  ghost function LegArray(legs: seq<Leg>, n: nat): seq<byte>
    requires n <= |legs| && LegsEncodable(legs[..n])
  {
    Word(|legs|) + ConcatEnc(LEG_TY, LegVals(FieldsOfLegs(legs[..n])))
  }

  lemma LegArrayAppends(legs: seq<Leg>, n: nat)
    requires n < |legs| && LegsEncodable(legs[..n]) && LegEncodable(legs[n])
    ensures LegsEncodable(legs[..n+1])
    ensures LegArray(legs, n + 1) == LegArray(legs, n) + Enc(LEG_TY, LegVal(FieldsOfLeg(legs[n])))
  {
    LegArrayStep(legs, n);
    Assoc(Word(|legs|), ConcatEnc(LEG_TY, LegVals(FieldsOfLegs(legs[..n]))), Enc(LEG_TY, LegVal(FieldsOfLeg(legs[n]))));
  }

  lemma LegArrayEnds(legs: seq<Leg>)
    requires LegsEncodable(legs)
    ensures LegsEncodable(legs[..|legs|])
    ensures LegArray(legs, |legs|) == Enc(TArray(LEG_TY), VArray(LegVals(FieldsOfLegs(legs))))
  {
    WholePrefix(legs);
    LegArrayBytes(FieldsOfLegs(legs));
  }

  method EncodeDynamicLegArray(legs: seq<Leg>) returns (r: Option<seq<byte>>)
    requires |legs| <= 255
    ensures r.Some? <==> LegsEncodable(legs)
    ensures r.Some? ==> r.value == Enc(TArray(LEG_TY), VArray(LegVals(FieldsOfLegs(legs))))
  {
    var out := Word(|legs|);
    EmptyRight(out);
    for n := 0 to |legs|
      invariant LegsEncodable(legs[..n])
      invariant out == LegArray(legs, n)
    {
      var leg := EncodeLegTuple(legs[n]);
      if leg.None? {
        assert !LegEncodable(legs[n]);
        return None;
      }
      LegArrayAppends(legs, n);
      out := out + leg.value;
    }
    WholePrefix(legs);
    LegArrayEnds(legs);
    return Some(out);
  }

  lemma RoutesKnown(legs: seq<Leg>)
    requires LegsEncodable(legs)
    ensures KnownDexes(Routes(legs))
    ensures NormalLegs(Routes(legs)) == DecodedRoutes(FieldsOfLegs(legs))
  {
    forall i | 0 <= i < |legs| ensures DexId(Routes(legs)[i].dex).Some? {
      assert LegEncodable(legs[i]);
    }
    var a, b := NormalLegs(Routes(legs)), DecodedRoutes(FieldsOfLegs(legs));
    forall i | 0 <= i < |legs| ensures a[i] == b[i] {
      assert a[i] == Normal(Routes(legs)[i]);
      assert b[i] == FieldsOfLegs(legs)[i].route == FieldsOfLeg(legs[i]).route;
    }
  }

  lemma FieldsFit(hash: Hash, a: Args)
    requires Encodable(a)
    ensures Fits(FieldsOf(hash, a))
  {
    var f := FieldsOf(hash, a);
    SmallFits(f.provider);
    forall i | 0 <= i < |f.legs| ensures LegFits(f.legs[i]) {
      assert f.legs[i] == FieldsOfLeg(a.legs[i]);
      assert LegEncodable(a.legs[i]);
    }
  }

  method BuildHead(f: Fields) returns (head: seq<byte>)
    requires |f.borrowToken| == 20 && |f.profitTo| == 20 && |f.routeId| == 32
    ensures head == WordBytes(HeadWords(f)) + Word(256)
  {
    head := [];
    head := head + Word(f.provider);
    head := head + AddressWord(f.borrowToken);
    head := head + Word(f.amountBorrow);
    head := head + Word(f.minProfit);
    head := head + AddressWord(f.profitTo);
    head := head + Word(f.deadline);
    head := head + f.routeId;
    EmptyLeft(Word(f.provider));
    HeadBytesAre(f);
    head := head + Word(8 * 32);
  }

  /** Selector, eight head words and the legs array. The bytes are exactly the
      specification's encoding of the arguments; whatever cannot be encoded is an error. */
  method BuildExecuteCalldata(hash: Hash, a: Args) returns (r: Option<(seq<byte>, Bytes32)>)
    ensures r == match Expected(hash, a)
                 case None => None
                 case Some(f) => Some((CalldataOf(hash, f), f.routeId))
  {
    var provider := ProviderId(a.provider);
    if provider.None? {
      return None;
    }
    var route := EncodeRoute(Routes(a.legs));
    if route.None? {
      if |a.legs| <= 255 {
        UnknownDex(a.legs);
      }
      return None;
    }
    var routeId := hash(route.value);
    var blob := EncodeDynamicLegArray(a.legs);
    if blob.None? || EncUint(a.amountBorrow).None? || EncUint(a.minProfit).None? || EncUint(a.deadline).None? {
      return None;
    }
    RoutesKnown(a.legs);
    var f := FieldsOf(hash, a);
    var head := BuildHead(f);
    ExecuteBytesAre(f);
    Assoc(Selector(hash), head, blob.value);
    return Some((Selector(hash) + head + blob.value, routeId));
  }

  lemma UnknownDex(legs: seq<Leg>)
    requires !KnownDexes(Routes(legs))
    ensures !LegsEncodable(legs)
  {
    if LegsEncodable(legs) {
      RoutesKnown(legs);
    }
  }

  /** The fields are the given arguments, leg by leg. */
  ghost predicate Carries(f: Fields, a: Args) {
    && Some(f.provider) == ProviderId(a.provider)
    && f.borrowToken == a.borrowToken && f.amountBorrow == a.amountBorrow && f.minProfit == a.minProfit
    && f.profitTo == a.profitTo && f.deadline == a.deadline
    && |f.legs| == |a.legs|
    && forall i | 0 <= i < |a.legs| :: LegEncodable(a.legs[i]) && f.legs[i] == FieldsOfLeg(a.legs[i])
  }

  lemma ExpectedCarries(hash: Hash, a: Args)
    requires Encodable(a)
    ensures Carries(FieldsOf(hash, a), a)
    ensures |a.legs| <= 255
    ensures FieldsOf(hash, a).routeId == hash(RouteBytes(DecodedRoutes(FieldsOf(hash, a).legs)))
  {
  }

  lemma CalldataReadsBack(hash: Hash, f: Fields)
    requires Fits(f)
    ensures ReadExecute(CalldataOf(hash, f)) == Some(f)
  {
    ReadExecuteBack(Selector(hash), f);
  }

  /** Main theorem: the built calldata decodes, by an independent reader that follows the
      offsets, to exactly the arguments and legs it was built from, and its route id is the
      hash of the canonical encoding of the very legs found in the calldata. */
  lemma CalldataRoundTrip(hash: Hash, a: Args, f: Fields)
    requires Expected(hash, a) == Some(f)
    ensures ReadExecute(CalldataOf(hash, f)) == Some(f)
    ensures Carries(f, a)
    ensures |f.legs| <= 255 && f.routeId == hash(RouteBytes(DecodedRoutes(f.legs)))
  {
    CalldataReadsBack(hash, f);
    ExpectedCarries(hash, a);
  }

  /** Two calls with the same calldata carry the same arguments, up to the normalisation
      of the auxiliary words. */
  lemma CalldataDeterminesArguments(hash: Hash, f: Fields, g: Fields)
    requires Fits(f) && Fits(g) && CalldataOf(hash, f) == CalldataOf(hash, g)
    ensures f == g
  {
    CalldataReadsBack(hash, f);
    CalldataReadsBack(hash, g);
  }
}
