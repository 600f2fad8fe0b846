/** The Balancer query codec (quote_balancer.py and decode_int256_array of ethabi.py). */
module BalancerCodec {
  import opened Outcomes
  import Ordering
  import opened AbiWords
  import opened AbiSpec
  import opened AbiShapes

  // --------------------------------------------------- queryBatchSwap calldata

  const STEP_TY: Ty := TTuple(Words(4, [TBytes]))
  const FUNDS_TY: Ty := WordTupleTy(4)
  const FROM_FUNDS: seq<Ty> := [FUNDS_TY]
  const FROM_ASSETS: seq<Ty> := [TArray(TWord)] + FROM_FUNDS
  const FROM_STEPS: seq<Ty> := [TArray(STEP_TY)] + FROM_ASSETS
  /** (uint8 kind, step[] swaps, address[] assets, funds) */
  const QUERY_TYS: seq<Ty> := [TWord] + FROM_STEPS
  const QUERY_TY: Ty := TTuple(QUERY_TYS)

  /** (bytes32 poolId, uint256 assetInIndex, uint256 assetOutIndex, uint256 amount, bytes userData) */
  function StepVal(poolId: seq<byte>, amount: nat): Val {
    VTuple(WordVals([FromBytes(poolId), 0, 1, amount], [VBytes([])]))
  }

  function Assets(tokenIn: seq<byte>, tokenOut: seq<byte>): seq<Val> {
    [VWord(FromBytes(tokenIn)), VWord(FromBytes(tokenOut))]
  }

  function Funds(): Val { VTuple(WordVals([0, 0, 0, 0], [])) }

  function StepBytes(poolId: seq<byte>, amount: nat): seq<byte> {
    poolId + Word(0) + Word(1) + Word(amount) + Word(160) + Word(0)
  }

  lemma StepBytesAre(poolId: seq<byte>, amount: nat)
    requires |poolId| == 32
    ensures StepBytes(poolId, amount) == Enc(STEP_TY, StepVal(poolId, amount))
    ensures |StepBytes(poolId, amount)| == 192
  {
    StepHead(poolId, amount);
    FourWordsAndNoBytes([FromBytes(poolId), 0, 1, amount]);
  }

  lemma FourWordsAndNoBytes(ns: seq<nat>)
    requires |ns| == 4
    ensures Enc(STEP_TY, VTuple(WordVals(ns, [VBytes([])]))) == WordBytes(ns) + Word(160) + Word(0)
  {
    EmptyBytes();
    WordsAndOneDynamic(ns, TBytes, VBytes([]));
  }

  lemma StepHead(poolId: seq<byte>, amount: nat)
    requires |poolId| == 32
    ensures WordBytes([FromBytes(poolId), 0, 1, amount]) == poolId + Word(0) + Word(1) + Word(amount)
  {
    ToFrom(poolId);
    FourWords(FromBytes(poolId), 0, 1, amount);
  }

  lemma EmptyBytes()
    ensures Enc(TBytes, VBytes([])) == Word(0)
  {
    assert Pad32([]) == [];
    EmptyRight(Word(0));
  }

  lemma SwapsBytesAre(poolId: seq<byte>, amount: nat)
    requires |poolId| == 32
    ensures Enc(TArray(STEP_TY), VArray([StepVal(poolId, amount)])) == Word(1) + (Word(32) + StepBytes(poolId, amount))
  {
    StepBytesAre(poolId, amount);
    OneComponent(STEP_TY, StepVal(poolId, amount), 32);
    assert Copies(STEP_TY, 1) == [STEP_TY] + Copies(STEP_TY, 0);
    assert Copies(STEP_TY, 1) == [STEP_TY];
  }

  lemma AssetsBytesAre(tokenIn: seq<byte>, tokenOut: seq<byte>)
    requires |tokenIn| == 20 && |tokenOut| == 20
    ensures Enc(TArray(TWord), VArray(Assets(tokenIn, tokenOut)))
         == Word(2) + (Zeros(12) + tokenIn + (Zeros(12) + tokenOut))
  {
    WordOfShortBytes(tokenIn);
    WordOfShortBytes(tokenOut);
    StaticArray(TWord, Assets(tokenIn, tokenOut));
    ConcatEncTwo(TWord, VWord(FromBytes(tokenIn)), VWord(FromBytes(tokenOut)));
  }

  lemma FundsBytesAre()
    ensures !Dynamic(FUNDS_TY) && HeadSize(FUNDS_TY) == 128
    ensures Enc(FUNDS_TY, Funds()) == Word(0) + Word(0) + Word(0) + Word(0)
  {
    WordTupleTyped([0, 0, 0, 0]);
    WordTuple([0, 0, 0, 0]);
    FourWords(0, 0, 0, 0);
  }

  lemma LastComponent(d: Val, off: nat)
    ensures HeadsSize(FROM_FUNDS) == 128
    ensures Heads(FROM_FUNDS, [d], off) == Enc(FUNDS_TY, d) && Tails(FROM_FUNDS, [d]) == []
  {
    FundsBytesAre();
    EmptyRight([FUNDS_TY]);
    EmptyRight([d]);
    HeadsCons(FUNDS_TY, d, [], [], off);
    TailsCons(FUNDS_TY, d, [], []);
    TypesCons(FUNDS_TY, d, [], []);
    EmptyRight(Enc(FUNDS_TY, d));
  }

  lemma AssetsComponent(c: Val, d: Val, off: nat)
    ensures HeadsSize(FROM_ASSETS) == 160
    ensures Heads(FROM_ASSETS, [c] + [d], off) == Word(off) + Enc(FUNDS_TY, d)
    ensures Tails(FROM_ASSETS, [c] + [d]) == Enc(TArray(TWord), c)
  {
    LastComponent(d, off + |Enc(TArray(TWord), c)|);
    HeadsCons(TArray(TWord), c, FROM_FUNDS, [d], off);
    TailsCons(TArray(TWord), c, FROM_FUNDS, [d]);
    TypesCons(TArray(TWord), c, FROM_FUNDS, [d]);
    EmptyRight(Enc(TArray(TWord), c));
  }

  lemma StepsHeads(b: Val, c: Val, d: Val, off: nat)
    ensures Heads(FROM_STEPS, [b] + ([c] + [d]), off)
         == Word(off) + (Word(off + |Enc(TArray(STEP_TY), b)|) + Enc(FUNDS_TY, d))
  {
    AssetsComponent(c, d, off + |Enc(TArray(STEP_TY), b)|);
    HeadsCons(TArray(STEP_TY), b, FROM_ASSETS, [c] + [d], off);
  }

  lemma StepsTails(b: Val, c: Val, d: Val)
    ensures Tails(FROM_STEPS, [b] + ([c] + [d])) == Enc(TArray(STEP_TY), b) + Enc(TArray(TWord), c)
  {
    AssetsComponent(c, d, 0);
    TailsCons(TArray(STEP_TY), b, FROM_ASSETS, [c] + [d]);
  }

  lemma StepsComponent(b: Val, c: Val, d: Val, off: nat)
    ensures HeadsSize(FROM_STEPS) == 192
    ensures Heads(FROM_STEPS, [b] + ([c] + [d]), off)
         == Word(off) + (Word(off + |Enc(TArray(STEP_TY), b)|) + Enc(FUNDS_TY, d))
    ensures Tails(FROM_STEPS, [b] + ([c] + [d])) == Enc(TArray(STEP_TY), b) + Enc(TArray(TWord), c)
  {
    StepsHeads(b, c, d, off);
    StepsTails(b, c, d);
    AssetsComponent(c, d, off);
    TypesCons(TArray(STEP_TY), b, FROM_ASSETS, [c] + [d]);
  }

  lemma QueryTuple(a: nat, rest: seq<Val>, heads: seq<byte>, tails: seq<byte>)
    requires |rest| == 3 && HeadsSize(FROM_STEPS) == 192
    requires Heads(FROM_STEPS, rest, 224) == heads && Tails(FROM_STEPS, rest) == tails
    ensures Enc(QUERY_TY, VTuple([VWord(a)] + rest)) == (Word(a) + heads) + tails
  {
    HeadsCons(TWord, VWord(a), FROM_STEPS, rest, 224);
    TailsCons(TWord, VWord(a), FROM_STEPS, rest);
    TypesCons(TWord, VWord(a), FROM_STEPS, rest);
    EmptyLeft(tails);
    TupleParts(QUERY_TYS, [VWord(a)] + rest, 224, Word(a) + heads, tails);
  }

  lemma QueryComponents(a: nat, b: Val, c: Val, d: Val)
    ensures Enc(QUERY_TY, VTuple([VWord(a)] + ([b] + ([c] + [d]))))
         == (Word(a) + (Word(224) + (Word(224 + |Enc(TArray(STEP_TY), b)|) + Enc(FUNDS_TY, d))))
            + (Enc(TArray(STEP_TY), b) + Enc(TArray(TWord), c))
  {
    var rest := [b] + ([c] + [d]);
    StepsComponent(b, c, d, 224);
    QueryTuple(a, rest, Heads(FROM_STEPS, rest, 224), Tails(FROM_STEPS, rest));
  }

  // ---------------------------------------------------------------- the program

  /** The bytes the builder concatenates after the selector. */
  function QueryBytes(poolId: seq<byte>, tokenIn: seq<byte>, tokenOut: seq<byte>, amount: nat): seq<byte> {
    var zeroAddress := Zeros(12) + Zeros(20);
    var swaps := Word(1) + Word(32) + StepBytes(poolId, amount);
    var assets := Word(2) + (Zeros(12) + tokenIn) + (Zeros(12) + tokenOut);
    var funds := zeroAddress + Word(0) + zeroAddress + Word(0);
    Word(0) + Word(224) + Word(224 + |swaps|) + funds + swaps + assets
  }

  /** Kind 0 (GIVEN_IN), exactly one step from asset 0 to asset 1, the two assets, empty funds. */
  function QueryVal(poolId: seq<byte>, tokenIn: seq<byte>, tokenOut: seq<byte>, amount: nat): Val {
    VTuple([VWord(0)] + ([VArray([StepVal(poolId, amount)])] + ([VArray(Assets(tokenIn, tokenOut))] + [Funds()])))
  }

  lemma ZeroAddress()
    ensures Zeros(12) + Zeros(20) == Word(0)
  {
    ZerosAreZero(20);
    WordOfShortBytes(Zeros(20));
  }

  lemma QueryBytesAre(poolId: seq<byte>, tokenIn: seq<byte>, tokenOut: seq<byte>, amount: nat)
    requires |poolId| == 32 && |tokenIn| == 20 && |tokenOut| == 20
    ensures QueryBytes(poolId, tokenIn, tokenOut, amount) == Enc(QUERY_TY, QueryVal(poolId, tokenIn, tokenOut, amount))
  {
    var step, assetVals := StepVal(poolId, amount), VArray(Assets(tokenIn, tokenOut));
    SwapsBytesAre(poolId, amount);
    AssetsBytesAre(tokenIn, tokenOut);
    FundsBytesAre();
    ZeroAddress();
    QueryComponents(0, VArray([step]), assetVals, Funds());
    Assoc(Word(1), Word(32), StepBytes(poolId, amount));
    Assoc(Word(2), Zeros(12) + tokenIn, Zeros(12) + tokenOut);
    Regroup(Word(0), Word(224), Word(224 + |Enc(TArray(STEP_TY), VArray([step]))|), Enc(FUNDS_TY, Funds()),
            Enc(TArray(STEP_TY), VArray([step])), Enc(TArray(TWord), assetVals));
  }

  lemma Regroup(a: seq<byte>, b: seq<byte>, c: seq<byte>, d: seq<byte>, e: seq<byte>, f: seq<byte>)
    ensures a + b + c + d + e + f == (a + (b + (c + d))) + (e + f)
  {
  }

  lemma StepTyped(poolId: seq<byte>, amount: nat)
    requires |poolId| == 32 && amount < WORD_LIMIT
    ensures HasType(STEP_TY, StepVal(poolId, amount))
  {
    var ns := [FromBytes(poolId), 0, 1, amount];
    WordOfShortBytes(poolId);
    SmallFits(1);
    FitsCons(amount, []);
    FitsCons(1, [amount]);
    FitsCons(0, [1, amount]);
    FitsCons(FromBytes(poolId), [0, 1, amount]);
    EmptyRight([TBytes]);
    EmptyRight([VBytes([])]);
    TypesCons(TBytes, VBytes([]), [], []);
    WordsThenTypes(ns, [TBytes], [VBytes([])]);
  }

  lemma OneTyped(t: Ty, v: Val)
    requires HasType(t, v)
    ensures HasType(TArray(t), VArray([v]))
  {
    SmallFits(1);
    ArrayTyped(t, [v]);
  }

  lemma AssetsTyped(tokenIn: seq<byte>, tokenOut: seq<byte>)
    requires |tokenIn| == 20 && |tokenOut| == 20
    ensures HasType(TArray(TWord), VArray(Assets(tokenIn, tokenOut)))
  {
    WordOfShortBytes(tokenIn);
    WordOfShortBytes(tokenOut);
    SmallFits(2);
    ArrayTyped(TWord, Assets(tokenIn, tokenOut));
  }

  lemma QueryTyped(poolId: seq<byte>, tokenIn: seq<byte>, tokenOut: seq<byte>, amount: nat)
    requires |poolId| == 32 && |tokenIn| == 20 && |tokenOut| == 20 && amount < WORD_LIMIT
    ensures HasType(QUERY_TY, QueryVal(poolId, tokenIn, tokenOut, amount))
  {
    var b, c, d := VArray([StepVal(poolId, amount)]), VArray(Assets(tokenIn, tokenOut)), Funds();
    StepTyped(poolId, amount);
    OneTyped(STEP_TY, StepVal(poolId, amount));
    AssetsTyped(tokenIn, tokenOut);
    SmallFits(0);
    FitsCons(0, []);
    FitsCons(0, [0]);
    FitsCons(0, [0, 0]);
    FitsCons(0, [0, 0, 0]);
    WordTupleTyped([0, 0, 0, 0]);
    assert HasType(FUNDS_TY, d);
    EmptyRight([FUNDS_TY]);
    EmptyRight([d]);
    TypesCons(FUNDS_TY, d, [], []);
    TypesCons(TArray(TWord), c, FROM_FUNDS, [d]);
    TypesCons(TArray(STEP_TY), b, FROM_ASSETS, [c] + [d]);
    TypesCons(TWord, VWord(0), FROM_STEPS, [b] + ([c] + [d]));
  }

  /** The query calldata decodes, following every offset, to exactly one GIVEN_IN step with
      the given pool and amount, the two assets in order, and empty funds. */
  lemma QueryRoundTrip(poolId: seq<byte>, tokenIn: seq<byte>, tokenOut: seq<byte>, amount: nat)
    requires |poolId| == 32 && |tokenIn| == 20 && |tokenOut| == 20 && amount < WORD_LIMIT
    ensures Dec(QUERY_TY, QueryBytes(poolId, tokenIn, tokenOut, amount))
         == Some(QueryVal(poolId, tokenIn, tokenOut, amount))
  {
    QueryBytesAre(poolId, tokenIn, tokenOut, amount);
    QueryTyped(poolId, tokenIn, tokenOut, amount);
    SmallFits(576);
    DecodeEncode(QUERY_TY, QueryVal(poolId, tokenIn, tokenOut, amount));
  }

  /** Builds the call, or fails for a pool id of the wrong size or an amount that is not a
      positive word. */
  function BuildQuery(selector: seq<byte>, poolId: seq<byte>, tokenIn: seq<byte>, tokenOut: seq<byte>, amount: int)
    : (r: Option<seq<byte>>)
    requires |selector| == 4 && |tokenIn| == 20 && |tokenOut| == 20
    ensures r.Some? <==> |poolId| == 32 && 0 < amount < WORD_LIMIT
    ensures r.Some? ==> |r.value| >= 4
    ensures r.Some? ==> Dec(QUERY_TY, r.value[4..]) == Some(QueryVal(poolId, tokenIn, tokenOut, amount))
  {
    if |poolId| != 32 || amount <= 0 || amount >= WORD_LIMIT then None
    else
      var call := selector + QueryBytes(poolId, tokenIn, tokenOut, amount);
      QueryRoundTrip(poolId, tokenIn, tokenOut, amount);
      assert call[4..] == QueryBytes(poolId, tokenIn, tokenOut, amount);
      Some(call)
  }

  // ----------------------------------------------------------- int256[] results

  ghost predicate AllInt256(ds: seq<int>) { forall i | 0 <= i < |ds| :: IsInt256(ds[i]) }

  function IntBytes(v: int): (w: seq<byte>)
    ensures |w| == 32
  {
    Halves();
    if v >= 0 then Word(v) else if v >= -WORD_LIMIT then Word(WORD_LIMIT + v) else Zeros(32)
  }

  function IntWords(ds: seq<int>): (b: seq<byte>)
    ensures |b| == 32 * |ds|
  {
    if ds == [] then [] else IntWords(ds[..|ds|-1]) + IntBytes(ds[|ds|-1])
  }

  /** The canonical return of a function with result int256[]. */
  function Canonical(ds: seq<int>): seq<byte> { Word(32) + Word(|ds|) + IntWords(ds) }

  ghost predicate IsDeltas(ds: seq<int>) { AllInt256(ds) && |ds| < WORD_LIMIT }

  lemma IntBytesRoundTrip(w: seq<byte>, v: int)
    requires |w| == 32
    ensures IsInt256(SignedValue(FromBytes(w))) && IntBytes(SignedValue(FromBytes(w))) == w
    ensures IsInt256(v) ==> SignedValue(FromBytes(IntBytes(v))) == v
  {
    Halves();
    WordRoundTrip(w);
    if IsInt256(v) {
      SignedRoundTrip(v);
    }
  }

  /** Reading words as signed integers, starting at `from`. */
  method ReadIntWords(raw: seq<byte>, from: nat, count: nat) returns (ds: seq<int>)
    requires |raw| == from + 32 * count
    ensures |ds| == count && AllInt256(ds)
    ensures raw[from..] == IntWords(ds)
  {
    ds := [];
    for n := 0 to count
      invariant |ds| == n && AllInt256(ds)
      invariant raw[from..from + 32 * n] == IntWords(ds)
    {
      var start := from + 32 * n;
      var word := raw[start..start + 32];
      var value: int := FromBytes(word);
      if value >= SIGN_LIMIT {
        value := value - WORD_LIMIT;
      }
      ClippedStep(raw, from, start, ds, word, value);
      ds := ds + [value];
    }
    assert raw[from..from + 32 * count] == raw[from..];
  }

  lemma {:induction false} IntWordsInjective(a: seq<int>, b: seq<int>)
    requires AllInt256(a) && AllInt256(b) && IntWords(a) == IntWords(b)
    ensures a == b
    decreases |a|
  {
    assert |a| == |b|;
    if a != [] {
      var n := |a| - 1;
      assert IntWords(a[..n]) == IntWords(a)[..32 * n] && IntBytes(a[n]) == IntWords(a)[32 * n..];
      assert IntWords(b[..n]) == IntWords(b)[..32 * n] && IntBytes(b[n]) == IntWords(b)[32 * n..];
      IntBytesRoundTrip(Zeros(32), a[n]);
      IntBytesRoundTrip(Zeros(32), b[n]);
      IntWordsInjective(a[..n], b[..n]);
      Ordering.InitAndLast(a);
      Ordering.InitAndLast(b);
    }
  }

  ghost predicate Encodes(raw: seq<byte>, ds: seq<int>) { IsDeltas(ds) && raw == Canonical(ds) }

  lemma CanonicalParts(raw: seq<byte>, ds: seq<int>)
    requires Encodes(raw, ds)
    ensures |raw| == 64 + 32 * |ds| && FromBytes(raw[..32]) == 32 && FromBytes(raw[32..64]) == |ds|
    ensures raw[64..] == IntWords(ds)
  {
    assert raw[..32] == Word(32) && raw[32..64] == Word(|ds|) && raw[64..] == IntWords(ds);
    SmallFits(32);
    WordReads(32);
    WordReads(|ds|);
  }

  /** The three checks of the strict decoder. */
  predicate WellShaped(raw: seq<byte>) {
    |raw| >= 64 && FromBytes(raw[..32]) == 32 && |raw| == 64 + FromBytes(raw[32..64]) * 32
  }

  lemma CanonicalIsWellShaped(raw: seq<byte>)
    ensures forall ds | Encodes(raw, ds) :: WellShaped(raw)
  {
    forall ds | Encodes(raw, ds) ensures WellShaped(raw) {
      CanonicalParts(raw, ds);
    }
  }

  lemma EncodesOnce(raw: seq<byte>, a: seq<int>, b: seq<int>)
    requires Encodes(raw, a) && Encodes(raw, b)
    ensures a == b
  {
    CanonicalParts(raw, a);
    CanonicalParts(raw, b);
    IntWordsInjective(a, b);
  }

  lemma EncodesOnly(raw: seq<byte>, values: seq<int>)
    requires Encodes(raw, values)
    ensures forall ds | Encodes(raw, ds) :: ds == values
  {
    forall ds | Encodes(raw, ds) ensures ds == values {
      EncodesOnce(raw, ds, values);
    }
  }

  lemma CanonicalFromParts(raw: seq<byte>, ds: seq<int>)
    requires |raw| >= 64 && FromBytes(raw[..32]) == 32 && FromBytes(raw[32..64]) == |ds| && raw[64..] == IntWords(ds)
    ensures raw == Canonical(ds)
  {
    ToFrom(raw[..32]);
    ToFrom(raw[32..64]);
    assert raw[..32] == Word(32) && raw[32..64] == Word(|ds|);
    ThreeParts(raw, 32, 64);
  }

  lemma ThreeParts<T>(s: seq<T>, i: nat, j: nat)
    requires i <= j <= |s|
    ensures s == s[..i] + s[i..j] + s[j..]
  {
  }

  /** The strict decoder accepts exactly the canonical encodings and inverts them. */
  method DecodeBalancerSwapDeltas(raw: seq<byte>) returns (r: Option<seq<int>>)
    ensures r.Some? ==> Encodes(raw, r.value)
    ensures forall ds | Encodes(raw, ds) :: r == Some(ds)
  {
    CanonicalIsWellShaped(raw);
    if |raw| < 64 || |raw| % 32 != 0 {
      return None;
    }
    var offset := FromBytes(raw[..32]);
    if offset != 32 {
      return None;
    }
    var count := FromBytes(raw[32..64]);
    if |raw| != 64 + count * 32 {
      return None;
    }
    var values := ReadIntWords(raw, 64, count);
    CanonicalFromParts(raw, values);
    EncodesOnly(raw, values);
    return Some(values);
  }

  /** The canonical return is the specification's encoding of the one-component result. */
  lemma CanonicalIsSpecEncoding(ds: seq<int>)
    ensures Canonical(ds) == Enc(TTuple(Words(0, [TArray(TWord)])), VTuple(WordVals([], [VArray(IntVals(ds))])))
  {
    WordsAndOneDynamic([], TArray(TWord), VArray(IntVals(ds)));
    StaticArray(TWord, IntVals(ds));
    IntValsBytes(ds);
    EmptyLeft(Word(32));
    Assoc(Word(32), Word(|ds|), IntWords(ds));
  }

  function IntVals(ds: seq<int>): (vs: seq<Val>)
    ensures |vs| == |ds|
  {
    if ds == [] then [] else IntVals(ds[..|ds|-1]) + [VWord(FromBytes(IntBytes(ds[|ds|-1])))]
  }

  lemma {:induction false} IntValsBytes(ds: seq<int>)
    ensures ConcatEnc(TWord, IntVals(ds)) == IntWords(ds)
  {
    if ds != [] {
      var n := |ds| - 1;
      IntValsBytes(ds[..n]);
      ToFrom(IntBytes(ds[n]));
      ConcatEncSnoc(TWord, IntVals(ds[..n]), VWord(FromBytes(IntBytes(ds[n]))));
    }
  }

  /** The revert body QueryError(int256[]): a raw count and the words, without an offset. */
  ghost predicate EncodesError(body: seq<byte>, ds: seq<int>) {
    AllInt256(ds) && 2 <= |ds| <= 64 && body == Word(|ds|) + IntWords(ds)
  }

  lemma ErrorParts(body: seq<byte>, ds: seq<int>)
    requires EncodesError(body, ds)
    ensures |body| == 32 + 32 * |ds| && FromBytes(body[..32]) == |ds| && body[32..] == IntWords(ds)
  {
    assert body[..32] == Word(|ds|) && body[32..] == IntWords(ds);
    SmallFits(|ds|);
    WordReads(|ds|);
  }

  predicate ErrorShaped(body: seq<byte>) {
    |body| >= 32 && 2 <= FromBytes(body[..32]) <= 64 && |body| == 32 + FromBytes(body[..32]) * 32
  }

  lemma ErrorIsShaped(body: seq<byte>)
    ensures forall ds | EncodesError(body, ds) :: ErrorShaped(body)
  {
    forall ds | EncodesError(body, ds) ensures ErrorShaped(body) {
      ErrorParts(body, ds);
    }
  }

  lemma ErrorFromParts(body: seq<byte>, ds: seq<int>)
    requires |body| >= 32 && FromBytes(body[..32]) == |ds| && 2 <= |ds| <= 64 && AllInt256(ds)
        && body[32..] == IntWords(ds)
    ensures EncodesError(body, ds)
    ensures forall other | EncodesError(body, other) :: other == ds
  {
    ToFrom(body[..32]);
    assert body == body[..32] + body[32..];
    forall other | EncodesError(body, other) ensures other == ds {
      ErrorParts(body, other);
      IntWordsInjective(other, ds);
    }
  }

  /** Revert data is accepted exactly when it is canonical and has 2 to 64 deltas; the
      size limit of 4096 bytes never decides. */
  method DecodeQueryErrorBody(body: seq<byte>) returns (r: Option<seq<int>>)
    ensures r.Some? ==> EncodesError(body, r.value)
    ensures forall ds | EncodesError(body, ds) :: r == Some(ds)
  {
    ErrorIsShaped(body);
    if |body| < 32 || |body| > 4096 || (|body| - 32) % 32 != 0 {
      return None;
    }
    var count := FromBytes(body[..32]);
    if count < 2 || count > 64 || |body| != 32 + count * 32 {
      return None;
    }
    var values := ReadIntWords(body, 32, count);
    ErrorFromParts(body, values);
    return Some(values);
  }

  /** A quote needs exactly two deltas: the requested positive input and a negative output. */
  function QuoteFromDeltas(ds: seq<int>, expected: int): Option<int> {
    if |ds| != 2 || expected <= 0 || ds[0] != expected || -ds[1] <= 0 then None else Some(-ds[1])
  }

  /** The canonical deltas (+amount, -output) of a quote, both positive. */
  ghost predicate QuoteBytes(raw: seq<byte>, expected: int, out: int) {
    expected > 0 && out > 0 && Encodes(raw, [expected, -out])
  }

  /** Soundness and completeness of parsing a returned quote: an output is reported exactly
      when the bytes are the canonical deltas for that input and that output. */
  method ParseBalancerQueryResult(raw: seq<byte>, expected: int) returns (r: Option<int>)
    ensures r.Some? ==> QuoteBytes(raw, expected, r.value)
    ensures forall out | QuoteBytes(raw, expected, out) :: r == Some(out)
  {
    var ds := DecodeBalancerSwapDeltas(raw);
    if ds.None? {
      return None;
    }
    r := QuoteFromDeltas(ds.value, expected);
    if r.Some? {
      assert ds.value == [expected, -r.value];
    }
    forall out | QuoteBytes(raw, expected, out) ensures r == Some(out) {
      assert ds == Some([expected, -out]);
    }
  }

  // ------------------------------------------------------- the lenient decoder

  function Clip(raw: seq<byte>, i: nat, j: nat): seq<byte>
    requires i <= j
  {
    if i >= |raw| then [] else if j >= |raw| then raw[i..] else raw[i..j]
  }

  /** Words from a place on, as signed numbers; a word past the end of the data is read from
      what is left of it. */
  function WordsFrom(data: seq<byte>, from: nat, count: nat): (r: seq<int>)
    ensures |r| == count
  {
    if count == 0 then [] else WordsFrom(data, from, count - 1) + [ClippedWord(data, from + 32 * (count - 1))]
  }

  function ClippedWord(data: seq<byte>, p: nat): int { SignedValue(FromBytes(Clip(data, p, p + 32))) }

  /** What decode_int256_array reads: the words behind whatever offset the data starts with. */
  function Lenient(data: seq<byte>): seq<int> {
    if |data| < 32 || FromBytes(data[..32]) + 32 > |data| then []
    else var off := FromBytes(data[..32]); WordsFrom(data, off + 32, FromBytes(data[off..][..32]))
  }

  /** decode_int256_array: any offset, and words cut off by the end of the data. On canonical
      encodings it agrees with the strict decoder. */
  method DecodeInt256Array(data: seq<byte>) returns (out: seq<int>)
    ensures out == Lenient(data)
    ensures forall ds | Encodes(data, ds) :: out == ds
  {
    CanonicalIsWellShaped(data);
    if |data| < 32 {
      return [];
    }
    var off := FromBytes(data[..32]);
    if off + 32 > |data| {
      return [];
    }
    assert data[off..][..32] == data[off..off + 32];
    var ln := FromBytes(data[off..off + 32]);
    out := ReadClipped(data, off + 32, ln);
    forall ds | Encodes(data, ds) ensures out == ds {
      CanonicalParts(data, ds);
      TailIsWords(data, ds);
    }
  }

  method ReadClippedWord(data: seq<byte>, p: nat) returns (w: int)
    ensures w == ClippedWord(data, p)
  {
    w := FromBytes(Clip(data, p, p + 32));
    if w >= SIGN_LIMIT {
      w := w - WORD_LIMIT;
    }
  }

  method ReadClipped(data: seq<byte>, from: nat, count: nat) returns (out: seq<int>)
    ensures out == WordsFrom(data, from, count)
  {
    out := [];
    var p := from;
    for n := 0 to count
      invariant p == from + 32 * n
      invariant out == WordsFrom(data, from, n)
    {
      var w := ReadClippedWord(data, p);
      out := out + [w];
      p := p + 32;
    }
  }

  lemma SliceParts<T>(s: seq<T>, from: nat, p: nat, q: nat, a: seq<T>, b: seq<T>)
    requires from <= p <= q <= |s| && |a| == p - from && s[from..q] == a + b
    ensures s[from..p] == a && s[p..q] == b
  {
    assert s[from..p] == s[from..q][..|a|];
    assert s[p..q] == s[from..q][|a|..];
  }

  lemma WordsFromSnoc(data: seq<byte>, from: nat, n: nat, p: nat)
    requires p == from + 32 * n
    ensures WordsFrom(data, from, n + 1) == WordsFrom(data, from, n) + [ClippedWord(data, p)]
  {
  }

  lemma ClippedIs(data: seq<byte>, p: nat, v: int)
    requires p + 32 <= |data| && data[p..p + 32] == IntBytes(v) && IsInt256(v)
    ensures ClippedWord(data, p) == v
  {
    assert Clip(data, p, p + 32) == data[p..p + 32];
    IntBytesRoundTrip(data[p..p + 32], v);
  }

  /** These words are the data from one place to another. */
  ghost predicate WordsAre(data: seq<byte>, from: nat, upto: nat, words: seq<int>) {
    from <= upto <= |data| && AllInt256(words) && IntWords(words) == data[from..upto]
  }

  lemma LastWordReads(data: seq<byte>, from: nat, p: nat, words: seq<int>, init: seq<int>, v: int)
    requires from <= p && WordsAre(data, from, p + 32, words) && words == init + [v]
    ensures WordsAre(data, from, p, init) && ClippedWord(data, p) == v
  {
    assert words[|init|] == v && forall i | 0 <= i < |init| :: words[i] == init[i];
    IntWordsSnoc(init, v);
    assert |data[from..p + 32]| == 32 * |init| + 32;
    SliceParts(data, from, p, p + 32, IntWords(init), IntBytes(v));
    ClippedIs(data, p, v);
  }

  /** Canonical words read back. */
  lemma {:induction false} WordsReadBack(data: seq<byte>, from: nat, upto: nat, ds: seq<int>, n: nat)
    requires WordsAre(data, from, upto, ds) && n == |ds| && upto == from + 32 * n
    ensures WordsFrom(data, from, n) == ds
    decreases n
  {
    if n > 0 {
      var init, v := ds[..n-1], ds[n-1];
      Ordering.InitAndLast(ds);
      LastWordReads(data, from, upto - 32, ds, init, v);
      WordsReadBack(data, from, upto - 32, init, n - 1);
      WordsFromSnoc(data, from, n - 1, upto - 32);
    }
  }

  lemma TailIsWords(data: seq<byte>, ds: seq<int>)
    requires AllInt256(ds) && |data| == 64 + 32 * |ds| && data[64..] == IntWords(ds)
    ensures WordsFrom(data, 64, |ds|) == ds
  {
    assert data[64..|data|] == data[64..];
    WordsReadBack(data, 64, |data|, ds, |ds|);
  }

  lemma IntWordsSnoc(ds: seq<int>, v: int)
    ensures IntWords(ds + [v]) == IntWords(ds) + IntBytes(v)
  {
    SnocParts(ds, v);
  }

  lemma SliceSnoc<T>(s: seq<T>, from: nat, p: nat, q: nat)
    requires from <= p <= q <= |s|
    ensures s[from..q] == s[from..p] + s[p..q]
  {
  }

  lemma ClippedStep(data: seq<byte>, from: nat, p: nat, out: seq<int>, word: seq<byte>, w: int)
    requires from <= p <= p + 32 <= |data| && word == data[p..p + 32] && w == SignedValue(FromBytes(word))
    requires AllInt256(out) && IntWords(out) == data[from..p]
    ensures AllInt256(out + [w]) && IntWords(out + [w]) == data[from..p + 32]
  {
    IntBytesRoundTrip(word, 0);
    IntWordsSnoc(out, w);
    SliceSnoc(data, from, p, p + 32);
  }

  /** Any whole number of words is the encoding of some list. */
  lemma {:induction false} WordsExist(data: seq<byte>, from: nat, upto: nat, n: nat) returns (ds: seq<int>)
    requires upto == from + 32 * n <= |data|
    ensures |ds| == n && WordsAre(data, from, upto, ds)
  {
    ds := [];
    if n > 0 {
      var p := upto - 32;
      var init := WordsExist(data, from, p, n - 1);
      var v := SignedValue(FromBytes(data[p..upto]));
      ClippedStep(data, from, p, init, data[p..upto], v);
      ds := init + [v];
    }
  }

  /** Words inside the data are read as they stand. */
  lemma WordsInside(data: seq<byte>, from: nat, upto: nat, n: nat)
    requires upto == from + 32 * n <= |data|
    ensures WordsAre(data, from, upto, WordsFrom(data, from, n))
  {
    var ds := WordsExist(data, from, upto, n);
    WordsReadBack(data, from, upto, ds, n);
  }

  lemma WellShapedIsCanonical(data: seq<byte>)
    requires WellShaped(data)
    ensures Encodes(data, Lenient(data))
  {
    var count := FromBytes(data[32..64]);
    assert data[32..][..32] == data[32..64];
    WordsInside(data, 64, |data|, count);
    assert data[64..|data|] == data[64..];
    CanonicalFromParts(data, WordsFrom(data, 64, count));
  }

  /** When what the lenient decoder reads can be trusted: its result is what the data encodes,
      and the data encodes anything at all, exactly when the data passes the three checks of
      the strict decoder. */
  lemma LenientIsStrictIff(data: seq<byte>)
    ensures Encodes(data, Lenient(data)) <==> WellShaped(data)
    ensures (exists ds :: Encodes(data, ds)) <==> WellShaped(data)
  {
    CanonicalIsWellShaped(data);
    if WellShaped(data) {
      WellShapedIsCanonical(data);
    }
  }

  /** Without those checks it reads an element that is not there. */
  lemma LenientDecoderIsNotStrict()
    ensures Lenient(Word(32) + Word(1)) == [0]
    ensures forall ds :: !Encodes(Word(32) + Word(1), ds)
  {
    var data := Word(32) + Word(1);
    SmallFits(32);
    SmallFits(1);
    WordReads(32);
    WordReads(1);
    assert data[..32] == Word(32) && data[32..64] == Word(1) && data[32..][..32] == Word(1);
    CanonicalIsWellShaped(data);
    MissingWord(data);
    WordsFromSnoc(data, 64, 0, 64);
  }

  lemma MissingWord(data: seq<byte>)
    requires |data| == 64
    ensures ClippedWord(data, 64) == 0
  {
    Halves();
    assert Clip(data, 64, 96) == [];
  }
}
