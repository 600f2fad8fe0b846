/** Route evidence and the exact cost arithmetic of a split
    (gas_adjusted_split_identity.py and _split_cost_totals). */
module SplitCosts {
  import opened Outcomes
  import opened Ordering

  const SHARED_EXECUTION_OVERHEAD_GAS_UNITS := 270_000
  const EXTRA_SPLIT_ROUTE_GAS_UNITS := 75_000
  const BASE_CHAIN_ID := 8453

  /** A leg as evidence; texts are already trimmed and lower-cased. */
  datatype Leg = Leg(dex: string, venue: string, tokenIn: string, tokenOut: string, aux: string, amountIn: Option<int>)

  datatype CycleIdentity = CycleIdentity(poolKeys: set<PoolKey>, protocols: set<string>, routers: set<string>,
                                         directedPairs: set<(string, string)>)

  datatype RawCandidate = RawCandidate(routeId: string, amount: Option<int>, gross: Option<int>, fee: Option<int>,
                                       gasToken: Option<int>, nativeCost: Option<int>, l2Gas: Option<int>,
                                       gasUnits: Option<int>, l1Fee: Option<int>, l1FeeIsExact: bool,
                                       repaymentValid: bool, revalidated: bool, authoritative: bool, valid: bool,
                                       legs: seq<Leg>)

  datatype Candidate = Candidate(routeId: string, borrowToken: string, amountIn: int, gross: int, fee: int,
                                 gasToken: int, nativeCost: int, l2Gas: int, gasUnits: int, l1Fee: int,
                                 identity: CycleIdentity, revalidated: bool, authoritative: bool, valid: bool,
                                 repaymentValid: bool)
  {
    /** What normalisation guarantees about every candidate the planner sees. */
    predicate Admissible() {
      && amountIn > 0 && gross > 0 && fee >= 0
      && l2Gas > 0 && l1Fee >= 0 && nativeCost == l2Gas + l1Fee
      && gasUnits > SHARED_EXECUTION_OVERHEAD_GAS_UNITS
      && gasToken > 0
      && routeId != ""
      && identity.poolKeys != {}
    }

    function SingleNet(): int { gross - fee - gasToken }

    /** Observed price per unit, rounded up. */
    function GasPrice(): int
      requires gasUnits > 0
    {
      var p := (l2Gas + gasUnits - 1) / gasUnits;
      if p >= 1 then p else 1
    }

    function Conversion(): Ratio { Ratio(gasToken, nativeCost) }
  }

  // ---------------------------------------------------------------- identity

  /** Physical pool identity. The program formats these components into one text
      separated by bars; the two tokens of a pair are unordered. */
  datatype PoolKey =
    | CurvePool(venue: string)
    | BalancerPool(poolId: string)
    | PairPool(dex: string, venue: string, tokens: set<string>)
    | ParameterPool(dex: string, venue: string, tokens: set<string>, aux: string)

  predicate HasAux(leg: Leg) { leg.aux != "" && leg.aux != "0x" }

  /** One identity rule per protocol; None when the leg cannot be identified. */
  function PoolOf(leg: Leg): Option<PoolKey> {
    if leg.dex == "" || leg.tokenIn == "" || leg.tokenOut == "" || leg.tokenIn == leg.tokenOut then None
    else if leg.dex == "curve" then
      if leg.venue != "" then Some(CurvePool(leg.venue)) else None
    else if leg.dex == "balancer" then
      if HasAux(leg) then Some(BalancerPool(leg.aux)) else None
    else if leg.venue == "" then None
    else if leg.dex in {"camelot_algebra", "camelot_v2", "constant_product"} then
      Some(PairPool(leg.dex, leg.venue, {leg.tokenIn, leg.tokenOut}))
    else if leg.dex in {"univ3", "slipstream", "aerodrome"} && !HasAux(leg) then None
    else Some(ParameterPool(leg.dex, leg.venue, {leg.tokenIn, leg.tokenOut}, leg.aux))
  }

  function EntryToken(legs: seq<Leg>, borrowToken: string, i: nat): string
    requires i <= |legs|
  {
    if i == 0 then borrowToken else legs[i-1].tokenOut
  }

  ghost predicate LegContinues(legs: seq<Leg>, borrowToken: string, i: nat)
    requires i < |legs|
  {
    && legs[i].tokenIn == EntryToken(legs, borrowToken, i)
    && PoolOf(legs[i]).Some?
  }

  /** The legs lead from the borrowed token back to it through pairwise different pools. */
  ghost predicate ClosedCycle(legs: seq<Leg>, borrowToken: string) {
    && (forall i | 0 <= i < |legs| :: LegContinues(legs, borrowToken, i))
    && EntryToken(legs, borrowToken, |legs|) == borrowToken
    && DifferentPools(legs)
  }

  ghost predicate DifferentPools(legs: seq<Leg>) {
    forall i, j | 0 <= i < j < |legs| :: PoolOf(legs[i]) != PoolOf(legs[j])
  }

  ghost predicate Identifies(id: CycleIdentity, legs: seq<Leg>) {
    && id.poolKeys == (set leg | leg in legs && PoolOf(leg).Some? :: PoolOf(leg).value)
    && IdentifiesRoute(id.protocols, id.routers, id.directedPairs, legs)
  }

  ghost predicate IdentifiesRoute(protocols: set<string>, routers: set<string>, pairs: set<(string, string)>,
                                  legs: seq<Leg>) {
    && protocols == (set leg | leg in legs :: leg.dex)
    && routers == (set leg | leg in legs && leg.venue != "" && leg.dex != "curve" :: leg.venue)
    && pairs == (set leg | leg in legs :: (leg.tokenIn, leg.tokenOut))
  }

  function AddRouter(routers: set<string>, leg: Leg): set<string> {
    if leg.venue != "" && leg.dex != "curve" then routers + {leg.venue} else routers
  }

  lemma IdentifiesRouteStep(protocols: set<string>, routers: set<string>, pairs: set<(string, string)>, legs: seq<Leg>,
                            leg: Leg)
    requires IdentifiesRoute(protocols, routers, pairs, legs)
    ensures IdentifiesRoute(protocols + {leg.dex}, AddRouter(routers, leg),
                            pairs + {(leg.tokenIn, leg.tokenOut)}, legs + [leg])
  {
    assert forall l :: l in legs + [leg] <==> l in legs || l == leg;
  }

  ghost predicate PoolsOf(pools: seq<PoolKey>, legs: seq<Leg>) {
    |pools| == |legs| && forall i | 0 <= i < |legs| :: PoolOf(legs[i]) == Some(pools[i])
  }

  lemma PoolSet(pools: seq<PoolKey>, legs: seq<Leg>)
    requires PoolsOf(pools, legs)
    ensures Elements(pools) == (set leg | leg in legs && PoolOf(leg).Some? :: PoolOf(leg).value)
  {
    var all := set leg | leg in legs && PoolOf(leg).Some? :: PoolOf(leg).value;
    forall x | x in pools ensures x in all {
      var i :| 0 <= i < |pools| && pools[i] == x;
      assert legs[i] in legs;
    }
    forall leg | leg in legs ensures PoolOf(leg).Some? && PoolOf(leg).value in pools {
      var i :| 0 <= i < |legs| && legs[i] == leg;
      assert PoolOf(legs[i]) == Some(pools[i]);
    }
  }

  lemma PoolsDiffer(pools: seq<PoolKey>, legs: seq<Leg>)
    requires PoolsOf(pools, legs)
    ensures |pools| == |Elements(pools)| <==> DifferentPools(legs)
  {
    ElementsCount(pools);
    if AllDifferent(pools) {
      forall i, j | 0 <= i < j < |legs| ensures PoolOf(legs[i]) != PoolOf(legs[j]) {
        assert PoolOf(legs[i]) == Some(pools[i]) && PoolOf(legs[j]) == Some(pools[j]);
      }
    }
    if DifferentPools(legs) {
      forall i, j | 0 <= i < j < |pools| ensures pools[i] != pools[j] {
        assert PoolOf(legs[i]) == Some(pools[i]) && PoolOf(legs[j]) == Some(pools[j]);
      }
    }
  }

  ghost predicate CycleSoFar(legs: seq<Leg>, borrowToken: string, n: nat, pools: seq<PoolKey>)
    requires n <= |legs|
  {
    && PoolsOf(pools, legs[..n])
    && forall i | 0 <= i < n :: LegContinues(legs, borrowToken, i)
  }

  lemma CycleStep(legs: seq<Leg>, borrowToken: string, n: nat, pools: seq<PoolKey>, pool: PoolKey)
    requires n < |legs| && CycleSoFar(legs, borrowToken, n, pools)
    requires legs[n].tokenIn == EntryToken(legs, borrowToken, n) && PoolOf(legs[n]) == Some(pool)
    ensures CycleSoFar(legs, borrowToken, n + 1, pools + [pool])
  {
    assert legs[..n+1] == legs[..n] + [legs[n]];
    assert LegContinues(legs, borrowToken, n);
  }

  lemma CycleDecision(legs: seq<Leg>, borrowToken: string, pools: seq<PoolKey>)
    requires CycleSoFar(legs, borrowToken, |legs|, pools)
    ensures ClosedCycle(legs, borrowToken)
       <==> EntryToken(legs, borrowToken, |legs|) == borrowToken && |pools| == |Elements(pools)|
    ensures Elements(pools) == (set leg | leg in legs && PoolOf(leg).Some? :: PoolOf(leg).value)
  {
    assert legs[..|legs|] == legs;
    PoolSet(pools, legs);
    PoolsDiffer(pools, legs);
  }

  method CollectCycleLegIdentities(legs: seq<Leg>, borrowToken: string) returns (r: Option<CycleIdentity>)
    ensures r.Some? <==> ClosedCycle(legs, borrowToken)
    ensures r.Some? ==> Identifies(r.value, legs)
  {
    var prior := borrowToken;
    var pools: seq<PoolKey> := [];
    var protocols: set<string>, routers: set<string>, pairs: set<(string, string)> := {}, {}, {};
    for n := 0 to |legs|
      invariant prior == EntryToken(legs, borrowToken, n)
      invariant CycleSoFar(legs, borrowToken, n, pools)
      invariant IdentifiesRoute(protocols, routers, pairs, legs[..n])
    {
      var leg := legs[n];
      var pool := PoolOf(leg);
      if leg.tokenIn != prior || pool.None? {
        assert !LegContinues(legs, borrowToken, n);
        return None;
      }
      CycleStep(legs, borrowToken, n, pools, pool.value);
      IdentifiesRouteStep(protocols, routers, pairs, legs[..n], leg);
      assert legs[..n+1] == legs[..n] + [leg];
      prior := leg.tokenOut;
      pools := pools + [pool.value];
      protocols := protocols + {leg.dex};
      pairs := pairs + {(leg.tokenIn, leg.tokenOut)};
      routers := AddRouter(routers, leg);
    }
    assert legs[..|legs|] == legs;
    CycleDecision(legs, borrowToken, pools);
    if prior != borrowToken || |pools| != |Elements(pools)| {
      return None;
    }
    return Some(CycleIdentity(Elements(pools), protocols, routers, pairs));
  }

  // ----------------------------------------------------------- normalisation

  ghost predicate NumbersPresent(raw: RawCandidate) {
    && raw.amount.Some? && raw.gross.Some? && raw.fee.Some? && raw.gasToken.Some?
    && raw.nativeCost.Some? && raw.l2Gas.Some? && raw.gasUnits.Some? && raw.l1Fee.Some?
  }

  /** Which raw rows are admitted: complete and consistent cost evidence plus a
      closed two- or three-leg cycle whose first leg spends the whole amount. */
  ghost predicate Admits(raw: RawCandidate, chainId: int) {
    && raw.routeId != ""
    && NumbersPresent(raw)
    && raw.amount.value > 0 && raw.gross.value > 0 && raw.fee.value >= 0 && raw.repaymentValid
    && raw.nativeCost.value > 0 && raw.l2Gas.value > 0 && raw.l1Fee.value >= 0
    && raw.nativeCost.value == raw.l2Gas.value + raw.l1Fee.value
    && raw.gasUnits.value > SHARED_EXECUTION_OVERHEAD_GAS_UNITS
    && raw.gasToken.value > 0
    && (chainId == BASE_CHAIN_ID ==> raw.l1FeeIsExact)
    && |raw.legs| in {2, 3}
    && raw.legs[0].amountIn == raw.amount
    && raw.legs[0].tokenIn != ""
    && ClosedCycle(raw.legs, raw.legs[0].tokenIn)
  }

  method NormalizeCandidate(raw: RawCandidate, chainId: int) returns (r: Option<Candidate>)
    ensures r.Some? <==> Admits(raw, chainId)
    ensures r.Some? ==> r.value.Admissible()
    ensures r.Some? ==>
      && r.value.routeId == raw.routeId && r.value.borrowToken == raw.legs[0].tokenIn
      && r.value.amountIn == raw.amount.value && r.value.gross == raw.gross.value && r.value.fee == raw.fee.value
      && r.value.gasToken == raw.gasToken.value && r.value.nativeCost == raw.nativeCost.value
      && r.value.l2Gas == raw.l2Gas.value && r.value.gasUnits == raw.gasUnits.value
      && r.value.l1Fee == raw.l1Fee.value
      && Identifies(r.value.identity, raw.legs)
      && r.value.revalidated == raw.revalidated && r.value.authoritative == raw.authoritative
      && r.value.valid == raw.valid && r.value.repaymentValid == raw.repaymentValid
  {
    if raw.routeId == "" || raw.amount.None? || raw.gross.None? || raw.fee.None? || raw.gasToken.None?
       || raw.nativeCost.None? || raw.l2Gas.None? || raw.gasUnits.None? || raw.l1Fee.None? {
      return None;
    }
    if !(raw.amount.value > 0 && raw.gross.value > 0 && raw.fee.value >= 0 && raw.repaymentValid) {
      return None;
    }
    if raw.nativeCost.value <= 0 || raw.l2Gas.value <= 0 || raw.l1Fee.value < 0
       || raw.nativeCost.value != raw.l2Gas.value + raw.l1Fee.value {
      return None;
    }
    if raw.gasUnits.value <= SHARED_EXECUTION_OVERHEAD_GAS_UNITS || raw.gasToken.value <= 0 {
      return None;
    }
    if chainId == BASE_CHAIN_ID && !raw.l1FeeIsExact {
      return None;
    }
    if |raw.legs| != 2 && |raw.legs| != 3 {
      return None;
    }
    if raw.legs[0].amountIn != raw.amount || raw.legs[0].tokenIn == "" {
      return None;
    }
    var identity := CollectCycleLegIdentities(raw.legs, raw.legs[0].tokenIn);
    if identity.None? {
      return None;
    }
    assert LegContinues(raw.legs, raw.legs[0].tokenIn, 0);
    assert PoolOf(raw.legs[0]).value in identity.value.poolKeys;
    return Some(Candidate(raw.routeId, raw.legs[0].tokenIn, raw.amount.value, raw.gross.value, raw.fee.value,
                          raw.gasToken.value, raw.nativeCost.value, raw.l2Gas.value, raw.gasUnits.value,
                          raw.l1Fee.value, identity.value,
                          raw.revalidated, raw.authoritative, raw.valid, raw.repaymentValid));
  }

  // --------------------------------------------------------- exact rationals

  /** A non-negative fraction; fractions are compared by cross-multiplication. */
  datatype Ratio = Ratio(num: int, den: int)

  predicate RatioLe(a: Ratio, b: Ratio) { a.num * b.den <= b.num * a.den }

  predicate RatioSame(a: Ratio, b: Ratio) { a.num * b.den == b.num * a.den }

  function CeilTimes(x: int, r: Ratio): int
    requires r.den > 0
  {
    (x * r.num + r.den - 1) / r.den
  }

  lemma RatioLeTransitive(a: Ratio, b: Ratio, c: Ratio)
    requires a.den > 0 && b.den > 0 && c.den > 0
    requires RatioLe(a, b) && RatioLe(b, c)
    ensures RatioLe(a, c)
  {
    MulLe(a.num * b.den, b.num * a.den, c.den);
    MulLe(b.num * c.den, c.num * b.den, a.den);
    assert (a.num * c.den) * b.den <= (c.num * a.den) * b.den by {
      assert (a.num * b.den) * c.den == (a.num * c.den) * b.den;
      assert (b.num * a.den) * c.den == (b.num * c.den) * a.den;
      assert (c.num * b.den) * a.den == (c.num * a.den) * b.den;
    }
    DivideOut(a.num * c.den, c.num * a.den, b.den);
  }

  lemma MulLe(x: int, y: int, k: int)
    requires x <= y && k >= 0
    ensures x * k <= y * k
  {
  }

  lemma DivideOut(x: int, y: int, k: int)
    requires x * k <= y * k && k > 0
    ensures x <= y
  {
    assert (y + 1) * k == y * k + k;
    if x > y {
      MulLe(y + 1, x, k);
    }
  }

  /** The rounded-up product is the least integer that covers the exact product. */
  lemma CeilTimesIsLeast(x: int, r: Ratio, c: int)
    requires r.den > 0
    ensures x * r.num <= CeilTimes(x, r) * r.den
    ensures x * r.num <= c * r.den ==> CeilTimes(x, r) <= c
  {
    var a := x * r.num + r.den - 1;
    var q := a / r.den;
    assert q * r.den + a % r.den == a;
    assert (c + 1) * r.den == c * r.den + r.den;
    if x * r.num <= c * r.den && c < q {
      MulLe(c + 1, q, r.den);
    }
  }

  /** Rounding up depends on the value of the fraction only, not on how it is written. */
  lemma CeilTimesOfEqualRatios(x: int, a: Ratio, b: Ratio)
    requires a.den > 0 && b.den > 0 && RatioSame(a, b)
    ensures CeilTimes(x, a) == CeilTimes(x, b)
  {
    CeilTimesRespectsValue(x, a, b);
    CeilTimesRespectsValue(x, b, a);
  }

  lemma CeilTimesRespectsValue(x: int, a: Ratio, b: Ratio)
    requires a.den > 0 && b.den > 0 && RatioSame(a, b)
    ensures CeilTimes(x, b) <= CeilTimes(x, a)
  {
    var c := CeilTimes(x, a);
    CeilTimesIsLeast(x, a, c);
    MulLe(x * a.num, c * a.den, b.den);
    assert (x * b.num) * a.den <= (c * b.den) * a.den by {
      assert (x * a.num) * b.den == x * (a.num * b.den);
      assert (x * b.num) * a.den == x * (b.num * a.den);
      assert (c * a.den) * b.den == (c * b.den) * a.den;
    }
    DivideOut(x * b.num, c * b.den, a.den);
    CeilTimesIsLeast(x, b, c);
  }

  // ------------------------------------------------------------- cost totals

  datatype CostTotals = CostTotals(amount: int, gross: int, fee: int, l2Units: int, l2Cost: int, l1Cost: int,
                                   nativeCost: int, gasTokenCost: int, net: int)

  predicate AllAdmissible(parts: seq<Candidate>) {
    forall c | c in parts :: c.Admissible()
  }

  function AmountIn(c: Candidate): int { c.amountIn }
  function Gross(c: Candidate): int { c.gross }
  function Fee(c: Candidate): int { c.fee }
  function L1Fee(c: Candidate): int { c.l1Fee }
  function GasUnits(c: Candidate): int { c.gasUnits }
  function RouteUnits(c: Candidate): int {
    if c.gasUnits - SHARED_EXECUTION_OVERHEAD_GAS_UNITS >= 0
    then c.gasUnits - SHARED_EXECUTION_OVERHEAD_GAS_UNITS else 0
  }

  function MaxGasPrice(parts: seq<Candidate>): (p: int)
    requires parts != [] && AllAdmissible(parts)
    ensures forall c | c in parts :: c.GasPrice() <= p
    ensures exists c :: c in parts && c.GasPrice() == p
  {
    assert parts[0] in parts && forall c | c in parts :: c == parts[0] || c in parts[1..];
    if |parts| == 1 then parts[0].GasPrice() else
      var rest := MaxGasPrice(parts[1..]);
      if parts[0].GasPrice() >= rest then parts[0].GasPrice() else rest
  }

  function MaxConversion(parts: seq<Candidate>): (r: Ratio)
    requires parts != [] && AllAdmissible(parts)
    ensures r.num > 0 && r.den > 0
    ensures exists i :: 0 <= i < |parts| && parts[i].Conversion() == r
  {
    assert parts[0] in parts && forall c | c in parts[1..] :: c in parts;
    if |parts| == 1 then parts[0].Conversion() else
      var rest := MaxConversion(parts[1..]);
      if RatioLe(rest, parts[0].Conversion()) then parts[0].Conversion() else
        var i :| 0 <= i < |parts[1..]| && parts[1..][i].Conversion() == rest;
        assert parts[i+1].Conversion() == rest;
        rest
  }

  function Combine(n: int, amount: int, gross: int, fees: int, routeUnits: int, l1Cost: int, price: int,
                   conversion: Ratio): CostTotals
    requires conversion.den > 0
  {
    var fee := fees + n - 1;
    var l2Units := SHARED_EXECUTION_OVERHEAD_GAS_UNITS + routeUnits + (n - 1) * EXTRA_SPLIT_ROUTE_GAS_UNITS;
    var l2Cost := l2Units * price;
    var native := l2Cost + l1Cost;
    var gasToken := CeilTimes(native, conversion);
    CostTotals(amount, gross, fee, l2Units, l2Cost, l1Cost, native, gasToken, gross - fee - gasToken)
  }

  function Totals(parts: seq<Candidate>): CostTotals
    requires parts != [] && AllAdmissible(parts)
  {
    Combine(|parts|, SumOf(parts, AmountIn), SumOf(parts, Gross), SumOf(parts, Fee), SumOf(parts, RouteUnits),
            SumOf(parts, L1Fee), MaxGasPrice(parts), MaxConversion(parts))
  }

  function Net(parts: seq<Candidate>): int
    requires parts != [] && AllAdmissible(parts)
  {
    Totals(parts).net
  }

  lemma {:induction false} MaxConversionIsMax(parts: seq<Candidate>, i: nat)
    requires i < |parts| && AllAdmissible(parts)
    ensures RatioLe(parts[i].Conversion(), MaxConversion(parts))
    decreases |parts|
  {
    assert parts[i] in parts && parts[0] in parts;
    if |parts| > 1 {
      var rest := parts[1..];
      assert forall c | c in rest :: c in parts;
      var head, tail := parts[0].Conversion(), MaxConversion(rest);
      if i > 0 {
        MaxConversionIsMax(rest, i - 1);
        assert RatioLe(parts[i].Conversion(), tail);
        if RatioLe(tail, head) {
          RatioLeTransitive(parts[i].Conversion(), tail, head);
        }
      }
    }
  }

  // ---------------------------------------------------- no underestimated cost

  lemma PriceCoversObservedL2(c: Candidate)
    requires c.Admissible()
    ensures c.gasUnits * c.GasPrice() >= c.l2Gas
    ensures c.GasPrice() >= 1
  {
    CeilTimesIsLeast(c.l2Gas, Ratio(1, c.gasUnits), c.GasPrice());
    assert CeilTimes(c.l2Gas, Ratio(1, c.gasUnits)) <= c.GasPrice();
    MulLe(CeilTimes(c.l2Gas, Ratio(1, c.gasUnits)), c.GasPrice(), c.gasUnits);
  }

  /** Despite three roundings and a maximum over fractions, the combined gas bill in
      the borrowed token is at least what was observed for each component alone. */
  lemma CombinedCostCoversComponent(parts: seq<Candidate>, i: nat)
    requires i < |parts| && AllAdmissible(parts)
    ensures Totals(parts).l2Units >= parts[i].gasUnits
    ensures Totals(parts).nativeCost >= parts[i].nativeCost
    ensures Totals(parts).gasTokenCost >= parts[i].gasToken
  {
    var c := parts[i];
    assert c in parts;
    var t := Totals(parts);
    SumOfCovers(parts, RouteUnits, i);
    SumOfCovers(parts, L1Fee, i);
    var price := MaxGasPrice(parts);
    PriceCoversObservedL2(c);
    assert t.l2Units >= c.gasUnits;
    MulLe(c.GasPrice(), price, c.gasUnits);
    MulLe(c.gasUnits, t.l2Units, price);
    assert t.nativeCost >= c.nativeCost;
    MaxConversionIsMax(parts, i);
    var m := MaxConversion(parts);
    // gasToken * den <= num * native, and native only grows.
    MulLe(c.nativeCost, t.nativeCost, m.num);
    CeilTimesIsLeast(t.nativeCost, m, t.gasTokenCost);
    assert c.gasToken * m.den <= t.gasTokenCost * m.den;
    DivideOut(c.gasToken, t.gasTokenCost, m.den);
  }

  /** Sharing one execution overhead saves exactly 195000 units per extra route,
      so the combined units never exceed the sum of the parts' units. */
  lemma L2UnitsExact(parts: seq<Candidate>)
    requires parts != [] && AllAdmissible(parts)
    ensures Totals(parts).l2Units
         == SumOf(parts, GasUnits)
            - (|parts| - 1) * (SHARED_EXECUTION_OVERHEAD_GAS_UNITS - EXTRA_SPLIT_ROUTE_GAS_UNITS)
    ensures Totals(parts).l2Units <= SumOf(parts, GasUnits)
  {
    RouteUnitsSum(parts);
  }

  lemma {:induction false} RouteUnitsSum(parts: seq<Candidate>)
    requires AllAdmissible(parts)
    ensures SumOf(parts, RouteUnits) == SumOf(parts, GasUnits) - |parts| * SHARED_EXECUTION_OVERHEAD_GAS_UNITS
  {
    if parts != [] {
      assert parts[0] in parts && forall c | c in parts[1..] :: c in parts;
      RouteUnitsSum(parts[1..]);
    }
  }

  function FlashloanFee(amount: int, bps: int): int { amount * bps / 10_000 }

  /** When each part's fee is the floored fee on its own amount, the reserve of one
      unit per extra route makes the split pay at least the floored fee on the whole loan. */
  lemma FeeReserveCoversWholeLoan(parts: seq<Candidate>, bps: int)
    requires parts != [] && AllAdmissible(parts)
    requires forall c | c in parts :: c.fee == FlashloanFee(c.amountIn, bps)
    ensures Totals(parts).fee >= FlashloanFee(Totals(parts).amount, bps)
  {
    FlooredFeesSum(parts, bps);
  }

  lemma {:induction false} FlooredFeesSum(parts: seq<Candidate>, bps: int)
    requires parts != []
    requires forall c | c in parts :: c.fee == FlashloanFee(c.amountIn, bps)
    ensures SumOf(parts, Fee) + |parts| - 1 >= FlashloanFee(SumOf(parts, AmountIn), bps)
    decreases |parts|
  {
    assert parts[0] in parts;
    var a, b := parts[0].amountIn, SumOf(parts[1..], AmountIn);
    assert SumOf(parts, AmountIn) == a + b;
    if |parts| == 1 {
      assert parts[1..] == [];
    } else {
      assert forall c | c in parts[1..] :: c in parts;
      FlooredFeesSum(parts[1..], bps);
      FloorSum(a, b, bps);
    }
  }

  lemma FloorSum(a: int, b: int, bps: int)
    ensures FlashloanFee(a + b, bps) <= FlashloanFee(a, bps) + FlashloanFee(b, bps) + 1
  {
    assert (a + b) * bps == a * bps + b * bps;
    FloorSumOf(a * bps, b * bps);
  }

  lemma FloorSumOf(x: int, y: int)
    ensures (x + y) / 10_000 <= x / 10_000 + y / 10_000 + 1
  {
  }

  function Whole(): int -> int { (a: int) => a }
  function FeeOf(bps: int): int -> int { (a: int) => FlashloanFee(a, bps) }

  /** By how much the floored fees of the parts fall short of the floored fee on the whole. */
  function Shortfall(amounts: seq<int>, bps: int): int {
    FlashloanFee(SumOf(amounts, Whole()), bps) - SumOf(amounts, FeeOf(bps))
  }

  /** What flooring takes from n parts, in ten-thousandths. */
  lemma {:induction false} FlooringTakes(amounts: seq<int>, bps: int)
    ensures 0 <= SumOf(amounts, Whole()) * bps - 10_000 * SumOf(amounts, FeeOf(bps)) <= 9_999 * |amounts|
  {
    if amounts != [] {
      FlooringTakes(amounts[1..], bps);
      var a, b := amounts[0], SumOf(amounts[1..], Whole());
      assert (a + b) * bps == a * bps + b * bps;
    }
  }

  /** n parts fall short by at most 9999n / 10000, ... */
  lemma ShortfallIsBounded(amounts: seq<int>, bps: int)
    ensures 0 <= Shortfall(amounts, bps) <= 9_999 * |amounts| / 10_000
    ensures amounts != [] ==> Shortfall(amounts, bps) <= |amounts| - 1
  {
    FlooringTakes(amounts, bps);
  }

  lemma {:induction false} SameSums(n: nat, amount: int, f: int -> int)
    ensures SumOf(seq(n, _ => amount), f) == n * f(amount)
  {
    var amounts := seq(n, _ => amount);
    if n > 0 {
      SameSums(n - 1, amount, f);
      assert amounts[1..] == seq(n - 1, _ => amount);
    }
  }

  /** ... and some do by exactly that, for every number of routes. So the reserve of one unit
      per extra route is needed in full exactly up to 10000 routes, and never too small. */
  lemma FeeReserveIsNeeded(n: nat) returns (amounts: seq<int>)
    requires n > 0
    ensures |amounts| == n && (forall a | a in amounts :: a > 0)
    ensures Shortfall(amounts, 1) == 9_999 * n / 10_000
    ensures Shortfall(amounts, 1) == n - 1 <==> n <= 10_000
  {
    amounts := seq(n, _ => 9_999);
    SameSums(n, 9_999, Whole());
    SameSums(n, 9_999, FeeOf(1));
    assert FlashloanFee(9_999, 1) == 0;
  }

  // ------------------------------------------------------- order independence

  lemma CombineOfEqualRatios(n: int, amount: int, gross: int, fees: int, routeUnits: int, l1Cost: int, price: int,
                             a: Ratio, b: Ratio)
    requires a.den > 0 && b.den > 0 && RatioSame(a, b)
    ensures Combine(n, amount, gross, fees, routeUnits, l1Cost, price, a)
         == Combine(n, amount, gross, fees, routeUnits, l1Cost, price, b)
  {
    CeilTimesOfEqualRatios(Combine(n, amount, gross, fees, routeUnits, l1Cost, price, a).nativeCost, a, b);
  }

  /** The economics of a split depend on which routes it uses, not on their order. */
  lemma TotalsOfPermutation(a: seq<Candidate>, b: seq<Candidate>)
    requires a != [] && AllAdmissible(a)
    requires multiset(a) == multiset(b)
    ensures b != [] && AllAdmissible(b)
    ensures Totals(a) == Totals(b)
  {
    SameElements(a, b);
    SumsOfPermutation(a, b);
    MaximaOfSameElements(a, b);
    CombineOfEqualRatios(|a|, SumOf(a, AmountIn), SumOf(a, Gross), SumOf(a, Fee), SumOf(a, RouteUnits),
                         SumOf(a, L1Fee), MaxGasPrice(a), MaxConversion(a), MaxConversion(b));
  }

  lemma SumsOfPermutation(a: seq<Candidate>, b: seq<Candidate>)
    requires multiset(a) == multiset(b)
    ensures SumOf(a, Gross) == SumOf(b, Gross)
    ensures SumOf(a, Fee) == SumOf(b, Fee)
    ensures SumOf(a, RouteUnits) == SumOf(b, RouteUnits)
    ensures SumOf(a, L1Fee) == SumOf(b, L1Fee)
    ensures SumOf(a, AmountIn) == SumOf(b, AmountIn)
  {
    SumOfPermutation(a, b, Gross);
    SumOfPermutation(a, b, Fee);
    SumOfPermutation(a, b, RouteUnits);
    SumOfPermutation(a, b, L1Fee);
    SumOfPermutation(a, b, AmountIn);
  }

  lemma SameElements(a: seq<Candidate>, b: seq<Candidate>)
    requires multiset(a) == multiset(b)
    ensures |a| == |b|
    ensures forall c :: c in a <==> c in b
  {
    assert |multiset(a)| == |a| && |multiset(b)| == |b|;
    forall c ensures c in a <==> c in b {
      assert c in a <==> c in multiset(a);
      assert c in b <==> c in multiset(b);
    }
  }

  lemma MaximaOfSameElements(a: seq<Candidate>, b: seq<Candidate>)
    requires a != [] && AllAdmissible(a) && b != [] && AllAdmissible(b)
    requires forall c :: c in a <==> c in b
    ensures MaxGasPrice(a) == MaxGasPrice(b)
    ensures RatioSame(MaxConversion(a), MaxConversion(b))
  {
    MaxConversionLeSuperset(a, b);
    MaxConversionLeSuperset(b, a);
  }

  lemma MaxConversionLeSuperset(a: seq<Candidate>, b: seq<Candidate>)
    requires a != [] && AllAdmissible(a) && b != [] && AllAdmissible(b)
    requires forall c | c in a :: c in b
    ensures RatioLe(MaxConversion(a), MaxConversion(b))
  {
    var i := MaxConversionIndex(a);
    assert a[i] in a;
    var j :| 0 <= j < |b| && b[j] == a[i];
    MaxConversionIsMax(b, j);
  }

  lemma MaxConversionIndex(a: seq<Candidate>) returns (i: nat)
    requires a != [] && AllAdmissible(a)
    ensures i < |a| && a[i].Conversion() == MaxConversion(a)
  {
    i :| 0 <= i < |a| && a[i].Conversion() == MaxConversion(a);
  }
}
