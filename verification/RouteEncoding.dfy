/** The canonical route encoding behind the route id (route_encoding.py). */
module RouteEncoding {
  import opened Outcomes
  import opened AbiWords

  type Address = a: seq<byte> | |a| == 20 witness Zeros(20)
  type Bytes32 = b: seq<byte> | |b| == 32 witness Zeros(32)

  function DexId(dex: string): Option<byte> {
    if dex == "univ3" then Some(1)
    else if dex == "curve" then Some(2)
    else if dex == "balancer" then Some(3)
    else if dex == "aerodrome" then Some(4)
    else if dex == "slipstream" then Some(5)
    else if dex == "camelot_algebra" then Some(6)
    else if dex == "camelot_v2" then Some(7)
    else if dex == "constant_product" then Some(8)
    else None
  }

  /** The auxiliary word: the last 32 bytes, left-padded with zeros when shorter. */
  function AuxWord(aux: seq<byte>): (w: Bytes32) {
    if aux == [] then Zeros(32)
    else if |aux| == 32 then aux
    else if |aux| > 32 then aux[|aux|-32..]
    else Zeros(32 - |aux|) + aux
  }

  datatype EncLeg = EncLeg(dex: string, venue: Address, tokenIn: Address, tokenOut: Address, aux: seq<byte>)

  /** A leg as it can be read back: known dex number, normalised auxiliary word. */
  datatype RouteLeg = RouteLeg(dexId: byte, venue: seq<byte>, tokenIn: seq<byte>, tokenOut: seq<byte>, aux: seq<byte>)

  const LEG_SIZE := 93

  ghost predicate KnownDexes(legs: seq<EncLeg>) {
    forall i | 0 <= i < |legs| :: DexId(legs[i].dex).Some?
  }

  function Normal(leg: EncLeg): RouteLeg
    requires DexId(leg.dex).Some?
  {
    RouteLeg(DexId(leg.dex).value, leg.venue, leg.tokenIn, leg.tokenOut, AuxWord(leg.aux))
  }

  function NormalLegs(legs: seq<EncLeg>): (r: seq<RouteLeg>)
    requires KnownDexes(legs)
    ensures |r| == |legs| && forall i | 0 <= i < |legs| :: r[i] == Normal(legs[i])
  {
    seq(|legs|, i requires 0 <= i < |legs| => Normal(legs[i]))
  }

  ghost predicate FixedSizes(leg: RouteLeg) {
    |leg.venue| == |leg.tokenIn| == |leg.tokenOut| == 20 && |leg.aux| == 32
  }

  function LegBytes(leg: RouteLeg): seq<byte> {
    [leg.dexId] + leg.venue + leg.tokenIn + leg.tokenOut + leg.aux
  }

  function LegsBytes(legs: seq<RouteLeg>): seq<byte> {
    if legs == [] then [] else LegsBytes(legs[..|legs|-1]) + LegBytes(legs[|legs|-1])
  }

  /** Version 1, the number of legs, then the legs. */
  function RouteBytes(legs: seq<RouteLeg>): seq<byte>
    requires |legs| <= 255
  {
    [1, |legs|] + LegsBytes(legs)
  }

  /** Reads one leg from its 93 bytes. */
  function ReadLeg(b: seq<byte>): RouteLeg
    requires |b| == LEG_SIZE
  {
    RouteLeg(b[0], b[1..21], b[21..41], b[41..61], b[61..])
  }

  function ReadLegs(b: seq<byte>, n: nat): Option<seq<RouteLeg>>
    decreases n
  {
    if n == 0 then (if b == [] then Some([]) else None)
    else if |b| < LEG_SIZE then None
    else
      match ReadLegs(b[..|b|-LEG_SIZE], n - 1)
      case None => None
      case Some(legs) => Some(legs + [ReadLeg(b[|b|-LEG_SIZE..])])
  }

  /** An independent reader of the documented format. */
  function ReadRoute(b: seq<byte>): Option<seq<RouteLeg>> {
    if |b| < 2 || b[0] != 1 then None else ReadLegs(b[2..], b[1])
  }

  lemma ReadLegBytes(leg: RouteLeg)
    requires FixedSizes(leg)
    ensures |LegBytes(leg)| == LEG_SIZE && ReadLeg(LegBytes(leg)) == leg
  {
  }

  lemma {:induction false} ReadLegsBytes(legs: seq<RouteLeg>)
    requires forall i | 0 <= i < |legs| :: FixedSizes(legs[i])
    ensures ReadLegs(LegsBytes(legs), |legs|) == Some(legs)
  {
    if legs != [] {
      var init, last := legs[..|legs|-1], legs[|legs|-1];
      ReadLegsBytes(init);
      ReadLegBytes(last);
      var b := LegsBytes(legs);
      assert b[..|b|-LEG_SIZE] == LegsBytes(init) && b[|b|-LEG_SIZE..] == LegBytes(last);
      assert init + [last] == legs;
    }
  }

  /** The encoding of a route can be read back. */
  lemma RouteRoundTrip(legs: seq<RouteLeg>)
    requires |legs| <= 255 && forall i | 0 <= i < |legs| :: FixedSizes(legs[i])
    ensures ReadRoute(RouteBytes(legs)) == Some(legs)
  {
    ReadLegsBytes(legs);
    assert RouteBytes(legs)[2..] == LegsBytes(legs);
  }

  lemma DexIdIsInjective(a: string, b: string)
    requires DexId(a).Some? && DexId(a) == DexId(b)
    ensures a == b
  {
  }

  /** Different normalised routes never share an encoding, so a route id identifies the
      route as far as the hash does. */
  lemma EncodeRouteIsInjective(a: seq<EncLeg>, b: seq<EncLeg>)
    requires |a| <= 255 && |b| <= 255 && KnownDexes(a) && KnownDexes(b)
    requires RouteBytes(NormalLegs(a)) == RouteBytes(NormalLegs(b))
    ensures |a| == |b|
    ensures forall i | 0 <= i < |a| ::
              && a[i].dex == b[i].dex && a[i].venue == b[i].venue && a[i].tokenIn == b[i].tokenIn
              && a[i].tokenOut == b[i].tokenOut && AuxWord(a[i].aux) == AuxWord(b[i].aux)
  {
    var na, nb := NormalLegs(a), NormalLegs(b);
    forall i | 0 <= i < |na| ensures FixedSizes(na[i]) {
      assert na[i] == Normal(a[i]);
    }
    forall i | 0 <= i < |nb| ensures FixedSizes(nb[i]) {
      assert nb[i] == Normal(b[i]);
    }
    RouteRoundTrip(na);
    RouteRoundTrip(nb);
    assert na == nb;
    forall i | 0 <= i < |a| ensures a[i].dex == b[i].dex && Normal(a[i]) == Normal(b[i]) {
      assert na[i] == nb[i];
      DexIdIsInjective(a[i].dex, b[i].dex);
    }
  }

  /** Appends leg after leg; too many legs or an unknown dex is an error. */
  method EncodeRoute(legs: seq<EncLeg>) returns (r: Option<seq<byte>>)
    ensures r.Some? <==> |legs| <= 255 && KnownDexes(legs)
    ensures r.Some? ==> r.value == RouteBytes(NormalLegs(legs))
  {
    if |legs| > 255 {
      return None;
    }
    var out: seq<byte> := [];
    out := out + [1];
    out := out + [|legs|];
    assert out == Encoded(legs, 0);
    for n := 0 to |legs|
      invariant KnownDexes(legs[..n])
      invariant out == Encoded(legs, n)
    {
      var leg := legs[n];
      var dexId := DexId(leg.dex);
      if dexId.None? {
        return None;
      }
      EncodeRouteStep(legs, n);
      out := out + [dexId.value];
      out := out + leg.venue;
      out := out + leg.tokenIn;
      out := out + leg.tokenOut;
      out := out + AuxWord(leg.aux);
    }
    assert legs[..|legs|] == legs;
    return Some(out);
  }

  /** The bytes after n legs. */
  ghost function Encoded(legs: seq<EncLeg>, n: nat): seq<byte>
    requires n <= |legs| <= 255 && KnownDexes(legs[..n])
  {
    [1, |legs|] + LegsBytes(NormalLegs(legs[..n]))
  }

  lemma EncodeRouteStep(legs: seq<EncLeg>, n: nat)
    requires n < |legs| <= 255 && KnownDexes(legs[..n]) && DexId(legs[n].dex).Some?
    ensures KnownDexes(legs[..n+1])
    ensures var leg := Normal(legs[n]);
            Encoded(legs, n + 1) == Encoded(legs, n) + [leg.dexId] + leg.venue + leg.tokenIn + leg.tokenOut + leg.aux
  {
    assert legs[..n+1] == legs[..n] + [legs[n]];
    assert NormalLegs(legs[..n+1])[..n] == NormalLegs(legs[..n]);
    var leg := Normal(legs[n]);
    SixParts(Encoded(legs, n), [leg.dexId], leg.venue, leg.tokenIn, leg.tokenOut, leg.aux);
    Assoc([1, |legs|], LegsBytes(NormalLegs(legs[..n])), LegBytes(leg));
  }

  lemma SixParts<T>(s: seq<T>, a: seq<T>, b: seq<T>, c: seq<T>, d: seq<T>, e: seq<T>)
    ensures s + (a + b + c + d + e) == s + a + b + c + d + e
  {
  }
}
