/** Quote-aware frontier selection for three-leg routes (arb_engine.py). */
module Frontier {
  import opened Outcomes
  import opened Ordering

  /** An edge with its identities already normalised. `pair` is absent for an edge without two
      different tokens. */
  datatype Edge = Edge(key: string, tokenIn: string, pair: Option<(string, string)>, protocol: Option<string>,
                       pool: Option<string>, router: Option<string>)

  datatype Candidate = Candidate(order: int, edge: Edge)

  type Pair = (string, string)
  type QualityKey = (Pair, string)

  // -------------------------------------------------------------------- quote quality

  /** sorted(set(values)) */
  function SortedUnique(values: seq<int>): (r: seq<int>)
    ensures forall x :: x in r <==> x in values
    ensures forall i, j | 0 <= i < j < |r| :: r[i] < r[j]
  {
    if values == [] then [] else InsertUnique(values[0], SortedUnique(values[1..]))
  }

  function InsertUnique(x: int, s: seq<int>): (r: seq<int>)
    requires forall i, j | 0 <= i < j < |s| :: s[i] < s[j]
    ensures forall y :: y in r <==> y == x || y in s
    ensures forall i, j | 0 <= i < j < |r| :: r[i] < r[j]
  {
    if s == [] || x < s[0] then [x] + s
    else if x == s[0] then s
    else
      var rest := InsertUnique(x, s[1..]);
      assert forall y :: y in s <==> y == s[0] || y in s[1..];
      assert forall y | y in rest :: s[0] < y;
      assert forall k | 0 <= k < |rest| :: rest[k] in rest;
      [s[0]] + rest
  }

  /** bisect_left on a sorted list: the number of smaller elements. */
  function BisectLeft(s: seq<int>, x: int): (r: nat)
    requires forall i, j | 0 <= i < j < |s| :: s[i] < s[j]
    ensures r <= |s|
    ensures forall i | 0 <= i < r :: s[i] < x
    ensures forall i | r <= i < |s| :: x <= s[i]
  {
    if s == [] || x <= s[0] then 0 else 1 + BisectLeft(s[1..], x)
  }

  function QuoteQualityRank(output: int, outputs: seq<int>): int
    requires forall i, j | 0 <= i < j < |outputs| :: outputs[i] < outputs[j]
  {
    if |outputs| <= 1 then 5000 else BisectLeft(outputs, output) * 10000 / (|outputs| - 1)
  }

  lemma Multiple(d: nat, k: int)
    ensures k >= 1 ==> d * k >= d
    ensures k <= -1 && d > 0 ==> d * k < 0
  {
  }

  lemma DivMonotone(a: nat, b: nat, d: nat)
    requires a <= b && d > 0
    ensures 0 <= a / d <= b / d
  {
    var x, y := a / d, b / d;
    assert a == d * x + a % d && b == d * y + b % d;
    assert d * (x - y) == a - b + b % d - a % d;
    Multiple(d, x - y);
    Multiple(d, x);
  }

  lemma DivExact(q: nat, d: nat)
    requires d > 0
    ensures d * q / d == q
  {
    var r := d * q % d;
    assert d * (d * q / d - q) == -r;
    Multiple(d, d * q / d - q);
  }

  /** Positions of two listed outputs. */
  lemma PositionsAreOrdered(u: seq<int>, a: int, b: int)
    requires forall i, j | 0 <= i < j < |u| :: u[i] < u[j]
    requires a in u && b in u && a <= b
    ensures BisectLeft(u, a) <= BisectLeft(u, b) < |u|
    ensures a < b ==> BisectLeft(u, a) < BisectLeft(u, b)
  {
  }

  lemma {:induction false} BisectAt(u: seq<int>, k: nat)
    requires k < |u| && forall i, j | 0 <= i < j < |u| :: u[i] < u[j]
    ensures BisectLeft(u, u[k]) == k
  {
    if k > 0 {
      BisectAt(u[1..], k - 1);
    }
  }

  lemma ScaledPositions(i: nat, j: nat, d: nat)
    requires i <= j <= d && d > 0
    ensures 0 <= i * 10000 / d <= j * 10000 / d <= 10000
  {
    DivMonotone(i * 10000, j * 10000, d);
    DivMonotone(j * 10000, d * 10000, d);
    DivExact(10000, d);
  }

  /** Within a pair a larger output never ranks lower, ... */
  lemma RankIsMonotone(outputs: seq<int>, a: int, b: int)
    requires a in outputs && b in outputs && a <= b
    ensures var u := SortedUnique(outputs); 0 <= QuoteQualityRank(a, u) <= QuoteQualityRank(b, u) <= 10000
  {
    var u := SortedUnique(outputs);
    PositionsAreOrdered(u, a, b);
    if |u| > 1 {
      ScaledPositions(BisectLeft(u, a), BisectLeft(u, b), |u| - 1);
    }
  }

  lemma ScaledEnds(d: nat)
    requires d > 0
    ensures 0 * 10000 / d == 0 && d * 10000 / d == 10000
  {
    DivExact(10000, d);
    DivExact(0, d);
  }

  lemma SortedEnds(u: seq<int>, a: int)
    requires a in u && forall i, j | 0 <= i < j < |u| :: u[i] < u[j]
    ensures u[0] <= a <= u[|u|-1]
  {
    var k :| 0 <= k < |u| && u[k] == a;
    assert u[0] <= u[k] <= u[|u|-1];
  }

  lemma EndsOfSorted(outputs: seq<int>, a: int)
    requires a in outputs
    ensures var u := SortedUnique(outputs); u[0] in outputs && u[|u|-1] in outputs && u[0] <= a <= u[|u|-1]
  {
    var u := SortedUnique(outputs);
    SortedEnds(u, a);
    assert u[0] in u && u[|u|-1] in u;
  }

  lemma TwoValues(outputs: seq<int>, a: int, b: int)
    requires a in outputs && b in outputs && a != b
    ensures |SortedUnique(outputs)| > 1
  {
    var u := SortedUnique(outputs);
    var i :| 0 <= i < |u| && u[i] == a;
    var j :| 0 <= j < |u| && u[j] == b;
  }

  /** ... and among two or more different outputs the smallest ranks 0 and the largest 10000. */
  lemma RankExtremes(outputs: seq<int>, a: int, b: int)
    requires a in outputs && b in outputs && a != b
    ensures (forall x | x in outputs :: a <= x) ==> QuoteQualityRank(a, SortedUnique(outputs)) == 0
    ensures (forall x | x in outputs :: x <= a) ==> QuoteQualityRank(a, SortedUnique(outputs)) == 10000
  {
    var u := SortedUnique(outputs);
    TwoValues(outputs, a, b);
    EndsOfSorted(outputs, a);
    BisectAt(u, 0);
    BisectAt(u, |u| - 1);
    ScaledEnds(|u| - 1);
  }

  function OutputsOf(candidates: seq<Candidate>, pair: Pair, quoted: map<string, int>): seq<int> {
    if candidates == [] then []
    else
      var n := |candidates| - 1;
      var e := candidates[n].edge;
      OutputsOf(candidates[..n], pair, quoted) + if e.pair == Some(pair) && e.key in quoted then [quoted[e.key]] else []
  }

  ghost predicate Grouped(candidates: seq<Candidate>, quoted: map<string, int>, outputs: map<Pair, seq<int>>,
                          pairs: seq<Pair>) {
    && (forall p :: p in outputs <==> p in pairs)
    && (forall p :: if p in outputs then outputs[p] == OutputsOf(candidates, p, quoted) && outputs[p] != []
                    else OutputsOf(candidates, p, quoted) == [])
  }

  lemma GroupedStep(candidates: seq<Candidate>, c: Candidate, quoted: map<string, int>, p: Pair)
    ensures OutputsOf(candidates + [c], p, quoted)
         == OutputsOf(candidates, p, quoted)
            + if c.edge.pair == Some(p) && c.edge.key in quoted then [quoted[c.edge.key]] else []
  {
    assert (candidates + [c])[..|candidates|] == candidates;
  }

  method QuoteOutputsByPair(candidates: seq<Candidate>, quoted: map<string, int>)
    returns (outputs: map<Pair, seq<int>>, pairs: seq<Pair>)
    ensures Grouped(candidates, quoted, outputs, pairs)
  {
    outputs, pairs := map[], [];
    for i := 0 to |candidates|
      invariant Grouped(candidates[..i], quoted, outputs, pairs)
    {
      var e := candidates[i].edge;
      assert candidates[..i+1] == candidates[..i] + [candidates[i]];
      forall p ensures OutputsOf(candidates[..i+1], p, quoted)
        == OutputsOf(candidates[..i], p, quoted)
           + if e.pair == Some(p) && e.key in quoted then [quoted[e.key]] else [] {
        GroupedStep(candidates[..i], candidates[i], quoted, p);
      }
      if e.pair.Some? && e.key in quoted {
        var pair := e.pair.value;
        if pair in outputs {
          outputs := outputs[pair := outputs[pair] + [quoted[e.key]]];
        } else {
          outputs := outputs[pair := [quoted[e.key]]];
          pairs := pairs + [pair];
        }
      }
    }
    assert candidates[..|candidates|] == candidates;
  }

  predicate Ranked(candidates: seq<Candidate>, quoted: map<string, int>, pairs: seq<Pair>, k: QualityKey) {
    k.0 in pairs && k.1 in quoted && exists c | c in candidates :: c.edge.pair == Some(k.0) && c.edge.key == k.1
  }

  function RankOf(candidates: seq<Candidate>, quoted: map<string, int>, k: QualityKey): int
    requires k.1 in quoted
  {
    QuoteQualityRank(quoted[k.1], SortedUnique(OutputsOf(candidates, k.0, quoted)))
  }

  lemma RankedSnoc(candidates: seq<Candidate>, i: nat, quoted: map<string, int>, pair: Pair, k: QualityKey)
    requires i < |candidates|
    ensures Ranked(candidates[..i+1], quoted, [pair], k)
       <==> Ranked(candidates[..i], quoted, [pair], k)
            || (candidates[i].edge.pair == Some(pair) && candidates[i].edge.key in quoted
                && k == (pair, candidates[i].edge.key))
  {
    assert candidates[..i+1] == candidates[..i] + [candidates[i]];
  }

  /** The ranks of one pair. */
  method PairQuotePercentiles(pair: Pair, candidates: seq<Candidate>, outputs: seq<int>, quoted: map<string, int>)
    returns (ranks: map<QualityKey, int>)
    requires outputs == OutputsOf(candidates, pair, quoted)
    ensures forall k :: k in ranks <==> Ranked(candidates, quoted, [pair], k)
    ensures forall k | k in ranks :: k.1 in quoted && ranks[k] == RankOf(candidates, quoted, k)
  {
    var unique := SortedUnique(outputs);
    ranks := map[];
    for i := 0 to |candidates|
      invariant forall k :: k in ranks <==> Ranked(candidates[..i], quoted, [pair], k)
      invariant forall k | k in ranks :: k.0 == pair && k.1 in quoted && ranks[k] == RankOf(candidates, quoted, k)
    {
      var e := candidates[i].edge;
      forall k
        ensures Ranked(candidates[..i+1], quoted, [pair], k)
                <==> (Ranked(candidates[..i], quoted, [pair], k)
                      || (e.pair == Some(pair) && e.key in quoted && k == (pair, e.key))) {
        RankedSnoc(candidates, i, quoted, pair, k);
      }
      if e.pair == Some(pair) && e.key in quoted {
        ranks := ranks[(pair, e.key) := QuoteQualityRank(quoted[e.key], unique)];
      }
    }
    assert candidates[..|candidates|] == candidates;
  }

  /** Every quoted edge that belongs to a pair gets its rank within the pair, and nothing else
      gets one. */
  method FrontierQuoteQualityPercentiles(candidates: seq<Candidate>, quoted: map<string, int>)
    returns (quality: map<QualityKey, int>)
    ensures forall k :: k in quality <==> HasQuote(candidates, quoted, k)
    ensures forall k | k in quality :: k.1 in quoted && quality[k] == RankOf(candidates, quoted, k)
  {
    var outputs, pairs := QuoteOutputsByPair(candidates, quoted);
    quality := map[];
    for i := 0 to |pairs|
      invariant forall k :: k in quality <==> Ranked(candidates, quoted, pairs[..i], k)
      invariant forall k | k in quality :: k.1 in quoted && quality[k] == RankOf(candidates, quoted, k)
    {
      var ranks := PairQuotePercentiles(pairs[i], candidates, outputs[pairs[i]], quoted);
      quality := quality + ranks;
    }
    forall k ensures k in quality <==> HasQuote(candidates, quoted, k) {
      assert pairs[..|pairs|] == pairs;
      if HasQuote(candidates, quoted, k) {
        HasOutputs(candidates, quoted, k);
      }
    }
  }

  predicate HasQuote(candidates: seq<Candidate>, quoted: map<string, int>, k: QualityKey) {
    k.1 in quoted && exists c | c in candidates :: c.edge.pair == Some(k.0) && c.edge.key == k.1
  }

  lemma {:induction false} HasOutputs(candidates: seq<Candidate>, quoted: map<string, int>, k: QualityKey)
    requires HasQuote(candidates, quoted, k)
    ensures quoted[k.1] in OutputsOf(candidates, k.0, quoted)
  {
    var n := |candidates| - 1;
    var c :| c in candidates && c.edge.pair == Some(k.0) && c.edge.key == k.1;
    if c != candidates[n] {
      assert c in candidates[..n];
      HasOutputs(candidates[..n], quoted, k);
    }
  }

  /** Of two quoted edges of one directed pair, the one with the larger output never has the
      lower quality. */
  lemma QualityFollowsOutput(candidates: seq<Candidate>, quoted: map<string, int>, pair: Pair, a: string, b: string)
    requires HasQuote(candidates, quoted, (pair, a)) && HasQuote(candidates, quoted, (pair, b))
        && quoted[a] <= quoted[b]
    ensures 0 <= RankOf(candidates, quoted, (pair, a)) <= RankOf(candidates, quoted, (pair, b)) <= 10000
  {
    HasOutputs(candidates, quoted, (pair, a));
    HasOutputs(candidates, quoted, (pair, b));
    RankIsMonotone(OutputsOf(candidates, pair, quoted), quoted[a], quoted[b]);
  }

  // ------------------------------------------------------------------------ selection

  datatype Context = Context(protocols: map<string, set<string>>, pools: map<string, set<string>>,
                             routers: map<string, set<string>>, perTokenCap: nat, quality: map<QualityKey, int>)

  function OfToken(selected: seq<Edge>, token: string): seq<Edge> {
    if selected == [] then []
    else
      var n := |selected| - 1;
      OfToken(selected[..n], token) + if selected[n].tokenIn == token then [selected[n]] else []
  }

  function Active(m: map<string, set<string>>, token: string): set<string> { if token in m then m[token] else {} }

  function Fresh(identity: Option<string>, active: set<string>, chosen: set<Option<string>>): int {
    if identity.Some? && identity.value !in active && identity !in chosen then 1 else 0
  }

  function Quality(ctx: Context, e: Edge): int {
    if e.pair.Some? && (e.pair.value, e.key) in ctx.quality then ctx.quality[(e.pair.value, e.key)] else 0
  }

  /** Quote quality first, then new protocol, pool and router, then discovery order. */
  function Score(ctx: Context, c: Candidate, bucket: seq<Edge>): (score: seq<int>)
    ensures |score| == 5 && score[0] == Quality(ctx, c.edge)
  {
    var e, t := c.edge, c.edge.tokenIn;
    [Quality(ctx, e),
     Fresh(e.protocol, Active(ctx.protocols, t), set x | x in bucket :: x.protocol),
     Fresh(e.pool, Active(ctx.pools, t), set x | x in bucket :: x.pool),
     Fresh(e.router, Active(ctx.routers, t), set x | x in bucket :: x.router),
     -c.order]
  }

  function Bucket(byToken: map<string, seq<Edge>>, token: string): seq<Edge> {
    if token in byToken then byToken[token] else []
  }

  predicate Open(ctx: Context, bucket: seq<Edge>) { |bucket| < ctx.perTokenCap }

  function ScoreIn(ctx: Context, byToken: map<string, seq<Edge>>, c: Candidate): seq<int> {
    Score(ctx, c, Bucket(byToken, c.edge.tokenIn))
  }

  predicate OpenIn(ctx: Context, byToken: map<string, seq<Edge>>, c: Candidate) {
    Open(ctx, Bucket(byToken, c.edge.tokenIn))
  }

  ghost predicate FirstBest(pending: seq<Candidate>, byToken: map<string, seq<Edge>>, ctx: Context, n: nat, best: nat)
    requires n <= |pending|
  {
    && best < n && OpenIn(ctx, byToken, pending[best])
    && (forall j | 0 <= j < n && OpenIn(ctx, byToken, pending[j]) ::
          LexLe(ScoreIn(ctx, byToken, pending[j]), ScoreIn(ctx, byToken, pending[best])))
    && (forall j | 0 <= j < best && OpenIn(ctx, byToken, pending[j]) ::
          ScoreIn(ctx, byToken, pending[j]) != ScoreIn(ctx, byToken, pending[best]))
  }

  method BestFrontierCandidateIndex(pending: seq<Candidate>, byToken: map<string, seq<Edge>>, ctx: Context)
    returns (best: Option<nat>)
    ensures best.None? <==> forall c | c in pending :: !OpenIn(ctx, byToken, c)
    ensures best.Some? ==> FirstBest(pending, byToken, ctx, |pending|, best.value)
  {
    best := None;
    for i := 0 to |pending|
      invariant best.None? ==> forall j | 0 <= j < i :: !OpenIn(ctx, byToken, pending[j])
      invariant best.Some? ==> FirstBest(pending, byToken, ctx, i, best.value)
    {
      if OpenIn(ctx, byToken, pending[i]) {
        var score := ScoreIn(ctx, byToken, pending[i]);
        LexTotal(score, score);
        if best.None? {
          best := Some(i);
        } else {
          FirstBestStep(pending, byToken, ctx, i, best.value);
          if !LexLe(score, ScoreIn(ctx, byToken, pending[best.value])) {
            best := Some(i);
          }
        }
      }
    }
  }

  lemma FirstBestStep(pending: seq<Candidate>, byToken: map<string, seq<Edge>>, ctx: Context, i: nat, best: nat)
    requires i < |pending| && FirstBest(pending, byToken, ctx, i, best) && OpenIn(ctx, byToken, pending[i])
    ensures FirstBest(pending, byToken, ctx, i + 1,
                      if LexLe(ScoreIn(ctx, byToken, pending[i]), ScoreIn(ctx, byToken, pending[best]))
                      then best else i)
  {
    var score, top := ScoreIn(ctx, byToken, pending[i]), ScoreIn(ctx, byToken, pending[best]);
    if !LexLe(score, top) {
      LexTotal(score, top);
      LexTotal(score, score);
      forall j | 0 <= j < i && OpenIn(ctx, byToken, pending[j])
        ensures LexLe(ScoreIn(ctx, byToken, pending[j]), score) && ScoreIn(ctx, byToken, pending[j]) != score
      {
        LexTransitive(ScoreIn(ctx, byToken, pending[j]), top, score);
      }
    }
  }

  function Edges(picks: seq<Candidate>): (r: seq<Edge>)
    ensures |r| == |picks| && forall i | 0 <= i < |picks| :: r[i] == picks[i].edge
  {
    seq(|picks|, i requires 0 <= i < |picks| => picks[i].edge)
  }

  function Chosen(picks: seq<Candidate>, token: string): seq<Edge> { OfToken(Edges(picks), token) }

  /** The pick's token had room, and no candidate with room scored higher. */
  ghost predicate BestPick(ctx: Context, all: multiset<Candidate>, before: seq<Candidate>, pick: Candidate) {
    && Open(ctx, Chosen(before, pick.edge.tokenIn))
    && forall c | c in all - multiset(before) && Open(ctx, Chosen(before, c.edge.tokenIn)) ::
         LexLe(Score(ctx, c, Chosen(before, c.edge.tokenIn)), Score(ctx, pick, Chosen(before, pick.edge.tokenIn)))
  }

  ghost predicate GreedyRun(ctx: Context, all: multiset<Candidate>, picks: seq<Candidate>) {
    picks == []
    || (GreedyRun(ctx, all, picks[..|picks|-1]) && BestPick(ctx, all, picks[..|picks|-1], picks[|picks|-1]))
  }

  /** The selection by token is the selection, split by token in order. */
  ghost predicate SplitByToken(selected: seq<Edge>, byToken: map<string, seq<Edge>>) {
    forall t :: (t in byToken <==> OfToken(selected, t) != []) && Bucket(byToken, t) == OfToken(selected, t)
  }

  lemma SplitByTokenStep(selected: seq<Edge>, byToken: map<string, seq<Edge>>, e: Edge)
    requires SplitByToken(selected, byToken)
    ensures SplitByToken(selected + [e], byToken[e.tokenIn := Bucket(byToken, e.tokenIn) + [e]])
  {
    assert (selected + [e])[..|selected|] == selected;
  }

  lemma FirstBestIsBestPick(ctx: Context, all: multiset<Candidate>, picks: seq<Candidate>, pending: seq<Candidate>,
                            byToken: map<string, seq<Edge>>, best: nat)
    requires multiset(picks) + multiset(pending) == all && SplitByToken(Edges(picks), byToken)
    requires FirstBest(pending, byToken, ctx, |pending|, best)
    ensures BestPick(ctx, all, picks, pending[best])
  {
    forall c | c in all - multiset(picks) && Open(ctx, Chosen(picks, c.edge.tokenIn))
      ensures LexLe(Score(ctx, c, Chosen(picks, c.edge.tokenIn)),
                    Score(ctx, pending[best], Chosen(picks, pending[best].edge.tokenIn)))
    {
      assert c in multiset(pending);
      var j :| 0 <= j < |pending| && pending[j] == c;
      assert Bucket(byToken, c.edge.tokenIn) == Chosen(picks, c.edge.tokenIn);
      assert OpenIn(ctx, byToken, pending[j]);
    }
    assert Bucket(byToken, pending[best].edge.tokenIn) == Chosen(picks, pending[best].edge.tokenIn);
  }

  lemma RunSnoc(ctx: Context, all: multiset<Candidate>, picks: seq<Candidate>, c: Candidate)
    requires GreedyRun(ctx, all, picks) && BestPick(ctx, all, picks, c)
    ensures GreedyRun(ctx, all, picks + [c])
  {
    assert (picks + [c])[..|picks|] == picks;
  }

  lemma EdgesSnoc(picks: seq<Candidate>, c: Candidate)
    ensures Edges(picks + [c]) == Edges(picks) + [c.edge]
  {
  }

  lemma LastPick(ctx: Context, all: multiset<Candidate>, picks: seq<Candidate>)
    requires GreedyRun(ctx, all, picks) && picks != []
    ensures GreedyRun(ctx, all, picks[..|picks|-1]) && BestPick(ctx, all, picks[..|picks|-1], picks[|picks|-1])
  {
  }

  /** What a selection means. */
  ghost predicate Selected(ctx: Context, all: multiset<Candidate>, globalCap: int, picks: seq<Candidate>) {
    && multiset(picks) <= all
    && |picks| <= AtLeastZero(globalCap)
    && GreedyRun(ctx, all, picks)
    && (|picks| == AtLeastZero(globalCap)
        || forall c | c in all - multiset(picks) :: !Open(ctx, Chosen(picks, c.edge.tokenIn)))
  }

  lemma NothingOpen(ctx: Context, all: multiset<Candidate>, picks: seq<Candidate>, pending: seq<Candidate>,
                    byToken: map<string, seq<Edge>>)
    requires multiset(picks) + multiset(pending) == all && SplitByToken(Edges(picks), byToken)
    requires forall c | c in pending :: !OpenIn(ctx, byToken, c)
    ensures forall c | c in all - multiset(picks) :: !Open(ctx, Chosen(picks, c.edge.tokenIn))
  {
    forall c | c in all - multiset(picks) ensures !Open(ctx, Chosen(picks, c.edge.tokenIn)) {
      assert c in multiset(pending);
      assert !OpenIn(ctx, byToken, c);
      assert Bucket(byToken, c.edge.tokenIn) == Chosen(picks, c.edge.tokenIn);
    }
  }

  lemma TakeFromPending(all: multiset<Candidate>, picks: seq<Candidate>, pending: seq<Candidate>, best: nat)
    requires multiset(picks) + multiset(pending) == all && best < |pending|
    ensures multiset(picks + [pending[best]]) + multiset(Without(pending, best)) == all
  {
    assert pending[best] in multiset(pending);
  }

  method SelectThreeLegFrontierEdges(candidates: seq<Candidate>, protocols: map<string, set<string>>,
                                     pools: map<string, set<string>>, routers: map<string, set<string>>,
                                     perTokenCap: int, globalCap: int, quotedOutputs: map<string, int>,
                                     givenQuality: Option<map<QualityKey, int>>)
    returns (selected: seq<Edge>, byToken: map<string, seq<Edge>>, ctx: Context, picks: seq<Candidate>)
    ensures ctx.perTokenCap == AtLeastZero(perTokenCap)
    ensures (ctx.protocols, ctx.pools, ctx.routers) == (protocols, pools, routers)
    ensures givenQuality.Some? ==> ctx.quality == givenQuality.value
    ensures givenQuality.None? ==>
      var quoted := map k | k in quotedOutputs && quotedOutputs[k] > 0 :: quotedOutputs[k];
      forall k :: if HasQuote(candidates, quoted, k)
                  then k in ctx.quality && ctx.quality[k] == RankOf(candidates, quoted, k)
                  else k !in ctx.quality
    ensures selected == Edges(picks) && SplitByToken(selected, byToken)
    ensures Selected(ctx, multiset(candidates), globalCap, picks)
  {
    var quoted := map k | k in quotedOutputs && quotedOutputs[k] > 0 :: quotedOutputs[k];
    var quality: map<QualityKey, int>;
    if givenQuality.Some? {
      quality := givenQuality.value;
    } else {
      quality := FrontierQuoteQualityPercentiles(candidates, quoted);
    }
    ctx := Context(protocols, pools, routers, AtLeastZero(perTokenCap), quality);
    selected, byToken, picks := SelectFrom(candidates, ctx, globalCap);
  }

  method SelectFrom(candidates: seq<Candidate>, ctx: Context, globalCap: int)
    returns (selected: seq<Edge>, byToken: map<string, seq<Edge>>, picks: seq<Candidate>)
    ensures selected == Edges(picks) && SplitByToken(selected, byToken)
    ensures Selected(ctx, multiset(candidates), globalCap, picks)
  {
    var pending := candidates;
    selected, byToken, picks := [], map[], [];
    while pending != [] && |selected| < AtLeastZero(globalCap)
      invariant multiset(picks) + multiset(pending) == multiset(candidates)
      invariant selected == Edges(picks) && SplitByToken(selected, byToken)
      invariant GreedyRun(ctx, multiset(candidates), picks)
      invariant |selected| <= AtLeastZero(globalCap)
      decreases |pending|
    {
      var best := BestFrontierCandidateIndex(pending, byToken, ctx);
      if best.None? {
        NothingOpen(ctx, multiset(candidates), picks, pending, byToken);
        return;
      }
      var c := pending[best.value];
      FirstBestIsBestPick(ctx, multiset(candidates), picks, pending, byToken, best.value);
      RunSnoc(ctx, multiset(candidates), picks, c);
      EdgesSnoc(picks, c);
      TakeFromPending(multiset(candidates), picks, pending, best.value);
      SplitByTokenStep(selected, byToken, c.edge);
      pending := Without(pending, best.value);
      byToken := byToken[c.edge.tokenIn := Bucket(byToken, c.edge.tokenIn) + [c.edge]];
      selected, picks := selected + [c.edge], picks + [c];
    }
  }

  // ------------------------------------------------------------------------ guarantees

  lemma {:induction false} OfTokenGrows(edges: seq<Edge>, k: nat, token: string)
    requires k <= |edges|
    ensures |OfToken(edges[..k], token)| <= |OfToken(edges, token)|
    decreases |edges|
  {
    if k < |edges| {
      var n := |edges| - 1;
      OfTokenGrows(edges[..n], k, token);
      assert edges[..n][..k] == edges[..k];
    } else {
      assert edges[..k] == edges;
    }
  }

  lemma ChosenGrows(picks: seq<Candidate>, k: nat, token: string)
    requires k <= |picks|
    ensures |Chosen(picks[..k], token)| <= |Chosen(picks, token)|
  {
    assert Edges(picks[..k]) == Edges(picks)[..k];
    OfTokenGrows(Edges(picks), k, token);
  }

  lemma ChosenSnoc(picks: seq<Candidate>, c: Candidate, token: string)
    ensures Chosen(picks + [c], token) == Chosen(picks, token) + if c.edge.tokenIn == token then [c.edge] else []
  {
    assert Edges(picks + [c])[..|picks|] == Edges(picks);
  }

  lemma CapStep(ctx: Context, all: multiset<Candidate>, before: seq<Candidate>, pick: Candidate, token: string)
    requires BestPick(ctx, all, before, pick) && |Chosen(before, token)| <= ctx.perTokenCap
    ensures |Chosen(before + [pick], token)| <= ctx.perTokenCap
  {
    ChosenSnoc(before, pick, token);
  }

  /** No token exceeds its cap. */
  lemma {:induction false} TokenCapHolds(ctx: Context, all: multiset<Candidate>, picks: seq<Candidate>, token: string)
    requires GreedyRun(ctx, all, picks)
    ensures |Chosen(picks, token)| <= ctx.perTokenCap
  {
    if picks != [] {
      var n := |picks| - 1;
      TokenCapHolds(ctx, all, picks[..n], token);
      CapStep(ctx, all, picks[..n], picks[n], token);
      assert picks == picks[..n] + [picks[n]];
    }
  }

  lemma LeftOutFromTheStart(all: multiset<Candidate>, picks: seq<Candidate>, k: nat, left: Candidate)
    requires k <= |picks| && left in all - multiset(picks)
    ensures left in all - multiset(picks[..k])
  {
    assert picks == picks[..k] + picks[k..];
  }

  lemma BestPickHasQuality(ctx: Context, all: multiset<Candidate>, before: seq<Candidate>, pick: Candidate,
                           left: Candidate)
    requires BestPick(ctx, all, before, pick)
    requires left in all - multiset(before) && Open(ctx, Chosen(before, left.edge.tokenIn))
    ensures Quality(ctx, pick.edge) >= Quality(ctx, left.edge)
  {
  }

  lemma InitRuns(ctx: Context, all: multiset<Candidate>, picks: seq<Candidate>)
    requires GreedyRun(ctx, all, picks) && picks != []
    ensures GreedyRun(ctx, all, picks[..|picks|-1])
  {
  }

  lemma LastHasQuality(ctx: Context, all: multiset<Candidate>, picks: seq<Candidate>, init: seq<Candidate>,
                       pick: Candidate, left: Candidate)
    requires GreedyRun(ctx, all, picks) && picks == init + [pick]
    requires left in all - multiset(init) && Open(ctx, Chosen(init, left.edge.tokenIn))
    ensures Quality(ctx, pick.edge) >= Quality(ctx, left.edge)
  {
    LastPick(ctx, all, picks);
    assert picks[..|picks|-1] == init;
    BestPickHasQuality(ctx, all, init, pick, left);
  }

  lemma {:induction false} QualityAt(ctx: Context, all: multiset<Candidate>, picks: seq<Candidate>,
                                     before: seq<Candidate>, pick: Candidate, left: Candidate)
    requires GreedyRun(ctx, all, picks) && before + [pick] <= picks
    requires left in all - multiset(before) && Open(ctx, Chosen(before, left.edge.tokenIn))
    ensures Quality(ctx, pick.edge) >= Quality(ctx, left.edge)
  {
    if |before| + 1 == |picks| {
      LastHasQuality(ctx, all, picks, before, pick, left);
    } else {
      InitRuns(ctx, all, picks);
      QualityAt(ctx, all, picks[..|picks|-1], before, pick, left);
    }
  }

  lemma PickAfter(picks: seq<Candidate>, k: nat)
    requires k < |picks|
    ensures picks[..k] + [picks[k]] <= picks
  {
  }

  /** Greedy guarantee: every selected edge has at least the quote quality of any candidate
      that was left out although its token still has room. */
  lemma SelectedQualityDominates(ctx: Context, all: multiset<Candidate>, picks: seq<Candidate>, k: nat, left: Candidate)
    requires GreedyRun(ctx, all, picks) && k < |picks|
    requires left in all - multiset(picks) && Open(ctx, Chosen(picks, left.edge.tokenIn))
    ensures Quality(ctx, picks[k].edge) >= Quality(ctx, left.edge)
  {
    ChosenGrows(picks, k, left.edge.tokenIn);
    LeftOutFromTheStart(all, picks, k, left);
    PickAfter(picks, k);
    QualityAt(ctx, all, picks, picks[..k], picks[k], left);
  }
}
