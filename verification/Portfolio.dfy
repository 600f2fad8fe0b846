/** Greedy portfolio selection under simultaneous hard budgets (portfolio_optimizer.py).

    Floating-point scores are modelled as reals; texts are already trimmed. */
module Portfolio {
  import opened Outcomes
  import opened Ordering

  // ------------------------------------------------------------------- amounts

  /** A numeric field as read: a decimal number, or something that is not one. */
  datatype Amount = Unreadable | Amount(value: real)

  function Truncate(r: real): int { if r >= 0.0 then r.Floor else -((-r).Floor) }

  function Ceiling(r: real): int { -((-r).Floor) }

  function CoerceInt(a: Amount): int { if a.Unreadable? then 0 else Truncate(a.value) }

  function CoerceCeil(a: Amount): int { if a.Unreadable? then 0 else Ceiling(a.value) }

  // ---------------------------------------------------------------- candidates

  datatype Candidate = Candidate(id: string, ev: Amount, gas: Amount, capital: Amount, conflictKeys: seq<string>,
                                 correlationKey: string, strategyFamily: string, engineType: string, chain: string,
                                 tokenKeys: seq<string>, venueKeys: seq<string>, pathId: string, pSuccess: real,
                                 qualityEdge: Amount, routeQuality: real)

  function Ev(c: Candidate): int { CoerceInt(c.ev) }
  function Gas(c: Candidate): int { AtLeastZero(CoerceCeil(c.gas)) }
  function Capital(c: Candidate): int { AtLeastZero(CoerceCeil(c.capital)) }

  const FAMILY_ALIASES: map<string, string> := map["flash_arb" := "flashloan_atomic", "cex_dex_arb" := "cross_cex_dex",
                                                   "liquidation_capture" := "liquidation_anticipation"]

  function CanonicalFamily(name: string): string { if name in FAMILY_ALIASES then FAMILY_ALIASES[name] else name }

  function Family(c: Candidate): string { CanonicalFamily(c.strategyFamily) }

  // ---------------------------------------------------- limits per canonical family

  ghost predicate NamesFamily(raw: seq<(string, Amount)>, i: nat, family: string) {
    i < |raw| && CanonicalFamily(raw[i].0) == family && family != ""
  }

  /** Aliases of one family share the smallest of their limits. */
  ghost predicate SmallestLimit(raw: seq<(string, Amount)>, limits: map<string, int>, f: string) {
    && (f in limits <==> exists i: nat :: NamesFamily(raw, i, f))
    && (f in limits ==>
          && limits[f] >= 0
          && (forall i: nat | NamesFamily(raw, i, f) :: limits[f] <= AtLeastZero(CoerceInt(raw[i].1)))
          && (exists i: nat :: NamesFamily(raw, i, f) && limits[f] == AtLeastZero(CoerceInt(raw[i].1))))
  }

  ghost predicate MergedLimits(raw: seq<(string, Amount)>, limits: map<string, int>) {
    forall f :: SmallestLimit(raw, limits, f)
  }

  function Merge(limits: map<string, int>, name: string, raw: Amount): map<string, int> {
    var family, value := CanonicalFamily(name), AtLeastZero(CoerceInt(raw));
    if family == "" then limits
    else if family !in limits || value < limits[family] then limits[family := value]
    else limits
  }

  lemma NamesFamilySnoc(raw: seq<(string, Amount)>, e: (string, Amount), i: nat, f: string)
    ensures NamesFamily(raw + [e], i, f)
       <==> NamesFamily(raw, i, f) || (i == |raw| && CanonicalFamily(e.0) == f && f != "")
  {
  }

  lemma MergeStepFor(raw: seq<(string, Amount)>, e: (string, Amount), limits: map<string, int>, f: string)
    requires SmallestLimit(raw, limits, f)
    ensures SmallestLimit(raw + [e], Merge(limits, e.0, e.1), f)
  {
    var all, next, n := raw + [e], Merge(limits, e.0, e.1), |raw|;
    assert all[n] == e && forall i | 0 <= i < n :: all[i] == raw[i];
    forall i: nat ensures NamesFamily(all, i, f)
                     <==> NamesFamily(raw, i, f) || (i == n && CanonicalFamily(e.0) == f && f != "") {
      NamesFamilySnoc(raw, e, i, f);
    }
    if f in limits && next[f] == limits[f] {
      var i: nat :| NamesFamily(raw, i, f) && limits[f] == AtLeastZero(CoerceInt(raw[i].1));
      assert NamesFamily(all, i, f);
    } else if f in next {
      assert NamesFamily(all, n, f);
    }
  }

  lemma MergeStep(raw: seq<(string, Amount)>, e: (string, Amount), limits: map<string, int>)
    requires MergedLimits(raw, limits)
    ensures MergedLimits(raw + [e], Merge(limits, e.0, e.1))
  {
    forall f ensures SmallestLimit(raw + [e], Merge(limits, e.0, e.1), f) {
      MergeStepFor(raw, e, limits, f);
    }
  }

  method CanonicalFamilyCapitalLimits(raw: seq<(string, Amount)>) returns (limits: map<string, int>)
    ensures MergedLimits(raw, limits)
  {
    limits := map[];
    for n := 0 to |raw|
      invariant MergedLimits(raw[..n], limits)
    {
      MergeStep(raw[..n], raw[n], limits);
      PrefixSnoc(raw, n);
      limits := Merge(limits, raw[n].0, raw[n].1);
    }
    assert raw[..|raw|] == raw;
  }

  // ----------------------------------------------------------- counters of a run

  datatype Limits = Limits(gasBudget: int, maxTrades: int, familyCaps: map<string, int>, engineCaps: map<string, int>,
                           capitalLimit: Option<int>, familyCapital: map<string, int>, covariance: map<string, real>,
                           pathPenalties: map<string, real>)

  /** The counters and used sets that the selection loop carries along. */
  datatype Tally = Tally(gas: int, capital: int, conflicts: set<string>, correlations: set<string>, tokens: set<string>,
                         venues: set<string>, familyCounts: map<string, int>, engineCounts: map<string, int>,
                         familyCapital: map<string, int>)

  function Get(m: map<string, int>, k: string): int { if k in m then m[k] else 0 }

  function GetReal(m: map<string, real>, k: string): real { if k in m then m[k] else 0.0 }

  function Elements(s: seq<string>): (r: set<string>)
    ensures forall x :: x in r <==> x in s
  {
    set x | x in s
  }

  const NOTHING := Tally(0, 0, {}, {}, {}, {}, map[], map[], map[])

  function Add(t: Tally, c: Candidate): Tally {
    var f := Family(c);
    Tally(t.gas + Gas(c), t.capital + Capital(c), t.conflicts + Elements(c.conflictKeys),
          if c.correlationKey != "" then t.correlations + {c.correlationKey} else t.correlations,
          t.tokens + Elements(c.tokenKeys), t.venues + Elements(c.venueKeys),
          if f != "" then t.familyCounts[f := Get(t.familyCounts, f) + 1] else t.familyCounts,
          if c.engineType != ""
          then t.engineCounts[c.engineType := Get(t.engineCounts, c.engineType) + 1] else t.engineCounts,
          if f != "" then t.familyCapital[f := Get(t.familyCapital, f) + Capital(c)] else t.familyCapital)
  }

  function TallyOf(picked: seq<Candidate>): Tally {
    if picked == [] then NOTHING else Add(TallyOf(picked[..|picked|-1]), picked[|picked|-1])
  }

  // --------------------------------------------------------------------- scoring

  function Larger(a: real, b: real): real { if a >= b then a else b }
  function Smaller(a: real, b: real): real { if a <= b then a else b }
  function Clip(x: real, lo: real, hi: real): real { Larger(lo, Smaller(hi, x)) }

  function AdjustedEv(lim: Limits, t: Tally, c: Candidate): int {
    var ev0 := Ev(c);
    var ev1 := if c.correlationKey != "" && c.correlationKey in t.correlations
               then Truncate(ev0 as real * 0.72) else ev0;
    var ev2 := if c.strategyFamily != ""
               then Truncate(ev1 as real * Larger(0.65, 1.0 - GetReal(lim.covariance, c.strategyFamily))) else ev1;
    if c.pathId != "" then Truncate(ev2 as real * Larger(0.60, 1.0 - GetReal(lim.pathPenalties, c.pathId))) else ev2
  }

  function Shared(keys: seq<string>, used: set<string>): nat {
    if keys == [] then 0 else (if keys[0] in used then 1 else 0) + Shared(keys[1..], used)
  }

  predicate SameChain(picked: seq<Candidate>, chain: string) {
    forall i | 0 <= i < |picked| :: picked[i].chain == chain
  }

  function Crowding(t: Tally, picked: seq<Candidate>, c: Candidate): real {
    var p1 := 1.0 - Smaller(0.18, 0.06 * Shared(c.tokenKeys, t.tokens) as real);
    var p2 := p1 - Smaller(0.18, 0.06 * Shared(c.venueKeys, t.venues) as real);
    var p3 := if Family(c) != "" then p2 - Smaller(0.15, 0.08 * Get(t.familyCounts, Family(c)) as real) else p2;
    var p4 := if c.engineType != "" then p3 - Smaller(0.10, 0.05 * Get(t.engineCounts, c.engineType) as real) else p3;
    var p5 := if c.chain != "" && picked != [] && SameChain(picked, c.chain) then p4 - 0.03 else p4;
    Clip(p5, 0.55, 1.0)
  }

  function CapitalEfficiency(c: Candidate, adjusted: int): real {
    var capital := if Capital(c) >= 1 then Capital(c) else 1;
    var edge := AtLeastZero(adjusted) as real / capital as real;
    Clip(0.75 + Smaller(0.50, edge * 5.0), 0.75, 1.25)
  }

  function OrOne(x: real): real { if x == 0.0 then 1.0 else x }

  function QualityMultiplier(c: Candidate, adjusted: int): real {
    var edge := AtLeastZero(if c.qualityEdge.Unreadable? then adjusted else Truncate(c.qualityEdge.value));
    var ratio := if adjusted > 0 then Clip(edge as real / adjusted as real, 0.70, 1.0) else 1.0;
    ratio * Clip(0.70 + 0.30 * OrOne(c.pSuccess), 0.70, 1.0) * Clip(0.80 + 0.20 * OrOne(c.routeQuality), 0.80, 1.0)
  }

  datatype Score = Score(value: real, efficiency: real, quality: real, adjusted: int)

  function ScoreOf(lim: Limits, t: Tally, picked: seq<Candidate>, c: Candidate): Score {
    var adjusted := AdjustedEv(lim, t, c);
    var gas := if Gas(c) >= 1 then Gas(c) else 1;
    var efficiency, quality := CapitalEfficiency(c, adjusted), QualityMultiplier(c, adjusted);
    Score((adjusted as real * quality * Crowding(t, picked, c) * efficiency) / gas as real, efficiency, quality,
          adjusted)
  }

  /** Tuple order of scores. */
  predicate Above(a: Score, b: Score) {
    if a.value != b.value then a.value > b.value
    else if a.efficiency != b.efficiency then a.efficiency > b.efficiency
    else if a.quality != b.quality then a.quality > b.quality
    else a.adjusted > b.adjusted
  }

  // -------------------------------------------------------------- hard constraints

  predicate CapitalIsRequired(lim: Limits) { lim.capitalLimit.Some? || lim.familyCapital != map[] }

  predicate FitsCapital(lim: Limits, t: Tally, c: Candidate) {
    && (CapitalIsRequired(lim) ==> Capital(c) > 0)
    && (lim.capitalLimit.Some? && Capital(c) > 0 ==> t.capital + Capital(c) <= lim.capitalLimit.value)
    && (Family(c) != "" && Capital(c) > 0 && Family(c) in lim.familyCapital ==>
          Get(t.familyCapital, Family(c)) + Capital(c) <= lim.familyCapital[Family(c)])
  }

  predicate FitsCounts(lim: Limits, t: Tally, c: Candidate) {
    && (Family(c) != "" && Family(c) in lim.familyCaps ==> Get(t.familyCounts, Family(c)) < lim.familyCaps[Family(c)])
    && (c.engineType != "" && c.engineType in lim.engineCaps ==>
          Get(t.engineCounts, c.engineType) < lim.engineCaps[c.engineType])
  }

  /** Every check a candidate has to pass in one round. */
  predicate Eligible(lim: Limits, t: Tally, c: Candidate) {
    && Ev(c) > 0
    && t.gas + Gas(c) <= lim.gasBudget
    && FitsCapital(lim, t, c)
    && FitsCounts(lim, t, c)
    && (forall k | k in c.conflictKeys :: k !in t.conflicts)
    && AdjustedEv(lim, t, c) > 0
  }

  // ---------------------------------------------------------------- the program

  /** The score of every candidate that passes the checks. */
  ghost function Scores(lim: Limits, t: Tally, picked: seq<Candidate>,
                        remaining: seq<Candidate>): (s: seq<Option<Score>>)
    ensures |s| == |remaining|
    ensures forall j | 0 <= j < |s| ::
      s[j] == if Eligible(lim, t, remaining[j]) then Some(ScoreOf(lim, t, picked, remaining[j])) else None
  {
    seq(|remaining|, j requires 0 <= j < |remaining| =>
      if Eligible(lim, t, remaining[j]) then Some(ScoreOf(lim, t, picked, remaining[j])) else None)
  }

  /** The first of the highest scores. */
  ghost predicate FirstBest(scores: seq<Option<Score>>, n: nat, best: nat)
    requires n <= |scores|
  {
    && best < n && scores[best].Some?
    && (forall j | 0 <= j < n && scores[j].Some? :: !Above(scores[j].value, scores[best].value))
    && (forall j | 0 <= j < best && scores[j].Some? :: Above(scores[best].value, scores[j].value))
  }

  lemma FirstBestStep(scores: seq<Option<Score>>, n: nat, best: nat)
    requires n < |scores| && FirstBest(scores, n, best)
    ensures FirstBest(scores, n + 1, if scores[n].Some? && Above(scores[n].value, scores[best].value) then n else best)
  {
  }

  method BestCandidate(lim: Limits, t: Tally, picked: seq<Candidate>, remaining: seq<Candidate>) returns (best: int)
    ensures -1 <= best < |remaining|
    ensures best < 0 <==> forall j | 0 <= j < |remaining| :: !Eligible(lim, t, remaining[j])
    ensures best >= 0 ==> FirstBest(Scores(lim, t, picked, remaining), |remaining|, best)
  {
    ghost var scores := Scores(lim, t, picked, remaining);
    best := -1;
    for n := 0 to |remaining|
      invariant -1 <= best < n
      invariant best < 0 ==> forall j | 0 <= j < n :: scores[j].None?
      invariant best >= 0 ==> FirstBest(scores, n, best)
    {
      if best >= 0 {
        FirstBestStep(scores, n, best);
      }
      if Eligible(lim, t, remaining[n]) {
        var score := ScoreOf(lim, t, picked, remaining[n]);
        if best < 0 || Above(score, ScoreOf(lim, t, picked, remaining[best])) {
          best := n;
        }
      }
    }
  }

  function OrderKey(c: Candidate): seq<int> { [Ev(c), -Gas(c), -Capital(c)] }

  ghost predicate Descending(s: seq<Candidate>) {
    forall i, j | 0 <= i < j < |s| :: LexLe(OrderKey(s[j]), OrderKey(s[i]))
  }

  /** x does not score above the pick, and on equal scores it has no larger (EV, cheaper gas,
      less capital). */
  predicate NotBetter(lim: Limits, t: Tally, picked: seq<Candidate>, x: Candidate, pick: Candidate) {
    var sx, sp := ScoreOf(lim, t, picked, x), ScoreOf(lim, t, picked, pick);
    !Above(sx, sp) && (sx == sp ==> LexLe(OrderKey(x), OrderKey(pick)))
  }

  /** The pick was eligible after the given picks, and no candidate that was eligible with it
      was better. */
  ghost predicate BestPick(lim: Limits, all: multiset<Candidate>, before: seq<Candidate>, pick: Candidate) {
    && Eligible(lim, TallyOf(before), pick)
    && forall x | x in all - multiset(before) && Eligible(lim, TallyOf(before), x) ::
         NotBetter(lim, TallyOf(before), before, x, pick)
  }

  ghost predicate GreedyRun(lim: Limits, all: multiset<Candidate>, picked: seq<Candidate>) {
    forall k | 0 <= k < |picked| :: BestPick(lim, all, picked[..k], picked[k])
  }

  /** The picks form a greedy run, which stops only at the trade limit or when no remaining
      candidate is eligible. */
  ghost predicate Selected(lim: Limits, all: multiset<Candidate>, picked: seq<Candidate>) {
    && multiset(picked) <= all
    && (lim.maxTrades <= 0 || lim.gasBudget <= 0 ==> picked == [])
    && |picked| <= AtLeastZero(lim.maxTrades)
    && GreedyRun(lim, all, picked)
    && (lim.maxTrades > 0 && lim.gasBudget > 0 ==>
          |picked| == lim.maxTrades
          || forall x | x in all - multiset(picked) :: !Eligible(lim, TallyOf(picked), x))
  }

  lemma TakeFromRemaining(all: multiset<Candidate>, picked: seq<Candidate>, remaining: seq<Candidate>, best: nat)
    requires multiset(picked) + multiset(remaining) == all && best < |remaining|
    ensures multiset(picked + [remaining[best]]) + multiset(Without(remaining, best)) == all
    ensures Descending(remaining) ==> Descending(Without(remaining, best))
  {
    assert remaining[best] in multiset(remaining);
    if Descending(remaining) {
      var rest := Without(remaining, best);
      forall i, j | 0 <= i < j < |rest| ensures LexLe(OrderKey(rest[j]), OrderKey(rest[i])) {
        var i', j' := if i < best then i else i + 1, if j < best then j else j + 1;
        assert rest[i] == remaining[i'] && rest[j] == remaining[j'];
      }
    }
  }

  lemma FirstBestIsBestPick(lim: Limits, all: multiset<Candidate>, picked: seq<Candidate>, remaining: seq<Candidate>,
                            best: nat)
    requires multiset(picked) + multiset(remaining) == all && Descending(remaining)
    requires FirstBest(Scores(lim, TallyOf(picked), picked, remaining), |remaining|, best)
    ensures BestPick(lim, all, picked, remaining[best])
  {
    var t := TallyOf(picked);
    forall x | x in all - multiset(picked) && Eligible(lim, t, x)
      ensures NotBetter(lim, t, picked, x, remaining[best])
    {
      assert x in multiset(remaining);
      var j :| 0 <= j < |remaining| && remaining[j] == x;
      if j == best {
        LexTotal(OrderKey(x), OrderKey(x));
      }
    }
  }

  lemma RunSnoc(lim: Limits, all: multiset<Candidate>, picked: seq<Candidate>, c: Candidate)
    requires GreedyRun(lim, all, picked) && BestPick(lim, all, picked, c)
    ensures GreedyRun(lim, all, picked + [c])
  {
    var next := picked + [c];
    forall k | 0 <= k < |next| ensures BestPick(lim, all, next[..k], next[k]) {
      if k < |picked| {
        assert next[..k] == picked[..k] && next[k] == picked[k];
      } else {
        assert next[..k] == picked && next[k] == c;
      }
    }
  }

  lemma TallySnoc(picked: seq<Candidate>, c: Candidate)
    ensures TallyOf(picked + [c]) == Add(TallyOf(picked), c)
  {
    assert (picked + [c])[..|picked|] == picked;
  }

  lemma OrderedDescending(candidates: seq<Candidate>)
    ensures Descending(SortDescending(candidates, OrderKey))
  {
    SortBySorts(Reversed(candidates), OrderKey);
  }

  /** What the selection establishes about its limits before the loop. */
  ghost predicate LimitsOk(lim: Limits) {
    && lim.gasBudget > 0
    && (lim.capitalLimit.Some? ==> lim.capitalLimit.value >= 0)
    && (forall f | f in lim.familyCapital :: lim.familyCapital[f] >= 0)
    && (forall f | f in lim.familyCaps :: lim.familyCaps[f] >= 0)
  }

  method SelectPortfolio(candidates: seq<Candidate>, gasBudget: int, maxTrades: int,
                         rawFamilyCaps: seq<(string, Amount)>, engineCaps: map<string, int>,
                         covariance: map<string, real>, pathPenalties: map<string, real>, capitalBudget: Option<Amount>,
                         rawFamilyCapital: seq<(string, Amount)>)
    returns (picked: seq<Candidate>, lim: Limits)
    ensures lim.gasBudget == gasBudget && lim.maxTrades == maxTrades && lim.engineCaps == engineCaps
    ensures lim.covariance == covariance && lim.pathPenalties == pathPenalties
    ensures MergedLimits(rawFamilyCaps, lim.familyCaps) && MergedLimits(rawFamilyCapital, lim.familyCapital)
    ensures lim.capitalLimit == match capitalBudget
                                case None => None
                                case Some(a) => Some(AtLeastZero(CoerceInt(a)))
    ensures Selected(lim, multiset(candidates), picked)
  {
    var familyCaps := CanonicalFamilyCapitalLimits(rawFamilyCaps);
    var familyCapital := CanonicalFamilyCapitalLimits(rawFamilyCapital);
    var capitalLimit: Option<int> := match capitalBudget
                                     case None => None
                                     case Some(a) => Some(AtLeastZero(CoerceInt(a)));
    lim := Limits(gasBudget, maxTrades, familyCaps, engineCaps, capitalLimit, familyCapital, covariance, pathPenalties);
    picked := [];
    if maxTrades <= 0 || gasBudget <= 0 {
      return;
    }
    var remaining := SortDescending(candidates, OrderKey);
    OrderedDescending(candidates);
    var tally := NOTHING;
    while remaining != [] && |picked| < maxTrades
      invariant multiset(picked) + multiset(remaining) == multiset(candidates) && Descending(remaining)
      invariant |picked| <= maxTrades
      invariant tally == TallyOf(picked)
      invariant GreedyRun(lim, multiset(candidates), picked)
      decreases |remaining|
    {
      var best := BestCandidate(lim, tally, picked, remaining);
      if best < 0 {
        NothingEligible(lim, multiset(candidates), picked, remaining);
        return;
      }
      FirstBestIsBestPick(lim, multiset(candidates), picked, remaining, best);
      RunSnoc(lim, multiset(candidates), picked, remaining[best]);
      TakeFromRemaining(multiset(candidates), picked, remaining, best);
      TallySnoc(picked, remaining[best]);
      tally := Add(tally, remaining[best]);
      picked := picked + [remaining[best]];
      remaining := Without(remaining, best);
    }
  }

  lemma NothingEligible(lim: Limits, all: multiset<Candidate>, picked: seq<Candidate>, remaining: seq<Candidate>)
    requires multiset(picked) + multiset(remaining) == all
    requires forall j | 0 <= j < |remaining| :: !Eligible(lim, TallyOf(picked), remaining[j])
    ensures forall x | x in all - multiset(picked) :: !Eligible(lim, TallyOf(picked), x)
  {
    forall x | x in all - multiset(picked) ensures !Eligible(lim, TallyOf(picked), x) {
      assert x in multiset(remaining);
    }
  }

  // ------------------------------------------------- all budgets hold at every step

  function InFamily(picked: seq<Candidate>, f: string): seq<Candidate> {
    if picked == [] then []
    else
      var rest, last := InFamily(picked[..|picked|-1], f), picked[|picked|-1];
      if Family(last) == f then rest + [last] else rest
  }

  function OnEngine(picked: seq<Candidate>, e: string): seq<Candidate> {
    if picked == [] then []
    else
      var rest, last := OnEngine(picked[..|picked|-1], e), picked[|picked|-1];
      if last.engineType == e then rest + [last] else rest
  }

  /** The counters mean what they are used for: totals, ... */
  lemma {:induction false} TotalsMean(picked: seq<Candidate>)
    ensures TallyOf(picked).gas == SumOf(picked, Gas) && TallyOf(picked).capital == SumOf(picked, Capital)
  {
    if picked != [] {
      var init, last := picked[..|picked|-1], picked[|picked|-1];
      assert picked == init + [last];
      TotalsMean(init);
      SumOfSnoc(init, last, Gas);
      SumOfSnoc(init, last, Capital);
    }
  }

  /** ... count and capital of a family, ... */
  lemma {:induction false} FamilyMeans(picked: seq<Candidate>, f: string)
    requires f != ""
    ensures Get(TallyOf(picked).familyCounts, f) == |InFamily(picked, f)|
    ensures Get(TallyOf(picked).familyCapital, f) == SumOf(InFamily(picked, f), Capital)
  {
    if picked != [] {
      var init, last := picked[..|picked|-1], picked[|picked|-1];
      FamilyMeans(init, f);
      SumOfSnoc(InFamily(init, f), last, Capital);
    }
  }

  /** ... count of an engine, ... */
  lemma {:induction false} EngineMeans(picked: seq<Candidate>, e: string)
    requires e != ""
    ensures Get(TallyOf(picked).engineCounts, e) == |OnEngine(picked, e)|
  {
    if picked != [] {
      EngineMeans(picked[..|picked|-1], e);
    }
  }

  ghost predicate Conflicts(picked: seq<Candidate>, k: string) {
    exists i :: 0 <= i < |picked| && k in picked[i].conflictKeys
  }

  /** ... and the conflict keys in use. */
  lemma {:induction false} ConflictsMean(picked: seq<Candidate>, k: string)
    ensures k in TallyOf(picked).conflicts <==> Conflicts(picked, k)
  {
    if picked != [] {
      var init, last := picked[..|picked|-1], picked[|picked|-1];
      ConflictsMean(init, k);
      if Conflicts(init, k) {
        var i :| 0 <= i < |init| && k in init[i].conflictKeys;
        assert picked[i] == init[i];
      }
      if i :| 0 <= i < |picked| && k in picked[i].conflictKeys {
        assert i < |init| ==> picked[i] == init[i];
      }
    }
  }

  ghost predicate FamilyWithin(lim: Limits, picked: seq<Candidate>, f: string) {
    && (f in lim.familyCapital ==> SumOf(InFamily(picked, f), Capital) <= lim.familyCapital[f])
    && (f in lim.familyCaps ==> |InFamily(picked, f)| <= lim.familyCaps[f])
  }

  ghost predicate EngineWithin(lim: Limits, picked: seq<Candidate>, e: string) {
    e in lim.engineCaps ==> |OnEngine(picked, e)| <= AtLeastZero(lim.engineCaps[e])
  }

  /** No two picks share a conflict key. */
  ghost predicate DisjointConflicts(picked: seq<Candidate>) {
    forall i, j, k | 0 <= i < j < |picked| && k in picked[i].conflictKeys :: k !in picked[j].conflictKeys
  }

  /** All hard constraints at once. */
  ghost predicate WithinBudgets(lim: Limits, picked: seq<Candidate>) {
    && SumOf(picked, Gas) <= lim.gasBudget
    && (lim.capitalLimit.Some? ==> SumOf(picked, Capital) <= lim.capitalLimit.value)
    && (forall f | f != "" :: FamilyWithin(lim, picked, f))
    && (forall e | e != "" :: EngineWithin(lim, picked, e))
    && (forall c | c in picked :: Ev(c) > 0 && (CapitalIsRequired(lim) ==> Capital(c) > 0))
    && DisjointConflicts(picked)
  }

  ghost predicate Chain(lim: Limits, picked: seq<Candidate>) {
    forall k | 0 <= k < |picked| :: Eligible(lim, TallyOf(picked[..k]), picked[k])
  }

  lemma ChainPrefix(lim: Limits, picked: seq<Candidate>, n: nat)
    requires n <= |picked| && Chain(lim, picked)
    ensures Chain(lim, picked[..n])
  {
    var init := picked[..n];
    forall k | 0 <= k < |init| ensures Eligible(lim, TallyOf(init[..k]), init[k]) {
      assert init[..k] == picked[..k] && init[k] == picked[k];
    }
  }

  lemma TotalsStep(lim: Limits, init: seq<Candidate>, c: Candidate)
    requires Eligible(lim, TallyOf(init), c) && LimitsOk(lim)
    requires lim.capitalLimit.Some? ==> SumOf(init, Capital) <= lim.capitalLimit.value
    ensures SumOf(init + [c], Gas) <= lim.gasBudget
    ensures lim.capitalLimit.Some? ==> SumOf(init + [c], Capital) <= lim.capitalLimit.value
  {
    TotalsMean(init);
    SumOfSnoc(init, c, Gas);
    SumOfSnoc(init, c, Capital);
  }

  lemma FamilyStep(lim: Limits, init: seq<Candidate>, c: Candidate, f: string)
    requires Eligible(lim, TallyOf(init), c) && f != "" && FamilyWithin(lim, init, f)
    ensures FamilyWithin(lim, init + [c], f)
  {
    assert (init + [c])[..|init|] == init;
    FamilyMeans(init, f);
    SumOfSnoc(InFamily(init, f), c, Capital);
  }

  lemma EngineStep(lim: Limits, init: seq<Candidate>, c: Candidate, e: string)
    requires Eligible(lim, TallyOf(init), c) && e != "" && EngineWithin(lim, init, e)
    ensures EngineWithin(lim, init + [c], e)
  {
    assert (init + [c])[..|init|] == init;
    EngineMeans(init, e);
  }

  lemma ConflictStep(lim: Limits, init: seq<Candidate>, c: Candidate)
    requires Eligible(lim, TallyOf(init), c) && DisjointConflicts(init)
    ensures DisjointConflicts(init + [c])
  {
    var all := init + [c];
    forall i, j, k | 0 <= i < j < |all| && k in all[i].conflictKeys ensures k !in all[j].conflictKeys {
      assert all[i] == init[i];
      if j == |init| {
        ConflictsMean(init, k);
      } else {
        assert all[j] == init[j];
      }
    }
  }

  lemma BudgetsStep(lim: Limits, init: seq<Candidate>, c: Candidate)
    requires LimitsOk(lim) && WithinBudgets(lim, init) && Eligible(lim, TallyOf(init), c)
    ensures WithinBudgets(lim, init + [c])
  {
    TotalsStep(lim, init, c);
    forall f | f != "" ensures FamilyWithin(lim, init + [c], f) {
      FamilyStep(lim, init, c, f);
    }
    forall e | e != "" ensures EngineWithin(lim, init + [c], e) {
      EngineStep(lim, init, c, e);
    }
    ConflictStep(lim, init, c);
  }

  lemma LastPickKeepsBudgets(lim: Limits, picked: seq<Candidate>, init: seq<Candidate>, c: Candidate)
    requires LimitsOk(lim) && WithinBudgets(lim, init) && Eligible(lim, TallyOf(init), c)
    requires picked != [] && init == picked[..|picked|-1] && c == picked[|picked|-1]
    ensures WithinBudgets(lim, picked)
  {
    BudgetsStep(lim, init, c);
    InitAndLast(picked);
  }

  /** Every round of the selection keeps all budgets at once: total gas, total capital,
      capital and count of every canonical family, count of every engine, positive capital
      when a capital limit is given, and pairwise disjoint conflict keys. */
  lemma {:induction false} ChainKeepsBudgets(lim: Limits, picked: seq<Candidate>)
    requires LimitsOk(lim) && Chain(lim, picked)
    ensures WithinBudgets(lim, picked)
  {
    if picked != [] {
      var n := |picked| - 1;
      ChainPrefix(lim, picked, n);
      ChainKeepsBudgets(lim, picked[..n]);
      LastPickKeepsBudgets(lim, picked, picked[..n], picked[n]);
    }
  }

  lemma MergedAreNonNegative(raw: seq<(string, Amount)>, limits: map<string, int>, f: string)
    requires MergedLimits(raw, limits) && f in limits
    ensures limits[f] >= 0
  {
    assert SmallestLimit(raw, limits, f);
  }

  /** Main theorem: whatever the candidates, scores and penalties, the portfolio that a call
      returns is within every budget, as is every prefix of it. The premises are what
      SelectPortfolio establishes. */
  lemma SelectedIsWithinBudgets(lim: Limits, rawFamilyCaps: seq<(string, Amount)>,
                                rawFamilyCapital: seq<(string, Amount)>, all: multiset<Candidate>,
                                picked: seq<Candidate>, k: nat)
    requires MergedLimits(rawFamilyCaps, lim.familyCaps) && MergedLimits(rawFamilyCapital, lim.familyCapital)
    requires lim.capitalLimit.Some? ==> lim.capitalLimit.value >= 0
    requires Selected(lim, all, picked) && k <= |picked|
    ensures lim.gasBudget > 0 ==> WithinBudgets(lim, picked[..k])
    ensures lim.gasBudget <= 0 ==> picked == []
  {
    if lim.gasBudget > 0 {
      forall f | f in lim.familyCaps ensures lim.familyCaps[f] >= 0 {
        MergedAreNonNegative(rawFamilyCaps, lim.familyCaps, f);
      }
      forall f | f in lim.familyCapital ensures lim.familyCapital[f] >= 0 {
        MergedAreNonNegative(rawFamilyCapital, lim.familyCapital, f);
      }
      ChainPrefix(lim, picked, k);
      ChainKeepsBudgets(lim, picked[..k]);
    }
  }
}
