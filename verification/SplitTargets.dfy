/** The search for one target amount, stated on the caller's candidates: splits are
    lists of candidates in any order, not positions of the internally sorted pool
    (_new_target_search_state and _search_target_amount). */
module SplitTargets {
  import opened Outcomes
  import opened Ordering
  import opened SplitCosts
  import opened SplitSearch

  ghost predicate IsSplit(cands: seq<Candidate>, target: int, maxRoutes: nat, parts: seq<Candidate>) {
    && multiset(parts) <= multiset(cands)
    && 2 <= |parts| <= maxRoutes
    && SumOf(parts, AmountIn) == target
    && NoClash(parts)
  }

  // ------------------------------------------------------------ the sorted pool

  function PoolKeyOf(c: Candidate): seq<int> {
    [-c.SingleNet(), -c.gross, c.amountIn] + Codes(c.routeId)
  }

  function UpTo(cands: seq<Candidate>, target: int): (r: seq<Candidate>)
    ensures forall c :: multiset(r)[c] == if c.amountIn <= target then multiset(cands)[c] else 0
  {
    if cands == [] then [] else
      assert cands == [cands[0]] + cands[1..];
      (if cands[0].amountIn <= target then [cands[0]] else []) + UpTo(cands[1..], target)
  }

  function AmountPool(cands: seq<Candidate>, target: int): (r: seq<Candidate>)
    ensures forall c :: multiset(r)[c] == if c.amountIn <= target then multiset(cands)[c] else 0
  {
    SortBy(UpTo(cands, target), PoolKeyOf)
  }

  lemma AmountPoolMembers(cands: seq<Candidate>, target: int)
    requires AllAdmissible(cands)
    ensures AllAdmissible(AmountPool(cands, target))
    ensures multiset(AmountPool(cands, target)) <= multiset(cands)
  {
    forall c | c in AmountPool(cands, target) ensures c.Admissible() {
      assert c in multiset(AmountPool(cands, target));
      assert c in multiset(cands);
    }
  }

  /** No candidate above the target can take part in an exact partition. */
  lemma PartIsAffordable(cands: seq<Candidate>, parts: seq<Candidate>, c: Candidate)
    requires AllAdmissible(cands) && multiset(parts) <= multiset(cands) && c in parts
    ensures c.amountIn <= SumOf(parts, AmountIn)
  {
    var i :| 0 <= i < |parts| && parts[i] == c;
    forall x | x in parts ensures AmountIn(x) >= 0 {
      assert x in multiset(parts);
      assert x in multiset(cands);
      assert x in cands && x.Admissible();
    }
    SumOfCovers(parts, AmountIn, i);
  }

  lemma PartsAreInPool(cands: seq<Candidate>, target: int, parts: seq<Candidate>)
    requires AllAdmissible(cands) && multiset(parts) <= multiset(cands)
    requires SumOf(parts, AmountIn) == target
    ensures multiset(parts) <= multiset(AmountPool(cands, target))
  {
    var pool := multiset(AmountPool(cands, target));
    forall c ensures multiset(parts)[c] <= pool[c] {
      if c in multiset(parts) {
        PartIsAffordable(cands, parts, c);
      }
    }
  }

  // ---------------------------------------- from any order to increasing positions

  function Positions(pool: seq<Candidate>, from: nat, m: multiset<Candidate>): seq<nat>
    requires from <= |pool|
    decreases |pool| - from
  {
    if from == |pool| then []
    else if pool[from] in m then [from] + Positions(pool, from + 1, m - multiset{pool[from]})
    else Positions(pool, from + 1, m)
  }

  lemma {:induction false} PositionsIncrease(pool: seq<Candidate>, from: nat, m: multiset<Candidate>)
    requires from <= |pool|
    ensures InRange(pool, Positions(pool, from, m)) && Increasing(Positions(pool, from, m))
    ensures forall k | 0 <= k < |Positions(pool, from, m)| :: Positions(pool, from, m)[k] >= from
    decreases |pool| - from
  {
    if from < |pool| {
      PositionsIncrease(pool, from + 1, if pool[from] in m then m - multiset{pool[from]} else m);
    }
  }

  lemma PickCons(pool: seq<Candidate>, idx: nat, chosen: seq<nat>)
    requires InRange(pool, chosen) && idx < |pool|
    ensures InRange(pool, [idx] + chosen)
    ensures Pick(pool, [idx] + chosen) == [pool[idx]] + Pick(pool, chosen)
  {
  }

  lemma RemoveHead(s: seq<Candidate>, m: multiset<Candidate>)
    requires s != [] && m <= multiset(s)
    ensures s[0] in m ==> m - multiset{s[0]} <= multiset(s[1..])
    ensures s[0] !in m ==> m <= multiset(s[1..])
  {
    assert s == [s[0]] + s[1..];
  }

  lemma {:induction false} PositionsCover(pool: seq<Candidate>, from: nat, m: multiset<Candidate>)
    requires from <= |pool| && m <= multiset(pool[from..])
    ensures InRange(pool, Positions(pool, from, m))
    ensures multiset(Pick(pool, Positions(pool, from, m))) == m
    decreases |pool| - from
  {
    if from == |pool| {
      assert pool[from..] == [];
      assert Pick(pool, []) == [];
    } else {
      assert pool[from..][1..] == pool[from+1..];
      RemoveHead(pool[from..], m);
      if pool[from] in m {
        var rest := m - multiset{pool[from]};
        PositionsCover(pool, from + 1, rest);
        PickCons(pool, from, Positions(pool, from + 1, rest));
      } else {
        PositionsCover(pool, from + 1, m);
      }
    }
  }

  lemma RepeatedElement(s: seq<Candidate>, i: nat, j: nat)
    requires i < j < |s| && s[i] == s[j]
    ensures multiset(s)[s[i]] >= 2
  {
    assert s == (s[..i] + [s[i]]) + (s[i+1..j] + ([s[j]] + s[j+1..]));
    assert multiset(s) == multiset(s[..i] + [s[i]]) + multiset(s[i+1..j] + ([s[j]] + s[j+1..]));
  }

  lemma {:induction false} NoClashIsSimple(s: seq<Candidate>, c: Candidate)
    requires NoClash(s)
    ensures multiset(s)[c] <= 1
  {
    if s != [] {
      assert s == [s[0]] + s[1..];
      NoClashIsSimple(s[1..], c);
      if s[0] == c {
        forall j | 0 <= j < |s[1..]| ensures s[1..][j] != c {
          assert !Clash(s[0], s[j+1]);
        }
        assert c !in multiset(s[1..]);
      }
    }
  }

  /** Whether parts clash does not depend on their order. */
  lemma NoClashOfPermutation(a: seq<Candidate>, b: seq<Candidate>)
    requires multiset(a) == multiset(b) && NoClash(a)
    ensures NoClash(b)
  {
    forall i, j | 0 <= i < j < |b| ensures !Clash(b[i], b[j]) {
      if b[i] == b[j] {
        RepeatedElement(b, i, j);
        NoClashIsSimple(a, b[i]);
      } else {
        assert b[i] in multiset(b) && b[j] in multiset(b);
        assert b[i] in a && b[j] in a;
        var k :| 0 <= k < |a| && a[k] == b[i];
        var l :| 0 <= l < |a| && a[l] == b[j];
        assert !Clash(a[if k < l then k else l], a[if k < l then l else k]);
        assert a[k].identity.poolKeys * a[l].identity.poolKeys == a[l].identity.poolKeys * a[k].identity.poolKeys;
      }
    }
  }

  /** Every split of the caller's candidates, in whatever order it is written, is a set
      of positions of the pool with the same economics. */
  lemma SplitHasPositions(cands: seq<Candidate>, target: int, maxRoutes: nat, parts: seq<Candidate>)
    returns (chosen: seq<nat>)
    requires AllAdmissible(cands) && IsSplit(cands, target, maxRoutes, parts)
    ensures AllAdmissible(parts)
    ensures ValidSplit(AmountPool(cands, target), target, maxRoutes, chosen)
    ensures NetOf(AmountPool(cands, target), chosen) == Net(parts)
  {
    var pool := AmountPool(cands, target);
    AmountPoolMembers(cands, target);
    PartsAreInPool(cands, target, parts);
    assert pool[0..] == pool;
    chosen := Positions(pool, 0, multiset(parts));
    PositionsIncrease(pool, 0, multiset(parts));
    PositionsCover(pool, 0, multiset(parts));
    var picked := Pick(pool, chosen);
    forall c | c in picked ensures c.Admissible() {
      assert c in pool;
    }
    SameElements(parts, picked);
    TotalsOfPermutation(picked, parts);
    NoClashOfPermutation(parts, picked);
    SumOfPermutation(parts, picked, AmountIn);
  }

  lemma FirstOfTail<T>(s: seq<T>, from: nat, i: nat)
    requires from <= i < |s|
    ensures multiset(s[from..]) == multiset(s[from..i]) + multiset{s[i]} + multiset(s[i+1..])
  {
    assert s[from..] == s[from..i] + [s[i]] + s[i+1..];
  }

  lemma PickFirst(pool: seq<Candidate>, chosen: seq<nat>)
    requires InRange(pool, chosen) && chosen != []
    ensures multiset(Pick(pool, chosen)) == multiset{pool[chosen[0]]} + multiset(Pick(pool, chosen[1..]))
  {
    assert Pick(pool, chosen) == [pool[chosen[0]]] + Pick(pool, chosen[1..]);
  }

  lemma {:induction false} PickWithin(pool: seq<Candidate>, chosen: seq<nat>, from: nat)
    requires InRange(pool, chosen) && Increasing(chosen) && from <= |pool|
    requires forall k | 0 <= k < |chosen| :: chosen[k] >= from
    ensures multiset(Pick(pool, chosen)) <= multiset(pool[from..])
    decreases |chosen|
  {
    if chosen == [] {
      assert Pick(pool, chosen) == [];
    } else {
      var idx := chosen[0];
      PickWithin(pool, chosen[1..], idx + 1);
      PickFirst(pool, chosen);
      FirstOfTail(pool, from, idx);
    }
  }

  /** Conversely, positions of the pool name a split of the caller's candidates. */
  lemma PositionsAreSplit(cands: seq<Candidate>, target: int, maxRoutes: nat, chosen: seq<nat>)
    requires AllAdmissible(cands) && ValidSplit(AmountPool(cands, target), target, maxRoutes, chosen)
    ensures IsSplit(cands, target, maxRoutes, Pick(AmountPool(cands, target), chosen))
    ensures AllAdmissible(Pick(AmountPool(cands, target), chosen))
    ensures NetOf(AmountPool(cands, target), chosen) == Net(Pick(AmountPool(cands, target), chosen))
  {
    var pool := AmountPool(cands, target);
    AmountPoolMembers(cands, target);
    PickWithin(pool, chosen, 0);
    assert pool[0..] == pool;
    forall c | c in Pick(pool, chosen) ensures c.Admissible() {
      assert c in pool;
    }
  }

  // -------------------------------------------------------------- the program

  datatype Plan = Plan(parts: seq<Candidate>, totals: CostTotals, improvement: Option<int>)

  function BestSingleNet(cands: seq<Candidate>, target: int): (r: Option<int>)
    ensures r.None? <==> forall c | c in cands :: c.amountIn != target
    ensures r.Some? ==> exists c :: c in cands && c.amountIn == target && c.SingleNet() == r.value
    ensures r.Some? ==> forall c | c in cands && c.amountIn == target :: c.SingleNet() <= r.value
  {
    if cands == [] then None else
      assert forall c :: c in cands <==> c == cands[0] || c in cands[1..];
      var rest := BestSingleNet(cands[1..], target);
      if cands[0].amountIn != target then rest
      else if rest.None? || cands[0].SingleNet() >= rest.value then Some(cands[0].SingleNet())
      else rest
  }

  ghost predicate IsBestSplit(cands: seq<Candidate>, target: int, maxRoutes: nat, best: Option<seq<Candidate>>) {
    match best
    case None => forall parts :: !IsSplit(cands, target, maxRoutes, parts)
    case Some(b) =>
      && IsSplit(cands, target, maxRoutes, b) && AllAdmissible(b)
      && forall parts | IsSplit(cands, target, maxRoutes, parts) :: AllAdmissible(parts) && Net(parts) <= Net(b)
  }

  /** An optimal set of pool positions is an optimal split of the caller's candidates. */
  lemma BestPositionsAreBestSplit(cands: seq<Candidate>, target: int, maxRoutes: nat, chosen: seq<nat>)
    requires AllAdmissible(cands) && ValidSplit(AmountPool(cands, target), target, maxRoutes, chosen)
    requires forall c | ValidSplit(AmountPool(cands, target), target, maxRoutes, c) ::
               NetOf(AmountPool(cands, target), c) <= NetOf(AmountPool(cands, target), chosen)
    ensures IsBestSplit(cands, target, maxRoutes, Some(Pick(AmountPool(cands, target), chosen)))
  {
    PositionsAreSplit(cands, target, maxRoutes, chosen);
    forall parts | IsSplit(cands, target, maxRoutes, parts)
      ensures AllAdmissible(parts) && Net(parts) <= Net(Pick(AmountPool(cands, target), chosen))
    {
      var c := SplitHasPositions(cands, target, maxRoutes, parts);
    }
  }

  lemma NoPositionsMeansNoSplit(cands: seq<Candidate>, target: int, maxRoutes: nat)
    requires AllAdmissible(cands)
    requires forall c :: !ValidSplit(AmountPool(cands, target), target, maxRoutes, c)
    ensures IsBestSplit(cands, target, maxRoutes, None)
  {
    forall parts ensures !IsSplit(cands, target, maxRoutes, parts) {
      if IsSplit(cands, target, maxRoutes, parts) {
        var c := SplitHasPositions(cands, target, maxRoutes, parts);
        assert false;
      }
    }
  }

  function Improvement(net: int, bestSingle: Option<int>): Option<int> {
    match bestSingle case None => None case Some(b) => Some(net - b)
  }

  /** Whatever the budget, a returned plan is a real split with its exact totals. The search is
      flagged as truncated exactly when its tree has at least `maxStates` nodes. With at most
      `maxStates` nodes the plan is optimal over all splits of the candidates, a missing plan
      means that there is none, and the count is the number of sets of pool positions that
      are splits. */
  method SearchTargetAmount(cands: seq<Candidate>, target: int, maxRoutes: nat, maxStates: nat)
    returns (plan: Option<Plan>, evaluated: nat, truncated: bool, ghost splits: set<seq<nat>>)
    requires AllAdmissible(cands)
    ensures plan.Some? ==>
      && IsSplit(cands, target, maxRoutes, plan.value.parts)
      && AllAdmissible(plan.value.parts) && plan.value.totals == Totals(plan.value.parts)
      && plan.value.improvement == Improvement(plan.value.totals.net, BestSingleNet(cands, target))
    ensures truncated <==> TreeSize(AmountPool(cands, target), target, maxRoutes) >= maxStates
    ensures forall c :: c in splits <==> ValidSplit(AmountPool(cands, target), target, maxRoutes, c)
    ensures TreeSize(AmountPool(cands, target), target, maxRoutes) <= maxStates ==>
      && IsBestSplit(cands, target, maxRoutes, if plan.None? then None else Some(plan.value.parts))
      && evaluated == |splits|
  {
    var pool := AmountPool(cands, target);
    AmountPoolMembers(cands, target);
    var bestSingle := BestSingleNet(cands, target);
    var best, count, seen, cut, all := SearchPool(pool, target, maxRoutes, maxStates);
    plan, evaluated, truncated, splits := None, count, cut, all;
    ghost var exhausted := TreeSize(pool, target, maxRoutes) <= maxStates;
    if best.Some? {
      PositionsAreSplit(cands, target, maxRoutes, best.value);
      var parts := Pick(pool, best.value);
      var totals := Totals(parts);
      plan := Some(Plan(parts, totals, Improvement(totals.net, bestSingle)));
      if exhausted {
        BestPositionsAreBestSplit(cands, target, maxRoutes, best.value);
      }
    } else if exhausted {
      NoPositionsMeansNoSplit(cands, target, maxRoutes);
    }
  }
}
