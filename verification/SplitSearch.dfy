/** The bounded depth-first split search (_walk_split_search, _extend_split_search,
    _record_completed_split and _search_target_amount of gas_adjusted_split_router.py).

    A split is named by the increasing list of the positions it takes in the ordered
    candidate pool, so that every set of positions is named exactly once. */
module SplitSearch {
  import opened Outcomes
  import opened Ordering
  import opened SplitCosts

  // ------------------------------------------------------------ what a split is

  ghost predicate InRange(pool: seq<Candidate>, chosen: seq<nat>) {
    forall k | 0 <= k < |chosen| :: chosen[k] < |pool|
  }

  function Pick(pool: seq<Candidate>, chosen: seq<nat>): (parts: seq<Candidate>)
    requires InRange(pool, chosen)
    ensures |parts| == |chosen|
    ensures forall k | 0 <= k < |chosen| :: parts[k] == pool[chosen[k]]
  {
    seq(|chosen|, k requires 0 <= k < |chosen| => pool[chosen[k]])
  }

  predicate Clash(a: Candidate, b: Candidate) {
    a.routeId == b.routeId || a.identity.poolKeys * b.identity.poolKeys != {}
  }

  ghost predicate NoClash(parts: seq<Candidate>) {
    forall i, j | 0 <= i < j < |parts| :: !Clash(parts[i], parts[j])
  }

  ghost predicate Increasing(chosen: seq<nat>) {
    forall i, j | 0 <= i < j < |chosen| :: chosen[i] < chosen[j]
  }

  /** An exact partition of the target into 2..maxRoutes candidates with distinct
      routes and pairwise disjoint pools. */
  ghost predicate ValidSplit(pool: seq<Candidate>, target: int, maxRoutes: nat, chosen: seq<nat>) {
    && InRange(pool, chosen) && Increasing(chosen)
    && 2 <= |chosen| <= maxRoutes
    && SumOf(Pick(pool, chosen), AmountIn) == target
    && NoClash(Pick(pool, chosen))
  }

  ghost function NetOf(pool: seq<Candidate>, chosen: seq<nat>): int {
    if chosen != [] && InRange(pool, chosen) && AllAdmissible(Pick(pool, chosen))
    then Net(Pick(pool, chosen)) else 0
  }

  // ------------------------------------------------------- the full search tree

  datatype Partial = Partial(start: nat, remaining: int, chosen: seq<nat>, routeIds: set<string>,
                             poolKeys: set<PoolKey>)

  function Root(target: int): Partial { Partial(0, target, [], {}, {}) }

  predicate Fits(pool: seq<Candidate>, p: Partial, idx: nat)
    requires idx < |pool|
  {
    && pool[idx].amountIn <= p.remaining
    && pool[idx].routeId !in p.routeIds
    && p.poolKeys * pool[idx].identity.poolKeys == {}
  }

  function Child(pool: seq<Candidate>, p: Partial, idx: nat): Partial
    requires idx < |pool|
  {
    Partial(idx + 1, p.remaining - pool[idx].amountIn, p.chosen + [idx], p.routeIds + {pool[idx].routeId},
            p.poolKeys + pool[idx].identity.poolKeys)
  }

  predicate Leaf(p: Partial, maxRoutes: nat) { p.remaining == 0 || |p.chosen| >= maxRoutes }

  predicate Complete(p: Partial) { p.remaining == 0 && |p.chosen| >= 2 }

  /** Preorder list of the search nodes from p downwards, with no budget. */
  ghost function Nodes(pool: seq<Candidate>, maxRoutes: nat, p: Partial): (ns: seq<Partial>)
    requires p.start <= |pool|
    ensures |ns| >= 1 && ns[0] == p
    decreases |pool| - p.start, 1
  {
    [p] + if Leaf(p, maxRoutes) then [] else Below(pool, maxRoutes, p, p.start)
  }

  ghost function Below(pool: seq<Candidate>, maxRoutes: nat, p: Partial, idx: nat): seq<Partial>
    requires idx <= |pool|
    decreases |pool| - idx, 0
  {
    if idx == |pool| then []
    else (if Fits(pool, p, idx) then Nodes(pool, maxRoutes, Child(pool, p, idx)) else [])
         + Below(pool, maxRoutes, p, idx + 1)
  }

  /** A partial split knows exactly what it has used. */
  ghost predicate Consistent(pool: seq<Candidate>, target: int, maxRoutes: nat, p: Partial) {
    && p.start <= |pool|
    && |p.chosen| <= maxRoutes
    && (forall k | 0 <= k < |p.chosen| :: p.chosen[k] < p.start)
    && Increasing(p.chosen)
    && InRange(pool, p.chosen)
    && p.remaining == target - SumOf(Pick(pool, p.chosen), AmountIn)
    && Uses(pool, p)
    && NoClash(Pick(pool, p.chosen))
  }

  ghost predicate Uses(pool: seq<Candidate>, p: Partial)
    requires InRange(pool, p.chosen)
  {
    && (forall id :: id in p.routeIds <==> exists k :: 0 <= k < |p.chosen| && pool[p.chosen[k]].routeId == id)
    && (forall key :: key in p.poolKeys
          <==> exists k :: 0 <= k < |p.chosen| && key in pool[p.chosen[k]].identity.poolKeys)
  }

  lemma PickSnoc(pool: seq<Candidate>, chosen: seq<nat>, idx: nat)
    requires InRange(pool, chosen) && idx < |pool|
    ensures InRange(pool, chosen + [idx])
    ensures Pick(pool, chosen + [idx]) == Pick(pool, chosen) + [pool[idx]]
  {
  }

  /** The used sets decide exactly whether a candidate clashes with the chosen ones. */
  lemma UsedSetsDecideClash(pool: seq<Candidate>, p: Partial, idx: nat)
    requires InRange(pool, p.chosen) && Uses(pool, p) && idx < |pool|
    ensures (pool[idx].routeId !in p.routeIds && p.poolKeys * pool[idx].identity.poolKeys == {})
       <==> forall k | 0 <= k < |p.chosen| :: !Clash(pool[p.chosen[k]], pool[idx])
  {
    var keys := pool[idx].identity.poolKeys;
    if p.poolKeys * keys == {} {
      forall k | 0 <= k < |p.chosen| ensures pool[p.chosen[k]].identity.poolKeys * keys == {} {
        forall key | key in pool[p.chosen[k]].identity.poolKeys ensures key !in keys {
          assert key in p.poolKeys && key !in p.poolKeys * keys;
        }
      }
    }
    if forall k | 0 <= k < |p.chosen| :: !Clash(pool[p.chosen[k]], pool[idx]) {
      forall key | key in p.poolKeys ensures key !in keys {
        var k :| 0 <= k < |p.chosen| && key in pool[p.chosen[k]].identity.poolKeys;
        assert !Clash(pool[p.chosen[k]], pool[idx]);
        assert key !in pool[p.chosen[k]].identity.poolKeys * keys;
      }
    }
  }

  lemma UsesChild(pool: seq<Candidate>, p: Partial, idx: nat)
    requires InRange(pool, p.chosen) && Uses(pool, p) && idx < |pool|
    ensures InRange(pool, p.chosen + [idx]) && Uses(pool, Child(pool, p, idx))
  {
    var q := Child(pool, p, idx);
    var n := |p.chosen|;
    assert q.chosen[n] == idx && forall k | 0 <= k < n :: q.chosen[k] == p.chosen[k];
    forall id ensures id in q.routeIds <==> exists k :: 0 <= k < |q.chosen| && pool[q.chosen[k]].routeId == id {
      if id in p.routeIds {
        var k :| 0 <= k < n && pool[p.chosen[k]].routeId == id;
        assert pool[q.chosen[k]].routeId == id;
      } else if id == pool[idx].routeId {
        assert pool[q.chosen[n]].routeId == id;
      }
    }
    forall key ensures key in q.poolKeys
                  <==> exists k :: 0 <= k < |q.chosen| && key in pool[q.chosen[k]].identity.poolKeys {
      if key in p.poolKeys {
        var k :| 0 <= k < n && key in pool[p.chosen[k]].identity.poolKeys;
        assert key in pool[q.chosen[k]].identity.poolKeys;
      } else if key in pool[idx].identity.poolKeys {
        assert key in pool[q.chosen[n]].identity.poolKeys;
      }
    }
  }

  lemma ChildConsistent(pool: seq<Candidate>, target: int, maxRoutes: nat, p: Partial, idx: nat)
    requires Consistent(pool, target, maxRoutes, p) && |p.chosen| < maxRoutes
    requires p.start <= idx < |pool| && Fits(pool, p, idx)
    ensures Consistent(pool, target, maxRoutes, Child(pool, p, idx))
  {
    PickSnoc(pool, p.chosen, idx);
    SumOfSnoc(Pick(pool, p.chosen), pool[idx], AmountIn);
    UsedSetsDecideClash(pool, p, idx);
    UsesChild(pool, p, idx);
  }

  // --------------------------------- the tree enumerates every split exactly once

  /** What the descendants of a node have in common. */
  ghost predicate Descends(pool: seq<Candidate>, target: int, maxRoutes: nat, chosen: seq<nat>, q: Partial) {
    Consistent(pool, target, maxRoutes, q) && chosen <= q.chosen
  }

  lemma {:induction false} NodesSound(pool: seq<Candidate>, target: int, maxRoutes: nat, p: Partial)
    requires Consistent(pool, target, maxRoutes, p)
    ensures forall q | q in Nodes(pool, maxRoutes, p) :: Descends(pool, target, maxRoutes, p.chosen, q)
    decreases |pool| - p.start, 1
  {
    if !Leaf(p, maxRoutes) {
      BelowSound(pool, target, maxRoutes, p, p.start);
      assert forall q | q in Below(pool, maxRoutes, p, p.start) :: Descends(pool, target, maxRoutes, p.chosen, q);
    }
  }

  /** What lies below a child lies below its parent, along the child's own position. */
  lemma ChildDescends(pool: seq<Candidate>, target: int, maxRoutes: nat, p: Partial, idx: nat, q: Partial)
    requires idx < |pool| && Descends(pool, target, maxRoutes, Child(pool, p, idx).chosen, q)
    ensures Descends(pool, target, maxRoutes, p.chosen, q)
    ensures |q.chosen| > |p.chosen| && q.chosen[|p.chosen|] == idx
  {
    var child := Child(pool, p, idx);
    assert child.chosen == p.chosen + [idx] && child.chosen <= q.chosen;
    assert q.chosen[|p.chosen|] == child.chosen[|p.chosen|];
  }

  ghost predicate GoesThrough(p: Partial, q: Partial, idx: nat) {
    |q.chosen| > |p.chosen| && q.chosen[|p.chosen|] >= idx
  }

  lemma {:induction false} BelowSound(pool: seq<Candidate>, target: int, maxRoutes: nat, p: Partial, idx: nat)
    requires Consistent(pool, target, maxRoutes, p) && |p.chosen| < maxRoutes
    requires p.start <= idx <= |pool|
    ensures forall q | q in Below(pool, maxRoutes, p, idx) ::
              Descends(pool, target, maxRoutes, p.chosen, q) && GoesThrough(p, q, idx)
    decreases |pool| - idx, 0
  {
    if idx < |pool| {
      BelowSound(pool, target, maxRoutes, p, idx + 1);
      if Fits(pool, p, idx) {
        var child := Child(pool, p, idx);
        ChildConsistent(pool, target, maxRoutes, p, idx);
        NodesSound(pool, target, maxRoutes, child);
        forall q | q in Nodes(pool, maxRoutes, child)
          ensures Descends(pool, target, maxRoutes, p.chosen, q) && GoesThrough(p, q, idx)
        {
          ChildDescends(pool, target, maxRoutes, p, idx, q);
        }
      }
    }
  }

  ghost predicate DifferentChoices(ns: seq<Partial>) {
    forall i, j | 0 <= i < j < |ns| :: ns[i].chosen != ns[j].chosen
  }

  lemma {:induction false} NodesDiffer(pool: seq<Candidate>, target: int, maxRoutes: nat, p: Partial)
    requires Consistent(pool, target, maxRoutes, p)
    ensures DifferentChoices(Nodes(pool, maxRoutes, p))
    decreases |pool| - p.start, 1
  {
    if !Leaf(p, maxRoutes) {
      var below := Below(pool, maxRoutes, p, p.start);
      BelowDiffers(pool, target, maxRoutes, p, p.start);
      BelowSound(pool, target, maxRoutes, p, p.start);
      forall j | 0 <= j < |below| ensures below[j].chosen != p.chosen {
        assert below[j] in below;
      }
    }
  }

  lemma {:induction false} BelowDiffers(pool: seq<Candidate>, target: int, maxRoutes: nat, p: Partial, idx: nat)
    requires Consistent(pool, target, maxRoutes, p) && |p.chosen| < maxRoutes
    requires p.start <= idx <= |pool|
    ensures DifferentChoices(Below(pool, maxRoutes, p, idx))
    decreases |pool| - idx, 0
  {
    if idx < |pool| {
      BelowDiffers(pool, target, maxRoutes, p, idx + 1);
      if Fits(pool, p, idx) {
        HereIsApart(pool, target, maxRoutes, p, idx);
        NodesDiffer(pool, target, maxRoutes, Child(pool, p, idx));
        HereThenRest(pool, target, maxRoutes, p, idx);
      } else {
        BelowUnfolds(pool, maxRoutes, p, idx);
      }
    }
  }

  lemma HereThenRest(pool: seq<Candidate>, target: int, maxRoutes: nat, p: Partial, idx: nat)
    requires Consistent(pool, target, maxRoutes, p) && |p.chosen| < maxRoutes
    requires p.start <= idx < |pool| && Fits(pool, p, idx)
    requires DifferentChoices(Nodes(pool, maxRoutes, Child(pool, p, idx)))
        && DifferentChoices(Below(pool, maxRoutes, p, idx + 1))
    ensures DifferentChoices(Below(pool, maxRoutes, p, idx))
  {
    HereIsApart(pool, target, maxRoutes, p, idx);
    RestIsApart(pool, target, maxRoutes, p, idx);
    BelowUnfolds(pool, maxRoutes, p, idx);
    ApartConcat(Nodes(pool, maxRoutes, Child(pool, p, idx)), Below(pool, maxRoutes, p, idx + 1),
                Below(pool, maxRoutes, p, idx), |p.chosen|, idx);
  }

  lemma BelowUnfolds(pool: seq<Candidate>, maxRoutes: nat, p: Partial, idx: nat)
    requires idx < |pool|
    ensures Fits(pool, p, idx) ==>
              Below(pool, maxRoutes, p, idx)
                == Nodes(pool, maxRoutes, Child(pool, p, idx)) + Below(pool, maxRoutes, p, idx + 1)
    ensures !Fits(pool, p, idx) ==> Below(pool, maxRoutes, p, idx) == Below(pool, maxRoutes, p, idx + 1)
  {
  }

  /** The nodes below child idx choose idx next, ... */
  lemma HereIsApart(pool: seq<Candidate>, target: int, maxRoutes: nat, p: Partial, idx: nat)
    requires Consistent(pool, target, maxRoutes, p) && |p.chosen| < maxRoutes
    requires p.start <= idx < |pool| && Fits(pool, p, idx)
    ensures Consistent(pool, target, maxRoutes, Child(pool, p, idx))
    ensures forall q | q in Nodes(pool, maxRoutes, Child(pool, p, idx)) ::
              |q.chosen| > |p.chosen| && q.chosen[|p.chosen|] == idx
  {
    var child := Child(pool, p, idx);
    ChildConsistent(pool, target, maxRoutes, p, idx);
    NodesSound(pool, target, maxRoutes, child);
    forall q | q in Nodes(pool, maxRoutes, child) ensures |q.chosen| > |p.chosen| && q.chosen[|p.chosen|] == idx {
      assert q.chosen[|p.chosen|] == child.chosen[|p.chosen|];
    }
  }

  /** ... and those below later children a later position. */
  lemma RestIsApart(pool: seq<Candidate>, target: int, maxRoutes: nat, p: Partial, idx: nat)
    requires Consistent(pool, target, maxRoutes, p) && |p.chosen| < maxRoutes && p.start <= idx < |pool|
    ensures forall q | q in Below(pool, maxRoutes, p, idx + 1) :: |q.chosen| > |p.chosen| && q.chosen[|p.chosen|] > idx
  {
    BelowSound(pool, target, maxRoutes, p, idx + 1);
  }

  lemma ApartConcat(a: seq<Partial>, b: seq<Partial>, all: seq<Partial>, n: nat, idx: nat)
    requires DifferentChoices(a) && DifferentChoices(b) && all == a + b
    requires forall q | q in a :: |q.chosen| > n && q.chosen[n] == idx
    requires forall q | q in b :: |q.chosen| > n && q.chosen[n] > idx
    ensures DifferentChoices(all)
  {
    forall i, j | 0 <= i < |a| && 0 <= j < |b| ensures a[i].chosen != b[j].chosen {
      assert a[i] in a && b[j] in b;
    }
  }

  /** The rest of a valid split beyond a node in its path. */
  ghost predicate OnPath(p: Partial, chosen: seq<nat>) {
    p.chosen <= chosen && forall k | |p.chosen| <= k < |chosen| :: p.start <= chosen[k]
  }

  lemma PickPrefix(pool: seq<Candidate>, a: seq<nat>, chosen: seq<nat>)
    requires InRange(pool, chosen) && a <= chosen
    ensures InRange(pool, a)
    ensures Pick(pool, chosen) == Pick(pool, a) + Pick(pool, chosen)[|a|..]
    ensures SumOf(Pick(pool, chosen), AmountIn)
         == SumOf(Pick(pool, a), AmountIn) + SumOf(Pick(pool, chosen)[|a|..], AmountIn)
  {
    var all := Pick(pool, chosen);
    assert forall k | 0 <= k < |a| :: a[k] == chosen[k];
    assert Pick(pool, a) == all[..|a|];
    assert all == all[..|a|] + all[|a|..];
    SumOfAppend(all[..|a|], all[|a|..], AmountIn);
  }

  /** Because every amount is positive, a proper prefix of an exact partition leaves
      something to fill. This is what justifies stopping at remaining 0. */
  lemma NextPartIsAffordable(pool: seq<Candidate>, target: int, a: seq<nat>, chosen: seq<nat>)
    requires AllAdmissible(pool) && InRange(pool, chosen) && a < chosen
    requires SumOf(Pick(pool, chosen), AmountIn) == target
    ensures InRange(pool, a)
    ensures target - SumOf(Pick(pool, a), AmountIn) >= pool[chosen[|a|]].amountIn > 0
  {
    PickPrefix(pool, a, chosen);
    var rest := Pick(pool, chosen)[|a|..];
    forall x | x in rest ensures AmountIn(x) > 0 {
      var k :| 0 <= k < |rest| && rest[k] == x;
      assert x == pool[chosen[|a| + k]] && x in pool;
    }
    SumOfCovers(rest, AmountIn, 0);
    assert rest[0] == pool[chosen[|a|]];
  }

  lemma NextPartFits(pool: seq<Candidate>, target: int, maxRoutes: nat, p: Partial, chosen: seq<nat>)
    requires AllAdmissible(pool) && Consistent(pool, target, maxRoutes, p)
    requires ValidSplit(pool, target, maxRoutes, chosen)
    requires OnPath(p, chosen) && |p.chosen| < |chosen|
    ensures !Leaf(p, maxRoutes)
    ensures p.start <= chosen[|p.chosen|] < |pool| && Fits(pool, p, chosen[|p.chosen|])
    ensures OnPath(Child(pool, p, chosen[|p.chosen|]), chosen)
  {
    var n := |p.chosen|;
    NextPartIsAffordable(pool, target, p.chosen, chosen);
    NoClashWithPrefix(pool, p.chosen, chosen);
    UsedSetsDecideClash(pool, p, chosen[n]);
    assert forall k | n < k < |chosen| :: chosen[n] < chosen[k];
  }

  lemma NoClashWithPrefix(pool: seq<Candidate>, a: seq<nat>, chosen: seq<nat>)
    requires InRange(pool, chosen) && a < chosen && NoClash(Pick(pool, chosen))
    ensures InRange(pool, a)
    ensures forall k | 0 <= k < |a| :: !Clash(pool[a[k]], pool[chosen[|a|]])
  {
    var all := Pick(pool, chosen);
    forall k | 0 <= k < |a| ensures a[k] < |pool| && !Clash(pool[a[k]], pool[chosen[|a|]]) {
      assert a[k] == chosen[k];
      assert !Clash(all[k], all[|a|]);
    }
  }

  lemma {:induction false} NodesComplete(pool: seq<Candidate>, target: int, maxRoutes: nat, p: Partial,
                                         chosen: seq<nat>)
    requires AllAdmissible(pool) && Consistent(pool, target, maxRoutes, p)
    requires ValidSplit(pool, target, maxRoutes, chosen) && OnPath(p, chosen)
    ensures exists q :: q in Nodes(pool, maxRoutes, p) && q.chosen == chosen
    decreases |pool| - p.start
  {
    var ns := Nodes(pool, maxRoutes, p);
    if |p.chosen| == |chosen| {
      assert p in ns && p.chosen == chosen;
    } else {
      NextPartFits(pool, target, maxRoutes, p, chosen);
      var idx := chosen[|p.chosen|];
      var child := Child(pool, p, idx);
      ChildConsistent(pool, target, maxRoutes, p, idx);
      NodesComplete(pool, target, maxRoutes, child, chosen);
      var q :| q in Nodes(pool, maxRoutes, child) && q.chosen == chosen;
      BelowContains(pool, maxRoutes, p, p.start, idx, q);
      assert q in ns;
    }
  }

  lemma {:induction false} BelowContains(pool: seq<Candidate>, maxRoutes: nat, p: Partial, from: nat, idx: nat,
                                         q: Partial)
    requires from <= idx < |pool| && Fits(pool, p, idx)
    requires q in Nodes(pool, maxRoutes, Child(pool, p, idx))
    ensures q in Below(pool, maxRoutes, p, from)
    decreases idx - from
  {
    if from < idx {
      BelowContains(pool, maxRoutes, p, from + 1, idx, q);
    }
  }

  /** The choices of the completed nodes, in search order. */
  ghost function Completed(ns: seq<Partial>): seq<seq<nat>> {
    if ns == [] then []
    else (if Complete(ns[0]) then [ns[0].chosen] else []) + Completed(ns[1..])
  }

  lemma {:induction false} CompletedMembers(ns: seq<Partial>, chosen: seq<nat>)
    ensures chosen in Completed(ns) <==> exists i :: 0 <= i < |ns| && Complete(ns[i]) && ns[i].chosen == chosen
  {
    if ns != [] {
      CompletedMembers(ns[1..], chosen);
      if chosen in Completed(ns[1..]) {
        var i :| 0 <= i < |ns[1..]| && Complete(ns[1..][i]) && ns[1..][i].chosen == chosen;
        assert ns[i+1] == ns[1..][i];
      }
      if i :| 0 <= i < |ns| && Complete(ns[i]) && ns[i].chosen == chosen {
        if i > 0 {
          assert ns[1..][i-1] == ns[i];
        }
      }
    }
  }

  ghost function AsSet(splits: seq<seq<nat>>): (s: set<seq<nat>>)
    ensures forall c :: c in s <==> c in splits
  {
    set c | c in splits
  }

  lemma {:induction false} CompletedCount(ns: seq<Partial>)
    requires DifferentChoices(ns)
    ensures |AsSet(Completed(ns))| == |Completed(ns)|
  {
    if ns != [] {
      assert DifferentChoices(ns[1..]) by {
        forall i, j | 0 <= i < j < |ns[1..]| ensures ns[1..][i].chosen != ns[1..][j].chosen {
          assert ns[i+1].chosen != ns[j+1].chosen;
        }
      }
      CompletedCount(ns[1..]);
      var rest := Completed(ns[1..]);
      if Complete(ns[0]) {
        CompletedMembers(ns[1..], ns[0].chosen);
        forall i | 0 <= i < |ns[1..]| ensures ns[1..][i].chosen != ns[0].chosen {
          assert ns[0].chosen != ns[i+1].chosen;
        }
        assert AsSet(Completed(ns)) == AsSet(rest) + {ns[0].chosen};
      } else {
        assert Completed(ns) == rest;
      }
    }
  }

  lemma RootConsistent(pool: seq<Candidate>, target: int, maxRoutes: nat)
    ensures Consistent(pool, target, maxRoutes, Root(target))
  {
    assert Pick(pool, []) == [];
  }

  lemma SplitIsFound(pool: seq<Candidate>, target: int, maxRoutes: nat, c: seq<nat>)
    requires AllAdmissible(pool) && ValidSplit(pool, target, maxRoutes, c)
    ensures c in Completed(Nodes(pool, maxRoutes, Root(target)))
  {
    var root := Root(target);
    var ns := Nodes(pool, maxRoutes, root);
    RootConsistent(pool, target, maxRoutes);
    NodesSound(pool, target, maxRoutes, root);
    CompletedMembers(ns, c);
    NodesComplete(pool, target, maxRoutes, root, c);
    var q :| q in ns && q.chosen == c;
    var i :| 0 <= i < |ns| && ns[i] == q;
    assert Descends(pool, target, maxRoutes, root.chosen, q);
    assert Complete(ns[i]);
  }

  lemma FoundIsSplit(pool: seq<Candidate>, target: int, maxRoutes: nat, c: seq<nat>)
    requires AllAdmissible(pool) && c in Completed(Nodes(pool, maxRoutes, Root(target)))
    ensures ValidSplit(pool, target, maxRoutes, c)
  {
    var root := Root(target);
    var ns := Nodes(pool, maxRoutes, root);
    RootConsistent(pool, target, maxRoutes);
    NodesSound(pool, target, maxRoutes, root);
    CompletedMembers(ns, c);
    var i :| 0 <= i < |ns| && Complete(ns[i]) && ns[i].chosen == c;
    assert ns[i] in ns;
    assert Descends(pool, target, maxRoutes, root.chosen, ns[i]);
  }

  /** The completed nodes are exactly the valid splits, each met exactly once. */
  lemma SearchTreeEnumeratesSplits(pool: seq<Candidate>, target: int, maxRoutes: nat)
    requires AllAdmissible(pool)
    ensures var splits := Completed(Nodes(pool, maxRoutes, Root(target)));
            && (forall c :: c in splits <==> ValidSplit(pool, target, maxRoutes, c))
            && |AsSet(splits)| == |splits|
  {
    var ns := Nodes(pool, maxRoutes, Root(target));
    RootConsistent(pool, target, maxRoutes);
    NodesDiffer(pool, target, maxRoutes, Root(target));
    CompletedCount(ns);
    forall c ensures c in Completed(ns) <==> ValidSplit(pool, target, maxRoutes, c) {
      if ValidSplit(pool, target, maxRoutes, c) {
        SplitIsFound(pool, target, maxRoutes, c);
      }
      if c in Completed(ns) {
        FoundIsSplit(pool, target, maxRoutes, c);
      }
    }
  }

  // ---------------------------------------------------- the budget as a fold

  /** How the search values a completed split. */
  ghost function NetIn(pool: seq<Candidate>): seq<nat> -> int { (c: seq<nat>) => NetOf(pool, c) }

  /** The counters and the best plan of a search in progress. */
  datatype Progress = Progress(seen: nat, evaluated: nat, best: Option<seq<nat>>)

  ghost function Record(value: seq<nat> -> int, acc: Progress, p: Partial): Progress {
    if !Complete(p) then acc
    else acc.(evaluated := acc.evaluated + 1,
              best := if acc.best.None? || value(p.chosen) > value(acc.best.value)
                      then Some(p.chosen) else acc.best)
  }

  /** Visiting a list of nodes until the budget is used up. */
  ghost function Run(value: seq<nat> -> int, limit: nat, acc: Progress, ns: seq<Partial>): Progress
    decreases |ns|
  {
    if ns == [] || acc.seen >= limit then acc
    else Run(value, limit, Record(value, acc.(seen := acc.seen + 1), ns[0]), ns[1..])
  }

  lemma {:induction false} RunConcat(value: seq<nat> -> int, limit: nat, acc: Progress, a: seq<Partial>,
                                     b: seq<Partial>)
    ensures Run(value, limit, acc, a + b) == Run(value, limit, Run(value, limit, acc, a), b)
    decreases |a|
  {
    if a == [] {
      assert a + b == b;
    } else if acc.seen < limit {
      assert (a + b)[1..] == a[1..] + b;
      RunConcat(value, limit, Record(value, acc.(seen := acc.seen + 1), a[0]), a[1..], b);
    }
  }

  ghost predicate FirstBest(value: seq<nat> -> int, splits: seq<seq<nat>>, best: Option<seq<nat>>) {
    match best
    case None => splits == []
    case Some(b) =>
      exists i :: 0 <= i < |splits| && splits[i] == b
        && (forall j | 0 <= j < |splits| :: value(splits[j]) <= value(b))
        && (forall j | 0 <= j < i :: value(splits[j]) < value(b))
  }

  lemma FirstBestSnoc(value: seq<nat> -> int, splits: seq<seq<nat>>, best: Option<seq<nat>>, c: seq<nat>)
    requires FirstBest(value, splits, best)
    ensures FirstBest(value, splits + [c],
                      if best.None? || value(c) > value(best.value) then Some(c) else best)
  {
    var all := splits + [c];
    assert forall j | 0 <= j < |splits| :: all[j] == splits[j];
    if best.None? || value(c) > value(best.value) {
      var i := |splits|;
      assert 0 <= i < |all| && all[i] == c;
    } else {
      var i :| 0 <= i < |splits| && splits[i] == best.value
        && (forall j | 0 <= j < |splits| :: value(splits[j]) <= value(best.value))
        && (forall j | 0 <= j < i :: value(splits[j]) < value(best.value));
      assert 0 <= i < |all| && all[i] == best.value;
    }
  }

  ghost predicate Summary(value: seq<nat> -> int, done: seq<seq<nat>>, acc: Progress) {
    acc.evaluated == |done| && FirstBest(value, done, acc.best)
  }

  ghost function Here(p: Partial): seq<seq<nat>> { if Complete(p) then [p.chosen] else [] }

  lemma RecordSummary(value: seq<nat> -> int, done: seq<seq<nat>>, acc: Progress, p: Partial)
    requires Summary(value, done, acc)
    ensures Summary(value, done + Here(p), Record(value, acc.(seen := acc.seen + 1), p))
  {
    if Complete(p) {
      FirstBestSnoc(value, done, acc.best, p.chosen);
    } else {
      assert done + Here(p) == done;
    }
  }

  function Least(a: int, b: int): int { if a <= b then a else b }

  ghost function RunAll(value: seq<nat> -> int, acc: Progress, ns: seq<Partial>): Progress
    decreases |ns|
  {
    if ns == [] then acc else RunAll(value, Record(value, acc.(seen := acc.seen + 1), ns[0]), ns[1..])
  }

  lemma {:induction false} RunIsPrefix(value: seq<nat> -> int, limit: nat, acc: Progress, ns: seq<Partial>)
    requires acc.seen <= limit
    ensures Run(value, limit, acc, ns) == RunAll(value, acc, ns[..Least(|ns|, limit - acc.seen)])
    decreases |ns|
  {
    if ns != [] && acc.seen < limit {
      RunIsPrefix(value, limit, Record(value, acc.(seen := acc.seen + 1), ns[0]), ns[1..]);
      assert ns[..Least(|ns|, limit - acc.seen)][1..] == ns[1..][..Least(|ns|, limit - acc.seen) - 1];
    }
  }

  lemma CompletedCons(before: seq<seq<nat>>, ns: seq<Partial>)
    requires ns != []
    ensures before + Completed(ns) == (before + Here(ns[0])) + Completed(ns[1..])
  {
  }

  lemma {:induction false} RunAllSummary(value: seq<nat> -> int, acc: Progress, ns: seq<Partial>, before: seq<seq<nat>>)
    requires Summary(value, before, acc)
    ensures RunAll(value, acc, ns).seen == acc.seen + |ns|
    ensures Summary(value, before + Completed(ns), RunAll(value, acc, ns))
    decreases |ns|
  {
    if ns == [] {
      assert before + Completed(ns) == before;
    } else {
      RecordSummary(value, before, acc, ns[0]);
      RunAllSummary(value, Record(value, acc.(seen := acc.seen + 1), ns[0]), ns[1..], before + Here(ns[0]));
      CompletedCons(before, ns);
    }
  }

  /** The budgeted search is the exact summary of the first `limit` nodes in preorder. */
  lemma RunSummary(value: seq<nat> -> int, limit: nat, ns: seq<Partial>)
    ensures Run(value, limit, Progress(0, 0, None), ns).seen == Least(|ns|, limit)
    ensures Summary(value, Completed(ns[..Least(|ns|, limit)]), Run(value, limit, Progress(0, 0, None), ns))
  {
    var zero := Progress(0, 0, None);
    RunIsPrefix(value, limit, zero, ns);
    RunAllSummary(value, zero, ns[..Least(|ns|, limit)], []);
    assert [] + Completed(ns[..Least(|ns|, limit)]) == Completed(ns[..Least(|ns|, limit)]);
  }

  lemma RunNodes(value: seq<nat> -> int, pool: seq<Candidate>, maxRoutes: nat, limit: nat, acc: Progress, p: Partial)
    requires p.start <= |pool| && acc.seen < limit
    ensures Run(value, limit, acc, Nodes(pool, maxRoutes, p))
         == Run(value, limit, Record(value, acc.(seen := acc.seen + 1), p),
                if Leaf(p, maxRoutes) then [] else Below(pool, maxRoutes, p, p.start))
  {
    var ns := Nodes(pool, maxRoutes, p);
    assert ns[1..] == if Leaf(p, maxRoutes) then [] else Below(pool, maxRoutes, p, p.start);
  }

  /** The ways in which a visit to a node ends. */
  lemma RunNodesCases(value: seq<nat> -> int, pool: seq<Candidate>, maxRoutes: nat, limit: nat, acc: Progress,
                      p: Partial, after: Progress)
    requires p.start <= |pool| && after == Run(value, limit, acc, Nodes(pool, maxRoutes, p))
    ensures acc.seen >= limit ==> after == acc
    ensures acc.seen < limit && p.remaining == 0 ==> after == Record(value, acc.(seen := acc.seen + 1), p)
    ensures acc.seen < limit && p.remaining != 0 && |p.chosen| >= maxRoutes ==> after == acc.(seen := acc.seen + 1)
    ensures acc.seen < limit && p.remaining != 0 && |p.chosen| < maxRoutes ==>
              after == Run(value, limit, acc.(seen := acc.seen + 1), Below(pool, maxRoutes, p, p.start))
  {
    if acc.seen < limit {
      RunNodes(value, pool, maxRoutes, limit, acc, p);
    }
  }

  lemma RunBelow(value: seq<nat> -> int, pool: seq<Candidate>, maxRoutes: nat, limit: nat, acc: Progress, p: Partial,
                 idx: nat)
    requires idx < |pool|
    ensures Run(value, limit, acc, Below(pool, maxRoutes, p, idx))
         == Run(value, limit,
                if Fits(pool, p, idx) then Run(value, limit, acc, Nodes(pool, maxRoutes, Child(pool, p, idx))) else acc,
                Below(pool, maxRoutes, p, idx + 1))
  {
    var rest := Below(pool, maxRoutes, p, idx + 1);
    if Fits(pool, p, idx) {
      RunConcat(value, limit, acc, Nodes(pool, maxRoutes, Child(pool, p, idx)), rest);
    } else {
      assert Below(pool, maxRoutes, p, idx) == rest;
    }
  }

  // -------------------------------------------------------------- the program

  class SplitSearchState {
    const pool: seq<Candidate>
    const maxRoutes: nat
    const maxStates: nat
    var statesSeen: nat
    var combinationsEvaluated: nat
    var bestPlan: Option<seq<nat>>
    var bestNet: int

    constructor (pool: seq<Candidate>, maxRoutes: nat, maxStates: nat)
      ensures this.pool == pool && this.maxRoutes == maxRoutes && this.maxStates == maxStates
      ensures Valid() && View() == Progress(0, 0, None)
    {
      this.pool, this.maxRoutes, this.maxStates := pool, maxRoutes, maxStates;
      statesSeen, combinationsEvaluated, bestPlan, bestNet := 0, 0, None, 0;
    }

    ghost function View(): Progress
      reads this
    {
      Progress(statesSeen, combinationsEvaluated, bestPlan)
    }

    ghost predicate Valid()
      reads this
    {
      bestPlan.Some? ==> bestNet == NetOf(pool, bestPlan.value)
    }

    method RecordCompletedSplit(p: Partial)
      requires Valid() && AllAdmissible(pool) && InRange(pool, p.chosen) && p.remaining == 0
      modifies this`combinationsEvaluated, this`bestPlan, this`bestNet
      ensures Valid() && View() == Record(NetIn(pool), old(View()), p)
    {
      if |p.chosen| < 2 {
        return;
      }
      var parts := Pick(pool, p.chosen);
      assert AllAdmissible(parts);
      var net := Net(parts);
      combinationsEvaluated := combinationsEvaluated + 1;
      if bestPlan.None? || net > bestNet {
        bestPlan := Some(p.chosen);
        bestNet := net;
      }
    }

    method Extend(p: Partial, ghost target: int)
      requires Valid() && AllAdmissible(pool)
      requires Consistent(pool, target, maxRoutes, p) && |p.chosen| < maxRoutes
      modifies this`statesSeen, this`combinationsEvaluated, this`bestPlan, this`bestNet
      ensures Valid()
      ensures View() == Run(NetIn(pool), maxStates, old(View()), Below(pool, maxRoutes, p, p.start))
      decreases |pool| - p.start, 0
    {
      var idx := p.start;
      while idx < |pool|
        invariant p.start <= idx <= |pool|
        invariant Valid()
        invariant Run(NetIn(pool), maxStates, View(), Below(pool, maxRoutes, p, idx))
               == Run(NetIn(pool), maxStates, old(View()), Below(pool, maxRoutes, p, p.start))
      {
        RunBelow(NetIn(pool), pool, maxRoutes, maxStates, View(), p, idx);
        if pool[idx].amountIn <= p.remaining && pool[idx].routeId !in p.routeIds
           && p.poolKeys * pool[idx].identity.poolKeys == {} {
          ChildConsistent(pool, target, maxRoutes, p, idx);
          Walk(Child(pool, p, idx), target);
          if statesSeen >= maxStates {
            return;
          }
        }
        idx := idx + 1;
      }
    }

    method Walk(p: Partial, ghost target: int)
      requires Valid() && AllAdmissible(pool) && Consistent(pool, target, maxRoutes, p)
      modifies this`statesSeen, this`combinationsEvaluated, this`bestPlan, this`bestNet
      ensures Valid()
      ensures View() == Run(NetIn(pool), maxStates, old(View()), Nodes(pool, maxRoutes, p))
      decreases |pool| - p.start, 1
    {
      ghost var visited := View().(seen := statesSeen + 1);
      ghost var after := Run(NetIn(pool), maxStates, View(), Nodes(pool, maxRoutes, p));
      RunNodesCases(NetIn(pool), pool, maxRoutes, maxStates, View(), p, after);
      if statesSeen >= maxStates {
        return;
      }
      statesSeen := statesSeen + 1;
      assert View() == visited;
      if p.remaining == 0 {
        RecordCompletedSplit(p);
        return;
      }
      if |p.chosen| >= maxRoutes {
        return;
      }
      Extend(p, target);
    }
  }

  /** Number of nodes an unlimited search would visit. */
  ghost function TreeSize(pool: seq<Candidate>, target: int, maxRoutes: nat): nat {
    |Nodes(pool, maxRoutes, Root(target))|
  }

  /** The search over an ordered pool. It is flagged as truncated exactly when the tree
      has at least `maxStates` nodes, but its answer is already complete and optimal
      when the tree has at most `maxStates` nodes. */
  method SearchPool(pool: seq<Candidate>, target: int, maxRoutes: nat, maxStates: nat)
    returns (best: Option<seq<nat>>, evaluated: nat, seen: nat, truncated: bool, ghost splits: set<seq<nat>>)
    requires AllAdmissible(pool)
    ensures forall c :: c in splits <==> ValidSplit(pool, target, maxRoutes, c)
    ensures seen <= maxStates
    ensures truncated <==> TreeSize(pool, target, maxRoutes) >= maxStates
    ensures best.Some? ==> ValidSplit(pool, target, maxRoutes, best.value)
    ensures TreeSize(pool, target, maxRoutes) <= maxStates ==>
      && evaluated == |splits|
      && (best.None? ==> forall c :: !ValidSplit(pool, target, maxRoutes, c))
      && (best.Some? ==> forall c | ValidSplit(pool, target, maxRoutes, c) :: NetOf(pool, c) <= NetOf(pool, best.value))
  {
    var state := new SplitSearchState(pool, maxRoutes, maxStates);
    RootConsistent(pool, target, maxRoutes);
    state.Walk(Root(target), target);
    best, evaluated, seen := state.bestPlan, state.combinationsEvaluated, state.statesSeen;
    truncated := seen >= maxStates;
    SearchOutcome(pool, target, maxRoutes, maxStates);
    splits := AsSet(Completed(Nodes(pool, maxRoutes, Root(target))));
  }

  lemma {:induction false} CompletedOfPrefix(ns: seq<Partial>, k: nat, c: seq<nat>)
    requires k <= |ns| && c in Completed(ns[..k])
    ensures c in Completed(ns)
  {
    CompletedMembers(ns[..k], c);
    var i :| 0 <= i < k && Complete(ns[..k][i]) && ns[..k][i].chosen == c;
    assert ns[i] == ns[..k][i];
    CompletedMembers(ns, c);
  }

  /** Main theorem on the budgeted fold from the root. */
  lemma SearchOutcome(pool: seq<Candidate>, target: int, maxRoutes: nat, limit: nat)
    requires AllAdmissible(pool)
    ensures var size := TreeSize(pool, target, maxRoutes);
            var r := Run(NetIn(pool), limit, Progress(0, 0, None), Nodes(pool, maxRoutes, Root(target)));
            var splits := Completed(Nodes(pool, maxRoutes, Root(target)));
            && r.seen == (if size <= limit then size else limit)
            && (r.best.Some? ==> ValidSplit(pool, target, maxRoutes, r.best.value))
            && (forall c :: c in splits <==> ValidSplit(pool, target, maxRoutes, c))
            && |AsSet(splits)| == |splits|
            && (size <= limit ==> r.evaluated == |splits| && FirstBest(NetIn(pool), splits, r.best))
            && (size <= limit && r.best.None? ==> forall c :: !ValidSplit(pool, target, maxRoutes, c))
            && (size <= limit && r.best.Some? ==>
                 forall c | ValidSplit(pool, target, maxRoutes, c) :: NetOf(pool, c) <= NetOf(pool, r.best.value))
  {
    var ns := Nodes(pool, maxRoutes, Root(target));
    var r := Run(NetIn(pool), limit, Progress(0, 0, None), ns);
    SearchTreeEnumeratesSplits(pool, target, maxRoutes);
    RunSummary(NetIn(pool), limit, ns);
    var k := Least(|ns|, limit);
    if r.best.Some? {
      assert r.best.value in Completed(ns[..k]);
      CompletedOfPrefix(ns, k, r.best.value);
    }
    if |ns| <= limit {
      assert ns[..k] == ns;
    }
  }
}
