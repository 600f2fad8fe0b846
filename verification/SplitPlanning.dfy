/** Deduplication and the diversity-aware shortlist that feed the split search
    (_deduplicate_candidates, _best_diverse_candidate_index and
    _shortlist_amount_bucket). */
module SplitPlanning {
  import opened Ordering
  import opened SplitCosts

  const DIVERSITY_TOLERANCE_BPS := 50

  // -------------------------------------------------------------- deduplication

  datatype SlotKey = SlotKey(borrowToken: string, amountIn: int, routeId: string)

  function Slot(c: Candidate): SlotKey { SlotKey(c.borrowToken, c.amountIn, c.routeId) }

  function Flag(b: bool): int { if b then 1 else 0 }

  function EvidenceRank(c: Candidate): seq<int> {
    [Flag(c.revalidated && c.authoritative && c.valid && c.repaymentValid),
     Flag(c.authoritative), Flag(c.revalidated), c.SingleNet(), c.gross]
  }

  /** The first candidate of a slot among those with the greatest evidence rank. */
  ghost predicate BestOfSlot(cands: seq<Candidate>, slot: SlotKey, c: Candidate) {
    exists i :: 0 <= i < |cands| && cands[i] == c && Slot(c) == slot
      && (forall j | 0 <= j < |cands| && Slot(cands[j]) == slot :: LexLe(EvidenceRank(cands[j]), EvidenceRank(c)))
      && (forall j | 0 <= j < i && Slot(cands[j]) == slot :: !LexLe(EvidenceRank(c), EvidenceRank(cands[j])))
  }

  lemma BestOfSlotStep(cands: seq<Candidate>, c: Candidate, slot: SlotKey, prior: Candidate)
    requires BestOfSlot(cands, slot, prior)
    ensures BestOfSlot(cands + [c], slot,
                       if slot == Slot(c) && !LexLe(EvidenceRank(c), EvidenceRank(prior)) then c else prior)
  {
    var all := cands + [c];
    var i :| 0 <= i < |cands| && cands[i] == prior && Slot(prior) == slot
      && (forall j | 0 <= j < |cands| && Slot(cands[j]) == slot :: LexLe(EvidenceRank(cands[j]), EvidenceRank(prior)))
      && (forall j | 0 <= j < i && Slot(cands[j]) == slot :: !LexLe(EvidenceRank(prior), EvidenceRank(cands[j])));
    if slot == Slot(c) && !LexLe(EvidenceRank(c), EvidenceRank(prior)) {
      var n := |cands|;
      LexTotal(EvidenceRank(c), EvidenceRank(prior));
      forall j | 0 <= j < |all| && Slot(all[j]) == slot
        ensures LexLe(EvidenceRank(all[j]), EvidenceRank(c))
        ensures j < n ==> !LexLe(EvidenceRank(c), EvidenceRank(all[j]))
      {
        LexTotal(EvidenceRank(c), EvidenceRank(c));
        if j < n {
          assert all[j] == cands[j];
          LexTransitive(EvidenceRank(cands[j]), EvidenceRank(prior), EvidenceRank(c));
          if LexLe(EvidenceRank(c), EvidenceRank(cands[j])) {
            LexTransitive(EvidenceRank(c), EvidenceRank(cands[j]), EvidenceRank(prior));
          }
        }
      }
      assert all[n] == c;
    } else {
      assert all[i] == prior;
    }
  }

  lemma BestOfNewSlot(cands: seq<Candidate>, c: Candidate)
    requires forall x | x in cands :: Slot(x) != Slot(c)
    ensures BestOfSlot(cands + [c], Slot(c), c)
  {
    var all := cands + [c];
    LexTotal(EvidenceRank(c), EvidenceRank(c));
    forall j | 0 <= j < |cands| ensures Slot(all[j]) != Slot(c) {
      assert cands[j] in cands;
    }
    assert all[|cands|] == c;
  }

  ghost predicate Deduplicated(cands: seq<Candidate>, unique: map<SlotKey, Candidate>) {
    && (forall slot :: slot in unique <==> exists i :: 0 <= i < |cands| && Slot(cands[i]) == slot)
    && forall slot | slot in unique :: BestOfSlot(cands, slot, unique[slot])
  }

  function Keep(unique: map<SlotKey, Candidate>, c: Candidate): map<SlotKey, Candidate> {
    if Slot(c) in unique && LexLe(EvidenceRank(c), EvidenceRank(unique[Slot(c)])) then unique
    else unique[Slot(c) := c]
  }

  lemma KeepBest(cands: seq<Candidate>, unique: map<SlotKey, Candidate>, c: Candidate, slot: SlotKey)
    requires Deduplicated(cands, unique) && slot in Keep(unique, c)
    ensures BestOfSlot(cands + [c], slot, Keep(unique, c)[slot])
  {
    if slot in unique {
      BestOfSlotStep(cands, c, slot, unique[slot]);
    } else {
      assert forall i | 0 <= i < |cands| :: Slot(cands[i]) != slot;
      BestOfNewSlot(cands, c);
    }
  }

  lemma KeepStep(cands: seq<Candidate>, unique: map<SlotKey, Candidate>, c: Candidate)
    requires Deduplicated(cands, unique)
    ensures Deduplicated(cands + [c], Keep(unique, c))
  {
    KeepSlots(cands, unique, c);
    forall slot | slot in Keep(unique, c) ensures BestOfSlot(cands + [c], slot, Keep(unique, c)[slot]) {
      KeepBest(cands, unique, c, slot);
    }
  }

  lemma KeepSlots(cands: seq<Candidate>, unique: map<SlotKey, Candidate>, c: Candidate)
    requires Deduplicated(cands, unique)
    ensures forall slot ::
              slot in Keep(unique, c) <==> exists i :: 0 <= i < |cands + [c]| && Slot((cands + [c])[i]) == slot
  {
    var all := cands + [c];
    assert all[|cands|] == c;
    forall slot ensures slot in Keep(unique, c) <==> exists i :: 0 <= i < |all| && Slot(all[i]) == slot {
      if slot in unique {
        var i :| 0 <= i < |cands| && Slot(cands[i]) == slot;
        assert all[i] == cands[i];
      }
      if i :| 0 <= i < |all| && Slot(all[i]) == slot {
        assert i < |cands| ==> all[i] == cands[i];
      }
    }
  }

  /** One candidate per (token, amount, route): the one with the best evidence. */
  method DeduplicateCandidates(cands: seq<Candidate>) returns (unique: map<SlotKey, Candidate>)
    ensures Deduplicated(cands, unique)
  {
    unique := map[];
    for n := 0 to |cands|
      invariant Deduplicated(cands[..n], unique)
    {
      var c := cands[n];
      assert cands[..n+1] == cands[..n] + [c];
      KeepStep(cands[..n], unique, c);
      if Slot(c) !in unique || !LexLe(EvidenceRank(c), EvidenceRank(unique[Slot(c)])) {
        unique := unique[Slot(c) := c];
      }
    }
    assert cands[..|cands|] == cands;
  }

  // ------------------------------------------------------------------ shortlist

  function RankKey(c: Candidate): seq<int> { [c.SingleNet(), c.gross] + Codes(c.routeId) }

  function Ranked(rows: seq<Candidate>): (r: seq<Candidate>)
    ensures |r| == |rows| && multiset(r) == multiset(rows)
  {
    SortDescending(rows, RankKey)
  }

  ghost predicate Descending(rows: seq<Candidate>) {
    forall i, j | 0 <= i < j < |rows| :: rows[j].SingleNet() <= rows[i].SingleNet()
  }

  lemma RankedDescends(rows: seq<Candidate>)
    ensures Descending(Ranked(rows))
  {
    var asc := SortBy(Reversed(rows), RankKey);
    SortBySorts(Reversed(rows), RankKey);
    forall i, j | 0 <= i < j < |asc| ensures asc[i].SingleNet() <= asc[j].SingleNet() {
      assert LexLe(RankKey(asc[i]), RankKey(asc[j]));
    }
  }

  function Tolerance(bestNet: int): int {
    var t := (if bestNet >= 0 then bestNet else -bestNet) * DIVERSITY_TOLERANCE_BPS / 10_000;
    if t >= 1 then t else 1
  }

  function ProtocolsOf(rows: seq<Candidate>): (r: set<string>)
    ensures forall x :: x in r <==> exists c :: c in rows && x in c.identity.protocols
  {
    set c, x | c in rows && x in c.identity.protocols :: x
  }

  function PoolsOfRows(rows: seq<Candidate>): (r: set<PoolKey>)
    ensures forall x :: x in r <==> exists c :: c in rows && x in c.identity.poolKeys
  {
    set c, x | c in rows && x in c.identity.poolKeys :: x
  }

  /** New protocols first, then new pools, then profit. */
  function DiversityKey(row: Candidate, chosen: seq<Candidate>): seq<int> {
    [|row.identity.protocols - ProtocolsOf(chosen)|, |row.identity.poolKeys - PoolsOfRows(chosen)|,
     row.SingleNet(), row.gross]
  }

  predicate NearBest(row: Candidate, bestNet: int) { bestNet - row.SingleNet() <= Tolerance(bestNet) }

  predicate NoMoreDiverse(a: Candidate, b: Candidate, chosen: seq<Candidate>) {
    LexLe(DiversityKey(a, chosen), DiversityKey(b, chosen))
  }

  lemma DiversityIsTotal(a: Candidate, b: Candidate, chosen: seq<Candidate>)
    ensures NoMoreDiverse(a, b, chosen) || NoMoreDiverse(b, a, chosen)
  {
    LexTotal(DiversityKey(a, chosen), DiversityKey(b, chosen));
  }

  lemma DiversityIsTransitive(a: Candidate, b: Candidate, c: Candidate, chosen: seq<Candidate>)
    requires NoMoreDiverse(a, b, chosen) && NoMoreDiverse(b, c, chosen)
    ensures NoMoreDiverse(a, c, chosen)
  {
    LexTransitive(DiversityKey(a, chosen), DiversityKey(b, chosen), DiversityKey(c, chosen));
  }

  /** The first near-best row that no other near-best row before n exceeds. */
  ghost predicate MostDiverse(pending: seq<Candidate>, chosen: seq<Candidate>, bestNet: int, n: nat, index: nat)
    requires n <= |pending|
  {
    && index < n && NearBest(pending[index], bestNet)
    && forall j | 0 <= j < n && NearBest(pending[j], bestNet) ::
         && NoMoreDiverse(pending[j], pending[index], chosen)
         && (j < index ==> !NoMoreDiverse(pending[index], pending[j], chosen))
  }

  lemma MostDiverseStep(pending: seq<Candidate>, chosen: seq<Candidate>, bestNet: int, n: nat, index: nat)
    requires n < |pending| && NearBest(pending[n], bestNet) && MostDiverse(pending, chosen, bestNet, n, index)
    ensures MostDiverse(pending, chosen, bestNet, n + 1,
                        if NoMoreDiverse(pending[n], pending[index], chosen) then index else n)
  {
    DiversityIsTotal(pending[n], pending[index], chosen);
    DiversityIsTotal(pending[n], pending[n], chosen);
    if !NoMoreDiverse(pending[n], pending[index], chosen) {
      forall j | 0 <= j < n && NearBest(pending[j], bestNet)
        ensures NoMoreDiverse(pending[j], pending[n], chosen) && !NoMoreDiverse(pending[n], pending[j], chosen)
      {
        DiversityIsTransitive(pending[j], pending[index], pending[n], chosen);
        if NoMoreDiverse(pending[n], pending[j], chosen) {
          DiversityIsTransitive(pending[n], pending[j], pending[index], chosen);
        }
      }
    }
  }

  /** The choice among the rows before n: the first most diverse one, or none so far. */
  ghost predicate DiverseSoFar(pending: seq<Candidate>, chosen: seq<Candidate>, bestNet: int, n: nat, found: bool,
                               index: nat)
    requires n <= |pending|
  {
    if found then MostDiverse(pending, chosen, bestNet, n, index)
    else index == 0 && forall j | 0 <= j < n :: !NearBest(pending[j], bestNet)
  }

  lemma FirstDiverse(pending: seq<Candidate>, chosen: seq<Candidate>, bestNet: int, n: nat, index: nat)
    requires n < |pending| && NearBest(pending[n], bestNet) && DiverseSoFar(pending, chosen, bestNet, n, false, index)
    ensures MostDiverse(pending, chosen, bestNet, n + 1, n)
  {
    DiversityIsTotal(pending[n], pending[n], chosen);
  }

  method BestDiverseCandidateIndex(pending: seq<Candidate>, chosen: seq<Candidate>, bestNet: int) returns (index: nat)
    requires pending != []
    ensures index < |pending|
    ensures if forall j | 0 <= j < |pending| :: !NearBest(pending[j], bestNet) then index == 0
            else MostDiverse(pending, chosen, bestNet, |pending|, index)
  {
    var found := false;
    index := 0;
    for n := 0 to |pending|
      invariant DiverseSoFar(pending, chosen, bestNet, n, found, index)
    {
      if NearBest(pending[n], bestNet) {
        if !found {
          FirstDiverse(pending, chosen, bestNet, n, index);
          found, index := true, n;
        } else {
          MostDiverseStep(pending, chosen, bestNet, n, index);
          if !NoMoreDiverse(pending[n], pending[index], chosen) {
            index := n;
          }
        }
      }
    }
  }

  /** One greedy choice: the most diverse near-best row, or the most profitable one when
      no row is near the best. */
  ghost predicate GreedyChoice(chosen: seq<Candidate>, c: Candidate, others: multiset<Candidate>, bestNet: int) {
    if NearBest(c, bestNet) then
      forall x | x in others && NearBest(x, bestNet) :: NoMoreDiverse(x, c, chosen)
    else
      forall x | x in others :: !NearBest(x, bestNet) && x.SingleNet() <= c.SingleNet()
  }

  lemma IndexIsGreedy(pending: seq<Candidate>, chosen: seq<Candidate>, bestNet: int, index: nat)
    requires index < |pending| && Descending(pending)
    requires if forall j | 0 <= j < |pending| :: !NearBest(pending[j], bestNet) then index == 0
             else MostDiverse(pending, chosen, bestNet, |pending|, index)
    ensures GreedyChoice(chosen, pending[index], multiset(Without(pending, index)), bestNet)
  {
    forall x | x in multiset(Without(pending, index)) ensures exists j :: 0 <= j < |pending| && pending[j] == x {
      assert x in Without(pending, index);
    }
  }

  lemma WithoutDescends(rows: seq<Candidate>, index: nat)
    requires index < |rows| && Descending(rows)
    ensures Descending(Without(rows, index))
  {
  }

  ghost predicate RegretBounded(chosen: seq<Candidate>, rest: seq<Candidate>, bound: int) {
    forall c, e | c in chosen && e in rest :: e.SingleNet() - c.SingleNet() <= bound
  }

  lemma RegretStep(chosen: seq<Candidate>, pending: seq<Candidate>, bestNet: int, index: nat)
    requires index < |pending| && RegretBounded(chosen, pending, Tolerance(bestNet))
    requires GreedyChoice(chosen, pending[index], multiset(Without(pending, index)), bestNet)
    requires forall e | e in pending :: e.SingleNet() <= bestNet
    ensures RegretBounded(chosen + [pending[index]], Without(pending, index), Tolerance(bestNet))
    ensures forall e | e in Without(pending, index) :: e in pending
  {
    var rest := Without(pending, index);
    forall e | e in rest
      ensures e in pending && e in multiset(rest)
      ensures e.SingleNet() - pending[index].SingleNet() <= Tolerance(bestNet)
    {
      assert pending[index] in pending;
    }
  }

  ghost predicate GreedyRun(chosen: seq<Candidate>, rows: multiset<Candidate>, bestNet: int) {
    forall k | 1 <= k < |chosen| ::
      GreedyChoice(chosen[..k], chosen[k], rows - multiset(chosen[..k+1]), bestNet)
  }

  lemma GreedyRunStep(chosen: seq<Candidate>, c: Candidate, rest: multiset<Candidate>, rows: multiset<Candidate>,
                      bestNet: int)
    requires GreedyRun(chosen, rows, bestNet) && GreedyChoice(chosen, c, rest, bestNet)
    requires rows == multiset(chosen) + multiset{c} + rest
    ensures GreedyRun(chosen + [c], rows, bestNet)
  {
    var all := chosen + [c];
    forall k | 1 <= k < |all| ensures GreedyChoice(all[..k], all[k], rows - multiset(all[..k+1]), bestNet) {
      if k < |chosen| {
        assert all[..k] == chosen[..k] && all[..k+1] == chosen[..k+1];
      } else {
        assert all[..k] == chosen && all[..k+1] == all;
        assert multiset(all) == multiset(chosen) + multiset{c};
        assert rows - multiset(all) == rest;
      }
    }
  }

  /** The state of the greedy loop. */
  ghost predicate Selecting(rows: seq<Candidate>, bestNet: int, chosen: seq<Candidate>, pending: seq<Candidate>) {
    && chosen != [] && chosen[0].SingleNet() == bestNet
    && multiset(chosen) + multiset(pending) == multiset(rows)
    && |chosen| + |pending| == |rows|
    && Descending(pending)
    && (forall e | e in pending :: e.SingleNet() <= bestNet)
    && RegretBounded(chosen, pending, Tolerance(bestNet))
    && GreedyRun(chosen, multiset(rows), bestNet)
  }

  lemma SameMember<T>(a: seq<T>, b: seq<T>, e: T)
    requires multiset(a) == multiset(b)
    ensures e in a <==> e in b
  {
    assert e in a <==> e in multiset(a);
    assert e in b <==> e in multiset(b);
  }

  lemma WithoutMember<T>(s: seq<T>, i: nat, e: T)
    requires i < |s| && e in Without(s, i)
    ensures e in s
  {
    assert e in multiset(Without(s, i));
    assert e in multiset(s);
  }

  lemma FirstIsMost(rows: seq<Candidate>, e: Candidate)
    requires Descending(rows) && e in rows
    ensures e.SingleNet() <= rows[0].SingleNet()
  {
    var i :| 0 <= i < |rows| && rows[i] == e;
  }

  lemma BestIsFirst(rows: seq<Candidate>)
    requires rows != []
    ensures forall e | e in rows :: e.SingleNet() <= Ranked(rows)[0].SingleNet()
    ensures forall e | e in Without(Ranked(rows), 0) :: e.SingleNet() <= Ranked(rows)[0].SingleNet()
  {
    var ranked := Ranked(rows);
    RankedDescends(rows);
    forall e | e in rows ensures e.SingleNet() <= ranked[0].SingleNet() {
      SameMember(rows, ranked, e);
      FirstIsMost(ranked, e);
    }
    forall e | e in Without(ranked, 0) ensures e.SingleNet() <= ranked[0].SingleNet() {
      WithoutMember(ranked, 0, e);
      FirstIsMost(ranked, e);
    }
  }

  lemma RankedContents(rows: seq<Candidate>)
    requires rows != []
    ensures multiset([Ranked(rows)[0]]) + multiset(Without(Ranked(rows), 0)) == multiset(rows)
    ensures Descending(Without(Ranked(rows), 0))
  {
    RankedDescends(rows);
    WithoutDescends(Ranked(rows), 0);
  }

  lemma SelectingStarts(rows: seq<Candidate>)
    requires rows != []
    ensures Selecting(rows, Ranked(rows)[0].SingleNet(), [Ranked(rows)[0]], Without(Ranked(rows), 0))
  {
    BestIsFirst(rows);
    RankedContents(rows);
    var best, rest := Ranked(rows)[0], Without(Ranked(rows), 0);
    assert RegretBounded([best], rest, Tolerance(best.SingleNet()));
  }

  lemma MoveToChosen(chosen: seq<Candidate>, pending: seq<Candidate>, index: nat, rows: multiset<Candidate>)
    requires index < |pending| && multiset(chosen) + multiset(pending) == rows
    ensures multiset(chosen + [pending[index]]) + multiset(Without(pending, index)) == rows
    ensures rows == multiset(chosen) + multiset{pending[index]} + multiset(Without(pending, index))
  {
    assert pending[index] in multiset(pending);
  }

  lemma SelectingStep(rows: seq<Candidate>, bestNet: int, chosen: seq<Candidate>, pending: seq<Candidate>, index: nat)
    requires Selecting(rows, bestNet, chosen, pending) && index < |pending|
    requires GreedyChoice(chosen, pending[index], multiset(Without(pending, index)), bestNet)
    ensures Selecting(rows, bestNet, chosen + [pending[index]], Without(pending, index))
  {
    MoveToChosen(chosen, pending, index, multiset(rows));
    RegretStep(chosen, pending, bestNet, index);
    GreedyRunStep(chosen, pending[index], multiset(Without(pending, index)), multiset(rows), bestNet);
    WithoutDescends(pending, index);
  }

  /** The shortlist has min(cap, n) rows, starts with a best row, and every row left out
      is at most the tolerance more profitable than any row taken. */
  method ShortlistAmountBucket(rows: seq<Candidate>, cap: int)
    returns (chosen: seq<Candidate>, ghost rest: seq<Candidate>)
    ensures multiset(chosen) + multiset(rest) == multiset(rows)
    ensures |chosen| == if cap <= 0 then 0 else if cap <= |rows| then cap else |rows|
    ensures chosen != [] ==>
      && (forall e | e in rows :: e.SingleNet() <= chosen[0].SingleNet())
      && RegretBounded(chosen, rest, Tolerance(chosen[0].SingleNet()))
      && GreedyRun(chosen, multiset(rows), chosen[0].SingleNet())
  {
    var pending := Ranked(rows);
    if pending == [] || cap <= 0 {
      return [], pending;
    }
    BestIsFirst(rows);
    SelectingStarts(rows);
    var bestNet := pending[0].SingleNet();
    chosen := [pending[0]];
    pending := Without(pending, 0);
    while pending != [] && |chosen| < cap
      invariant |chosen| <= cap
      invariant Selecting(rows, bestNet, chosen, pending)
      decreases |pending|
    {
      var index := BestDiverseCandidateIndex(pending, chosen, bestNet);
      IndexIsGreedy(pending, chosen, bestNet, index);
      SelectingStep(rows, bestNet, chosen, pending, index);
      chosen := chosen + [pending[index]];
      pending := Without(pending, index);
    }
    rest := pending;
  }
}
