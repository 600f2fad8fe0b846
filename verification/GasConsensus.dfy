/** Cross-provider gas price consensus (select_consensus_gas_price of gas_model.py). */
module GasConsensus {
  import opened Outcomes
  import Ordering

  /** What a provider reported; unreadable numbers are reported as None. */
  datatype Report = Report(price: Option<int>, block: Option<int>)

  datatype Observation = Observation(price: int, block: int)

  predicate Usable(r: Report) { r.price.Some? && r.block.Some? && r.price.value > 0 && r.block.value >= 0 }

  // ------------------------------------------------------------------ the median

  function IntKey(x: int): seq<int> { [x] }

  function Sorted(s: seq<int>): (t: seq<int>)
    ensures |t| == |s| && multiset(t) == multiset(s)
    ensures forall i, j | 0 <= i < j < |t| :: t[i] <= t[j]
  {
    Ordering.SortBySorts(s, IntKey);
    var t := Ordering.SortBy(s, IntKey);
    assert forall i, j | 0 <= i < j < |t| :: Ordering.LexLe(IntKey(t[i]), IntKey(t[j]));
    t
  }

  function Middle(t: seq<int>): int
    requires t != []
  {
    if |t| % 2 == 1 then t[|t| / 2] else (t[|t| / 2 - 1] + t[|t| / 2]) / 2
  }

  function Median(s: seq<int>): int
    requires s != []
  {
    Middle(Sorted(s))
  }

  /** How many prices lie outside the band. */
  function Outside(s: seq<int>, lo: int, hi: int): nat {
    if s == [] then 0 else (if lo <= s[0] <= hi then 0 else 1) + Outside(s[1..], lo, hi)
  }

  lemma {:induction false} OutsideConcat(a: seq<int>, b: seq<int>, lo: int, hi: int)
    ensures Outside(a + b, lo, hi) == Outside(a, lo, hi) + Outside(b, lo, hi)
  {
    if a == [] {
      assert a + b == b;
    } else {
      assert (a + b)[1..] == a[1..] + b;
      OutsideConcat(a[1..], b, lo, hi);
    }
  }

  lemma {:induction false} AllOutside(s: seq<int>, lo: int, hi: int)
    requires forall i | 0 <= i < |s| :: !(lo <= s[i] <= hi)
    ensures Outside(s, lo, hi) == |s|
  {
    if s != [] {
      AllOutside(s[1..], lo, hi);
    }
  }

  function IsOutside(lo: int, hi: int): int -> int { (x: int) => if lo <= x <= hi then 0 else 1 }

  lemma {:induction false} OutsideIsSum(s: seq<int>, lo: int, hi: int)
    ensures Outside(s, lo, hi) == Ordering.SumOf(s, IsOutside(lo, hi))
  {
    if s != [] {
      OutsideIsSum(s[1..], lo, hi);
    }
  }

  lemma OutsideOfPermutation(a: seq<int>, b: seq<int>, lo: int, hi: int)
    requires multiset(a) == multiset(b)
    ensures Outside(a, lo, hi) == Outside(b, lo, hi)
  {
    OutsideIsSum(a, lo, hi);
    OutsideIsSum(b, lo, hi);
    Ordering.SumOfPermutation(a, b, IsOutside(lo, hi));
  }

  lemma OutsidePrefix(t: seq<int>, k: nat, lo: int, hi: int)
    requires k <= |t| && forall i | 0 <= i < k :: !(lo <= t[i] <= hi)
    ensures Outside(t, lo, hi) >= k
  {
    AllOutside(t[..k], lo, hi);
    OutsideConcat(t[..k], t[k..], lo, hi);
    assert t == t[..k] + t[k..];
  }

  lemma OutsideSuffix(t: seq<int>, k: nat, lo: int, hi: int)
    requires k <= |t| && forall i | k <= i < |t| :: !(lo <= t[i] <= hi)
    ensures Outside(t, lo, hi) >= |t| - k
  {
    AllOutside(t[k..], lo, hi);
    OutsideConcat(t[..k], t[k..], lo, hi);
    assert t == t[..k] + t[k..];
  }

  /** With fewer than half of the prices outside the band, the middle ones are inside. */
  lemma MiddlesInBand(t: seq<int>, lo: int, hi: int)
    requires t != [] && forall i, j | 0 <= i < j < |t| :: t[i] <= t[j]
    requires 2 * Outside(t, lo, hi) < |t|
    ensures lo <= t[(|t| - 1) / 2] && t[|t| / 2] <= hi
  {
    var low, high := (|t| - 1) / 2, |t| / 2;
    if t[low] < lo {
      OutsidePrefix(t, low + 1, lo, hi);
    }
    if t[high] > hi {
      OutsideSuffix(t, high, lo, hi);
    }
  }

  /** The median survives any minority of arbitrary prices, for odd and even counts. */
  lemma MedianIsRobust(s: seq<int>, lo: int, hi: int)
    requires s != [] && 2 * Outside(s, lo, hi) < |s|
    ensures lo <= Median(s) <= hi
  {
    OutsideOfPermutation(s, Sorted(s), lo, hi);
    MiddleInBand(Sorted(s), lo, hi);
  }

  lemma MiddleInBand(t: seq<int>, lo: int, hi: int)
    requires t != [] && forall i, j | 0 <= i < j < |t| :: t[i] <= t[j]
    requires 2 * Outside(t, lo, hi) < |t|
    ensures lo <= Middle(t) <= hi
  {
    MiddlesInBand(t, lo, hi);
    assert |t| % 2 == 1 ==> (|t| - 1) / 2 == |t| / 2;
    assert |t| % 2 == 0 ==> (|t| - 1) / 2 == |t| / 2 - 1;
  }

  /** Two ascending sequences with the same elements are the same. */
  lemma {:induction false} SortedUnique(a: seq<int>, b: seq<int>)
    requires multiset(a) == multiset(b)
    requires forall i, j | 0 <= i < j < |a| :: a[i] <= a[j]
    requires forall i, j | 0 <= i < j < |b| :: b[i] <= b[j]
    ensures a == b
  {
    assert |a| == |multiset(a)| == |multiset(b)| == |b|;
    if a != [] {
      FirstIsLeast(a, b);
      FirstIsLeast(b, a);
      TailElements(a);
      TailElements(b);
      SortedUnique(a[1..], b[1..]);
      assert a == [a[0]] + a[1..] && b == [b[0]] + b[1..];
    }
  }

  lemma TailElements(s: seq<int>)
    requires s != []
    ensures multiset(s[1..]) == multiset(s) - multiset{s[0]}
  {
    assert s == [s[0]] + s[1..];
  }

  lemma FirstIsLeast(a: seq<int>, b: seq<int>)
    requires a != [] && b != [] && multiset(a) == multiset(b)
    requires forall i, j | 0 <= i < j < |a| :: a[i] <= a[j]
    ensures a[0] <= b[0]
  {
    assert b[0] in multiset(b);
    var i :| 0 <= i < |a| && a[i] == b[0];
  }

  lemma {:induction false} NoneOutside(s: seq<int>, lo: int, hi: int)
    requires forall i | 0 <= i < |s| :: lo <= s[i] <= hi
    ensures Outside(s, lo, hi) == 0
  {
    if s != [] {
      NoneOutside(s[1..], lo, hi);
    }
  }

  /** n prices at one level and n at a higher one. */
  function Halves(n: nat, low: int, high: int): (s: seq<int>)
    ensures |s| == 2 * n && forall i | 0 <= i < |s| :: s[i] == if i < n then low else high
  {
    seq(n, _ => low) + seq(n, _ => high)
  }

  lemma MedianOfHalves(n: nat, low: int, high: int)
    requires n > 0 && low <= high
    ensures Median(Halves(n, low, high)) == (low + high) / 2
  {
    var s := Halves(n, low, high);
    SortedUnique(s, Sorted(s));
    assert |s| % 2 == 0 && |s| / 2 == n;
  }

  lemma OutsideOfHalves(n: nat, low: int, high: int, lo: int, hi: int)
    requires lo <= low <= hi < high
    ensures Outside(Halves(n, low, high), lo, hi) == n
  {
    var s := Halves(n, low, high);
    assert s == s[..n] + s[n..];
    OutsideConcat(s[..n], s[n..], lo, hi);
    NoneOutside(s[..n], lo, hi);
    AllOutside(s[n..], lo, hi);
  }

  /** A strict minority is needed, for every even number of prices and every band: with exactly
      half of the prices outside, the median can be moved beyond any bound. */
  lemma HalfIsTooMany(n: nat, lo: int, hi: int, far: int) returns (s: seq<int>)
    requires n > 0 && 0 < lo <= hi
    ensures |s| == 2 * n && 2 * Outside(s, lo, hi) == |s| && Median(s) > hi && Median(s) > far
    ensures forall p | p in s :: p > 0
  {
    var high := if 2 * far + 2 - hi > hi + 2 then 2 * far + 2 - hi else hi + 2;
    s := Halves(n, hi, high);
    MedianOfHalves(n, hi, high);
    OutsideOfHalves(n, hi, high, lo, hi);
  }

  lemma MedianIsPositive(s: seq<int>)
    requires s != [] && forall x | x in s :: x > 0
    ensures Median(s) > 0
  {
    var t := Sorted(s);
    forall i | 0 <= i < |t| ensures t[i] > 0 {
      assert t[i] in multiset(t);
      assert t[i] in multiset(s);
      assert t[i] in s;
    }
    assert Middle(t) > 0;
  }

  // ---------------------------------------------------------------- specification

  function ValidOnes(reports: seq<Report>): seq<Observation> {
    if reports == [] then []
    else
      var rest, last := ValidOnes(reports[..|reports|-1]), reports[|reports|-1];
      if Usable(last) then rest + [Observation(last.price.value, last.block.value)] else rest
  }

  ghost predicate IsMaxBlock(obs: seq<Observation>, b: int) {
    (exists i :: 0 <= i < |obs| && obs[i].block == b) && forall i | 0 <= i < |obs| :: obs[i].block <= b
  }

  function FreshOnes(obs: seq<Observation>, maxBlock: int, lag: nat): seq<Observation> {
    if obs == [] then []
    else
      var rest, last := FreshOnes(obs[..|obs|-1], maxBlock, lag), obs[|obs|-1];
      if maxBlock - last.block <= lag then rest + [last] else rest
  }

  function Prices(obs: seq<Observation>): (ps: seq<int>)
    ensures |ps| == |obs| && forall i | 0 <= i < |obs| :: ps[i] == obs[i].price
  {
    seq(|obs|, i requires 0 <= i < |obs| => obs[i].price)
  }

  function AbsDiff(a: int, b: int): int { if a >= b then a - b else b - a }

  predicate Close(price: int, median: int, ratio: real)
    requires median > 0
  {
    AbsDiff(price, median) as real / median as real <= ratio
  }

  function ClosePrices(ps: seq<int>, median: int, ratio: real): seq<int>
    requires median > 0
  {
    if ps == [] then []
    else
      var rest, last := ClosePrices(ps[..|ps|-1], median, ratio), ps[|ps|-1];
      if Close(last, median, ratio) then rest + [last] else rest
  }

  /** The upper middle of the prices close to the median, when there are at least two. */
  function Agreed(prices: seq<int>, ratio: real): Option<int>
    requires prices != [] && Median(prices) > 0
  {
    var close := ClosePrices(prices, Median(prices), ratio);
    if |close| >= 2 then Some(Sorted(close)[|close| / 2]) else None
  }

  function Clamp(ratio: real): real { if ratio >= 0.0 then ratio else 0.0 }

  function Lag(maxBlockLag: int): nat { if maxBlockLag >= 0 then maxBlockLag else 0 }

  lemma {:induction false} ValidArePositive(reports: seq<Report>)
    ensures forall i | 0 <= i < |ValidOnes(reports)| :: ValidOnes(reports)[i].price > 0
  {
    if reports != [] {
      ValidArePositive(reports[..|reports|-1]);
    }
  }

  lemma {:induction false} FreshAreValid(obs: seq<Observation>, maxBlock: int, lag: nat)
    ensures forall o | o in FreshOnes(obs, maxBlock, lag) :: o in obs && maxBlock - o.block <= lag
    ensures forall o | o in obs && maxBlock - o.block <= lag :: o in FreshOnes(obs, maxBlock, lag)
  {
    if obs != [] {
      FreshAreValid(obs[..|obs|-1], maxBlock, lag);
      assert obs == obs[..|obs|-1] + [obs[|obs|-1]];
    }
  }

  lemma {:induction false} CloseAreClose(ps: seq<int>, median: int, ratio: real)
    requires median > 0
    ensures forall p | p in ClosePrices(ps, median, ratio) :: p in ps && Close(p, median, ratio)
    ensures forall p | p in ps && Close(p, median, ratio) :: p in ClosePrices(ps, median, ratio)
  {
    if ps != [] {
      CloseAreClose(ps[..|ps|-1], median, ratio);
      assert ps == ps[..|ps|-1] + [ps[|ps|-1]];
    }
  }

  // ---------------------------------------------------------------- the program

  /** A consensus exists exactly when at least two fresh prices are close to their median;
      the returned price is then the upper middle of the close prices. */
  method SelectConsensusGasPrice(reports: seq<Report>, maxBlockLag: int, agreementRatio: real)
    returns (price: Option<int>, recent: seq<Observation>)
    ensures ValidOnes(reports) == [] ==> recent == []
    ensures ValidOnes(reports) != [] ==>
              exists b :: IsMaxBlock(ValidOnes(reports), b)
                && recent == FreshOnes(ValidOnes(reports), b, Lag(maxBlockLag))
    ensures forall i | 0 <= i < |recent| :: recent[i].price > 0
    ensures |recent| < 2 ==> price.None?
    ensures LoneLeader(ValidOnes(reports), Lag(maxBlockLag)) ==> price.None?
    ensures |recent| >= 2 ==>
      && Median(Prices(recent)) > 0
      && price == Agreed(Prices(recent), Clamp(agreementRatio))
  {
    var valid: seq<Observation> := [];
    for n := 0 to |reports|
      invariant valid == ValidOnes(reports[..n])
    {
      assert reports[..n+1][..n] == reports[..n];
      var raw := reports[n];
      if raw.price.Some? && raw.block.Some? && raw.price.value > 0 && raw.block.value >= 0 {
        valid := valid + [Observation(raw.price.value, raw.block.value)];
      }
    }
    assert reports[..|reports|] == reports;
    if valid == [] {
      return None, [];
    }
    ValidArePositive(reports);
    var maxBlock := valid[0].block;
    for n := 1 to |valid|
      invariant IsMaxBlock(valid[..n], maxBlock)
    {
      assert valid[..n+1] == valid[..n] + [valid[n]];
      if valid[n].block > maxBlock {
        maxBlock := valid[n].block;
        assert valid[..n+1][n].block == maxBlock;
      } else {
        var i :| 0 <= i < n && valid[..n][i].block == maxBlock;
        assert valid[..n+1][i].block == maxBlock;
      }
    }
    assert valid[..|valid|] == valid;
    recent := [];
    for n := 0 to |valid|
      invariant recent == FreshOnes(valid[..n], maxBlock, Lag(maxBlockLag))
    {
      assert valid[..n+1][..n] == valid[..n];
      if maxBlock - valid[n].block <= Lag(maxBlockLag) {
        recent := recent + [valid[n]];
      }
    }
    FreshAreValid(valid, maxBlock, Lag(maxBlockLag));
    forall i | 0 <= i < |recent| ensures recent[i].price > 0 {
      assert recent[i] in recent;
    }
    if LoneLeader(valid, Lag(maxBlockLag)) {
      LoneLeaderLeavesOne(valid, maxBlock, Lag(maxBlockLag));
    }
    if |recent| < 2 {
      return None, recent;
    }
    var prices := Prices(recent);
    MedianIsPositive(prices);
    var median := Median(prices);
    var inliers := ClosePrices(prices, median, Clamp(agreementRatio));
    if |inliers| >= 2 {
      price := Some(Sorted(inliers)[|inliers| / 2]);
    } else {
      price := None;
    }
  }

  // ------------------------------------------------------------------ robustness

  /** Closeness to a median inside a band keeps a price inside the band widened by the ratio. */
  lemma CloseStaysNear(price: int, median: int, r: real, lo: int, hi: int)
    requires 0 <= lo <= median <= hi && median > 0 && price > 0 && r >= 0.0 && Close(price, median, r)
    ensures (1.0 - r) * lo as real <= price as real <= (1.0 + r) * hi as real
  {
    Band(price as real, median as real, AbsDiff(price, median) as real, r, lo as real, hi as real);
  }

  lemma Band(p: real, m: real, d: real, r: real, lo: real, hi: real)
    requires 0.0 <= lo <= m <= hi && m > 0.0 && p > 0.0 && r >= 0.0
    requires d / m <= r && m - d <= p <= m + d
    ensures (1.0 - r) * lo <= p <= (1.0 + r) * hi
  {
    DivideBound(d, m, r);
    Distribute(r, m);
    ScaleUp(1.0 + r, m, hi);
    LowerBound(1.0 - r, lo, m, p);
  }

  lemma LowerBound(k: real, lo: real, m: real, price: real)
    requires 0.0 <= lo <= m && price > 0.0 && price >= k * m
    ensures k * lo <= price
  {
    if k >= 0.0 {
      ScaleUp(k, lo, m);
    } else {
      NegativeScale(k, lo);
    }
  }

  lemma Distribute(r: real, m: real)
    ensures (1.0 + r) * m == m + r * m && (1.0 - r) * m == m - r * m
  {
  }

  lemma DivideBound(d: real, m: real, r: real)
    requires m > 0.0 && d / m <= r
    ensures d <= r * m
  {
    assert d == (d / m) * m;
    ScaleUp(m, d / m, r);
  }

  lemma ScaleUp(k: real, x: real, y: real)
    requires k >= 0.0 && x <= y
    ensures k * x <= k * y
  {
  }

  lemma NegativeScale(k: real, x: real)
    requires k <= 0.0 && x >= 0.0
    ensures k * x <= 0.0
  {
  }

  /** Main theorem: when fewer than half of the fresh prices lie outside [lo, hi], any
      consensus price is one of at least two observed close prices and lies in
      [(1-r)lo, (1+r)hi]. */
  lemma ConsensusIsRobust(recent: seq<Observation>, ratio: real, lo: int, hi: int)
    requires |recent| >= 2 && forall i | 0 <= i < |recent| :: recent[i].price > 0
    requires 0 <= lo <= hi && 2 * Outside(Prices(recent), lo, hi) < |recent|
    ensures Median(Prices(recent)) > 0 && lo <= Median(Prices(recent)) <= hi
    ensures Agreed(Prices(recent), Clamp(ratio)).Some? ==>
              InBand(Prices(recent), Agreed(Prices(recent), Clamp(ratio)).value, Clamp(ratio), lo, hi)
  {
    MedianIsPositive(Prices(recent));
    MedianIsRobust(Prices(recent), lo, hi);
    if Agreed(Prices(recent), Clamp(ratio)).Some? {
      ClosePriceIsNear(Prices(recent), Clamp(ratio), lo, hi);
    }
  }

  /** An observed price inside the widened band. */
  ghost predicate InBand(prices: seq<int>, p: int, r: real, lo: int, hi: int) {
    p in prices && (1.0 - r) * lo as real <= p as real <= (1.0 + r) * hi as real
  }

  lemma ClosePriceIsNear(prices: seq<int>, r: real, lo: int, hi: int)
    requires prices != [] && (forall x | x in prices :: x > 0) && Median(prices) > 0
    requires 0 <= lo <= Median(prices) <= hi && r >= 0.0 && Agreed(prices, r).Some?
    ensures InBand(prices, Agreed(prices, r).value, r, lo, hi)
  {
    var median, p := Median(prices), Agreed(prices, r).value;
    var close := ClosePrices(prices, median, r);
    assert p in multiset(Sorted(close));
    assert p in close;
    CloseAreClose(prices, median, r);
    CloseStaysNear(p, median, r, lo, hi);
  }

  /** Fail closed: one provider whose block is further ahead of all others than the lag
      makes every other observation stale, and then there is no consensus. */
  lemma {:induction false} LoneLeaderIsAlone(obs: seq<Observation>, leader: nat, lag: nat)
    requires leader < |obs|
    requires forall i | 0 <= i < |obs| && i != leader :: obs[leader].block - obs[i].block > lag
    ensures IsMaxBlock(obs, obs[leader].block)
    ensures FreshOnes(obs, obs[leader].block, lag) == [obs[leader]]
  {
    assert obs[leader].block == obs[leader].block;
    LoneLeaderFilter(obs, leader, obs[leader].block, lag);
  }

  /** One observation is further ahead of all others than the lag. */
  ghost predicate LoneLeader(obs: seq<Observation>, lag: nat) {
    exists leader :: 0 <= leader < |obs| && Leads(obs, leader, lag)
  }

  ghost predicate Leads(obs: seq<Observation>, leader: int, lag: nat)
    requires 0 <= leader < |obs|
  {
    forall i | 0 <= i < |obs| && i != leader :: obs[leader].block - obs[i].block > lag
  }

  lemma LoneLeaderLeavesOne(obs: seq<Observation>, b: int, lag: nat)
    requires LoneLeader(obs, lag) && IsMaxBlock(obs, b)
    ensures |FreshOnes(obs, b, lag)| == 1
  {
    var leader :| 0 <= leader < |obs| && Leads(obs, leader, lag);
    LoneLeaderIsAlone(obs, leader, lag);
    var i :| 0 <= i < |obs| && obs[i].block == b;
    assert obs[leader].block == b;
  }

  lemma {:induction false} LoneLeaderFilter(obs: seq<Observation>, leader: nat, b: int, lag: nat)
    requires forall i | 0 <= i < |obs| && i != leader :: b - obs[i].block > lag
    requires leader < |obs| ==> obs[leader].block == b
    ensures FreshOnes(obs, b, lag) == if leader < |obs| then [obs[leader]] else []
  {
    if obs != [] {
      LoneLeaderFilter(obs[..|obs|-1], leader, b, lag);
    }
  }
}
