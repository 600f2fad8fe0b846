/** The rotating first-leg scheduler, whose result is keyed by edge alone (arb_engine.py). */
module QuoteGroups {
  import opened Outcomes
  import opened QuoteCache
  import opened QuoteWaves

  // ---------------------------------------------------------------------- rotation

  function Offset(block: int, n: nat): (r: nat)
    requires n > 0
    ensures r < n
  {
    (if block > 0 then block else 0) % n
  }

  function Rotated<T>(groups: seq<T>, block: int): (r: seq<T>)
    ensures |r| == |groups| && multiset(r) == multiset(groups)
  {
    if groups == [] then []
    else
      var offset := Offset(block, |groups|);
      assert groups == groups[..offset] + groups[offset..];
      groups[offset..] + groups[..offset]
  }

  lemma OffsetHits(first: nat, n: nat, g: nat) returns (b: nat)
    requires g < n
    ensures first <= b < first + n && b % n == g
  {
    var q, r := first / n, first % n;
    assert first == q * n + r;
    b := if r <= g then q * n + g else q * n + n + g;
    assert b == (if r <= g then q else q + 1) * n + g;
    Remainder(if r <= g then q else q + 1, n, g);
  }

  lemma Multiples(n: int, d: int)
    requires n > 0
    ensures d >= 1 ==> n * d >= n
    ensures d <= -1 ==> n * d <= -n
  {
  }

  lemma Remainder(q: nat, n: nat, g: nat)
    requires g < n
    ensures (q * n + g) % n == g
  {
    var x := q * n + g;
    assert x == n * (x / n) + x % n;
    assert n * (x / n - q) == g - x % n;
    Multiples(n, x / n - q);
  }

  /** No group is starved: in any |groups| consecutive blocks every group comes first once. */
  lemma RotationServesEveryGroup<T>(groups: seq<T>, first: nat, g: nat) returns (block: nat)
    requires g < |groups|
    ensures first <= block < first + |groups| && Rotated(groups, block)[0] == groups[g]
  {
    block := OffsetHits(first, |groups|, g);
    assert Offset(block, |groups|) == g;
  }

  // ---------------------------------------------------------------------- counters

  datatype Tally = Tally(completed: nat, failed: nat, cancelled: nat)

  function TallyOf(env: Env, lo: nat, hi: nat): Tally
    requires lo <= hi
  {
    Tally(Count(env.endings, lo, hi, Completes),
          Count(env.endings, lo, hi, FailsSafely) + Count(env.endings, lo, hi, FailsOtherwise),
          Count(env.endings, lo, hi, Pending))
  }

  /** This scheduler passes on cancellation and whatever is not an ordinary exception. */
  ghost predicate NoneAborts(env: Env, lo: nat, hi: nat) {
    forall i: nat | lo <= i < hi :: env.endings(i) != Cancelled && env.endings(i) != Aborts
  }

  // ------------------------------------------------------------------ layers of quotes

  /** Maps written one over the other: later ones decide. */
  function Overlay(layer: nat -> QuoteMap, lo: nat, hi: nat, base: QuoteMap): QuoteMap
    requires lo <= hi
  {
    if lo == hi then base else Overlay(layer, lo, hi - 1, base) + layer(hi - 1)
  }

  lemma {:induction false} OverlaySplit(layer: nat -> QuoteMap, a: nat, b: nat, c: nat, base: QuoteMap)
    requires a <= b <= c
    ensures Overlay(layer, a, c, base) == Overlay(layer, b, c, Overlay(layer, a, b, base))
    decreases c
  {
    if b < c {
      OverlaySplit(layer, a, b, c - 1, base);
    }
  }

  lemma {:induction false} OverlayNothing(layer: nat -> QuoteMap, lo: nat, hi: nat, base: QuoteMap)
    requires lo <= hi && forall i: nat | lo <= i < hi :: layer(i) == map[]
    ensures Overlay(layer, lo, hi, base) == base
    decreases hi
  {
    if lo < hi {
      OverlayNothing(layer, lo, hi - 1, base);
    }
  }

  /** The last layer that has the key decides. */
  lemma {:induction false} OverlayAt(layer: nat -> QuoteMap, lo: nat, hi: nat, base: QuoteMap, k: EdgeKey, i: nat)
    requires lo <= i < hi && k in layer(i) && forall j: nat | i < j < hi :: k !in layer(j)
    ensures k in Overlay(layer, lo, hi, base) && Overlay(layer, lo, hi, base)[k] == layer(i)[k]
    decreases hi
  {
    if i < hi - 1 {
      OverlayAt(layer, lo, hi - 1, base, k, i);
    }
  }

  /** A key that no layer has is the base's. */
  lemma {:induction false} OverlayMisses(layer: nat -> QuoteMap, lo: nat, hi: nat, base: QuoteMap, k: EdgeKey)
    requires lo <= hi && forall j: nat | lo <= j < hi :: k !in layer(j)
    ensures k in Overlay(layer, lo, hi, base) <==> k in base
    ensures k in base ==> Overlay(layer, lo, hi, base)[k] == base[k]
    decreases hi
  {
    if lo < hi {
      OverlayMisses(layer, lo, hi - 1, base, k);
    }
  }

  /** The last of the layers lo..hi with the key, if there is one. */
  ghost function LastWith(layer: nat -> QuoteMap, lo: nat, hi: nat, k: EdgeKey): (r: Option<nat>)
    requires lo <= hi
    ensures r.Some? ==> lo <= r.value < hi && k in layer(r.value) && forall j: nat | r.value < j < hi :: k !in layer(j)
    ensures r.None? ==> forall j: nat | lo <= j < hi :: k !in layer(j)
  {
    if lo == hi then None else if k in layer(hi - 1) then Some(hi - 1) else LastWith(layer, lo, hi - 1, k)
  }

  /** What a completed group returned. */
  function Returns(p: Provider, block: Block, groups: seq<Job>, env: Env): nat -> QuoteMap {
    (i: nat) =>
      if i < |groups| && env.endings(i) == Completes
      then Alone(p, block, groups[i].amount, groups[i].edges) else map[]
  }

  /** Everything that is cached for a group's edges at its amount. */
  function CachedMap(data: Cached, g: Job): QuoteMap {
    map k | k in g.edges && Lookup(data, (k, g.amount)).Some? :: Lookup(data, (k, g.amount))
  }

  /** What is recovered for a group that was still running. */
  function Recovers(data: Cached, groups: seq<Job>, env: Env): nat -> QuoteMap {
    (i: nat) => if i < |groups| && env.endings(i) == Pending then CachedMap(data, groups[i]) else map[]
  }

  /** The quotes after the first n groups: the maps of completed groups in order, over them what
      is recovered for those that were still running. */
  ghost function Quotes(p: Provider, block: Block, data: Cached, groups: seq<Job>, env: Env, n: nat): QuoteMap {
    Overlay(Recovers(data, groups, env), 0, n, Overlay(Returns(p, block, groups, env), 0, n, map[]))
  }

  /** A wave over lo..hi adds its own layers, when nothing before it was still running. */
  lemma QuotesStep(p: Provider, block: Block, before: Cached, data: Cached, groups: seq<Job>, env: Env, lo: nat,
                   hi: nat)
    requires lo <= hi && NonePending(env, 0, lo)
    ensures Quotes(p, block, data, groups, env, hi)
         == Overlay(Recovers(data, groups, env), lo, hi,
                    Overlay(Returns(p, block, groups, env), lo, hi, Quotes(p, block, before, groups, env, lo)))
  {
    var base := Overlay(Returns(p, block, groups, env), 0, lo, map[]);
    OverlayNothing(Recovers(before, groups, env), 0, lo, base);
    OverlaySplit(Returns(p, block, groups, env), 0, lo, hi, map[]);
    var all := Overlay(Returns(p, block, groups, env), 0, hi, map[]);
    OverlaySplit(Recovers(data, groups, env), 0, lo, hi, all);
    OverlayNothing(Recovers(data, groups, env), 0, lo, all);
  }

  /** Which group an edge's quote comes from: the last running group with a cached quote for
      it, and otherwise the last completed group that lists it. */
  lemma LatestGroupDecides(p: Provider, block: Block, data: Cached, groups: seq<Job>, env: Env, n: nat, k: EdgeKey)
    requires n <= |groups| && Agree(p, block, data)
    ensures var quotes := Quotes(p, block, data, groups, env, n);
            var running, completed :=
                LastWith(Recovers(data, groups, env), 0, n, k), LastWith(Returns(p, block, groups, env), 0, n, k);
            && (k in quotes <==> running.Some? || completed.Some?)
            && (running.Some? ==> quotes[k] == Known(p, block, k, groups[running.value].amount))
            && (running.None? && completed.Some? ==> quotes[k] == Known(p, block, k, groups[completed.value].amount))
  {
    var done, running := Returns(p, block, groups, env), Recovers(data, groups, env);
    var base := Overlay(done, 0, n, map[]);
    match LastWith(running, 0, n, k) {
      case Some(i) => OverlayAt(running, 0, n, base, k, i);
      case None =>
        OverlayMisses(running, 0, n, base, k);
        match LastWith(done, 0, n, k) {
          case Some(i) => OverlayAt(done, 0, n, map[], k, i);
          case None => OverlayMisses(done, 0, n, map[], k);
        }
    }
  }

  /** Every entry is the services' answer for some group before n that lists the edge, at that
      group's amount. */
  ghost predicate Heard(p: Provider, block: Block, groups: seq<Job>, n: nat, quotes: QuoteMap)
    requires n <= |groups|
  {
    forall k | k in quotes :: exists i: nat :: HeardFrom(p, block, groups, n, quotes[k], k, i)
  }

  ghost predicate HeardFrom(p: Provider, block: Block, groups: seq<Job>, n: nat, quote: Option<Quote>, k: EdgeKey,
                            i: nat)
    requires n <= |groups|
  {
    i < n && k in groups[i].edges && quote == Known(p, block, k, groups[i].amount)
  }

  lemma QuotesAreHeard(p: Provider, block: Block, data: Cached, groups: seq<Job>, env: Env, n: nat)
    requires n <= |groups| && Agree(p, block, data)
    ensures Heard(p, block, groups, n, Quotes(p, block, data, groups, env, n))
  {
    var quotes := Quotes(p, block, data, groups, env, n);
    forall k | k in quotes ensures exists i: nat :: HeardFrom(p, block, groups, n, quotes[k], k, i) {
      LatestGroupDecides(p, block, data, groups, env, n, k);
      var running := LastWith(Recovers(data, groups, env), 0, n, k);
      var i := if running.Some? then running.value else LastWith(Returns(p, block, groups, env), 0, n, k).value;
      assert HeardFrom(p, block, groups, n, quotes[k], k, i);
    }
  }

  /** The edges of completed groups are all there, and so is every quote that the finished
      families of a running group have given. */
  ghost predicate Retained(p: Provider, block: Block, groups: seq<Job>, env: Env, n: nat, quotes: QuoteMap)
    requires n <= |groups|
  {
    forall i: nat, k | i < n && k in groups[i].edges
        && Given(p, block, groups[i], env.endings(i), env.progress(i), k) :: k in quotes
  }

  ghost predicate Given(p: Provider, block: Block, g: Job, ending: Ending, upto: nat, k: EdgeKey) {
    match ending
    case Completes => true
    case Pending => Servable(p, k, g.amount) && p.family(k) < upto && Known(p, block, k, g.amount).Some?
    case _ => false
  }

  lemma QuotesAreRetained(p: Provider, block: Block, data: Cached, groups: seq<Job>, env: Env, n: nat)
    requires n <= |groups| && Agree(p, block, data) && RunningCached(p, data, groups, env, n)
    ensures Retained(p, block, groups, env, n, Quotes(p, block, data, groups, env, n))
  {
    forall i: nat, k | i < n && k in groups[i].edges && Given(p, block, groups[i], env.endings(i), env.progress(i), k)
      ensures k in Quotes(p, block, data, groups, env, n)
    {
      LatestGroupDecides(p, block, data, groups, env, n, k);
      if env.endings(i) == Completes {
        assert k in Returns(p, block, groups, env)(i);
      } else {
        assert JobCached(p, data, groups[i], env.progress(i));
        assert k in Recovers(data, groups, env)(i);
      }
    }
  }

  ghost predicate RunningCached(p: Provider, data: Cached, groups: seq<Job>, env: Env, n: nat)
    requires n <= |groups|
  {
    forall i: nat | i < n && env.endings(i) == Pending :: JobCached(p, data, groups[i], env.progress(i))
  }

  // ----------------------------------------------------------------------- one wave

  /** The quotes and counters when the finished groups lo..hi have been consumed. */
  ghost predicate Consumed(p: Provider, block: Block, groups: seq<Job>, env: Env, lo: nat, hi: nat, before: QuoteMap,
                           quotes: QuoteMap, completed: nat, failed: nat)
    requires lo <= hi
  {
    && NoneAborts(env, lo, hi)
    && quotes == Overlay(Returns(p, block, groups, env), lo, hi, before)
    && completed == Count(env.endings, lo, hi, Completes)
    && failed == Count(env.endings, lo, hi, FailsSafely) + Count(env.endings, lo, hi, FailsOtherwise)
  }

  lemma ConsumedNext(p: Provider, block: Block, groups: seq<Job>, env: Env, lo: nat, i: nat, before: QuoteMap,
                     quotes: QuoteMap, completed: nat, failed: nat)
    requires lo <= i < |groups| && Consumed(p, block, groups, env, lo, i, before, quotes, completed, failed)
    ensures env.endings(i) == Completes ==>
              Consumed(p, block, groups, env, lo, i + 1, before,
                       quotes + Alone(p, block, groups[i].amount, groups[i].edges),
                       completed + 1, failed)
    ensures env.endings(i) in {FailsSafely, FailsOtherwise} ==>
              Consumed(p, block, groups, env, lo, i + 1, before, quotes, completed, failed + 1)
    ensures env.endings(i) == Pending ==> Consumed(p, block, groups, env, lo, i + 1, before, quotes, completed, failed)
  {
    CountNext(env.endings, lo, i, Completes);
    CountNext(env.endings, lo, i, FailsSafely);
    CountNext(env.endings, lo, i, FailsOtherwise);
    assert env.endings(i) != Completes ==> quotes + Returns(p, block, groups, env)(i) == quotes;
  }

  /** Consumes the finished groups of the wave lo..hi. */
  method ConsumeResults(ghost p: Provider, ghost block: Block, groups: seq<Job>, lo: nat, hi: nat, env: Env,
                        maps: seq<Option<QuoteMap>>, before: QuoteMap)
    returns (out: Outcome<(QuoteMap, nat, nat)>)
    requires MapsOf(p, block, groups, env, lo, hi, maps)
    ensures out.Returned? <==> NoneAborts(env, lo, hi)
    ensures out.Returned? ==> Consumed(p, block, groups, env, lo, hi, before, out.value.0, out.value.1, out.value.2)
  {
    var quotes, completed, failed := before, 0, 0;
    for i := lo to hi
      invariant Consumed(p, block, groups, env, lo, i, before, quotes, completed, failed)
    {
      ConsumedNext(p, block, groups, env, lo, i, before, quotes, completed, failed);
      match env.endings(i)
      case Pending =>
      case Cancelled => return Raised;
      case Aborts => return Raised;
      case Completes => quotes, completed := quotes + maps[i - lo].value, completed + 1;
      case _ => failed := failed + 1;
    }
    out := Returned((quotes, completed, failed));
  }

  /** Recovers the cached successes of one cancelled group. */
  method RecoverGroup(cache: PerBlockCache, g: Job) returns (found: QuoteMap)
    ensures found == CachedMap(cache.data, g)
  {
    found := map[];
    for j := 0 to |g.edges|
      invariant forall k :: k in found <==> k in g.edges[..j] && Lookup(cache.data, (k, g.amount)).Some?
      invariant forall k | k in found :: found[k] == Lookup(cache.data, (k, g.amount))
    {
      var cached := cache.Get((g.edges[j], g.amount));
      if cached.Some? {
        found := found[g.edges[j] := cached];
      }
    }
    assert g.edges[..|g.edges|] == g.edges;
  }

  method RecoverPending(cache: PerBlockCache, groups: seq<Job>, lo: nat, hi: nat, env: Env, before: QuoteMap)
    returns (quotes: QuoteMap, pending: nat)
    requires lo <= hi <= |groups|
    ensures quotes == Overlay(Recovers(cache.data, groups, env), lo, hi, before)
    ensures pending == Count(env.endings, lo, hi, Pending)
    ensures pending == 0 <==> NonePending(env, lo, hi)
  {
    quotes, pending := before, 0;
    for i := lo to hi
      invariant quotes == Overlay(Recovers(cache.data, groups, env), lo, i, before)
      invariant pending == Count(env.endings, lo, i, Pending)
    {
      CountNext(env.endings, lo, i, Pending);
      if env.endings(i) == Pending {
        pending := pending + 1;
        var found := RecoverGroup(cache, groups[i]);
        quotes := quotes + found;
      }
    }
    NoneCounted(env.endings, lo, hi, Pending);
  }

  /** What a wave over lo..hi makes of the quotes, and its counters. */
  ghost predicate GroupWaveDone(p: Provider, block: Block, data: Cached, groups: seq<Job>, env: Env, lo: nat, hi: nat,
                                before: QuoteMap, w: (QuoteMap, Tally))
    requires lo <= hi <= |groups|
  {
    && NoneAborts(env, lo, hi)
    && w.1 == TallyOf(env, lo, hi)
    && (w.1.cancelled == 0 <==> NonePending(env, lo, hi))
    && w.0 == Overlay(Recovers(data, groups, env), lo, hi, Overlay(Returns(p, block, groups, env), lo, hi, before))
    && ProgressCached(p, data, groups, env, lo, hi)
  }

  method RunGroupWave(p: Provider, cache: PerBlockCache, ghost block: Block, groups: seq<Job>, lo: nat, hi: nat,
                      env: Env, before: QuoteMap) returns (out: Outcome<(QuoteMap, Tally)>)
    requires lo <= hi <= |groups| && cache.key == Some(block) && cache.Sound(p) && Truthful(p, block, env)
    modifies cache`data
    ensures cache.Sound(p)
    ensures out.Returned? <==> NoneAborts(env, lo, hi)
    ensures out.Returned? ==> GroupWaveDone(p, block, cache.data, groups, env, lo, hi, before, out.value)
  {
    var maps := RunWave(p, cache, block, groups, lo, hi, env);
    var consumed := ConsumeResults(p, block, groups, lo, hi, env, maps, before);
    if consumed.Raised? {
      return Raised;
    }
    var quotes, pending := RecoverPending(cache, groups, lo, hi, env, consumed.value.0);
    out := Returned((quotes, Tally(consumed.value.1, consumed.value.2, pending)));
  }

  // ---------------------------------------------------------------------- the scheduler

  datatype GroupProgress = GroupProgress(cursor: nat, quotes: QuoteMap, tally: Tally, waves: seq<Wave>, tick: nat,
                                         stop: bool, stoppedAt: Option<nat>)

  /** The clock is read again after every wave but the last: a later wave starts only when that
      reading, too, was before the deadline. */
  ghost predicate Rechecked(clock: nat -> real, deadline: real, waves: seq<Wave>) {
    |waves| <= 1 ||
    var n := |waves| - 1;
    Rechecked(clock, deadline, waves[..n]) && InTime(clock, deadline, waves[n-1].tick, waves[n].tick)
  }

  /** A reading between two others that was before the deadline. */
  ghost predicate InTime(clock: nat -> real, deadline: real, tick: nat, later: nat) {
    tick + 2 < later && clock(tick + 2) < deadline
  }

  ghost predicate GroupWavesKept(env: Env, total: nat, y: Policy, st: GroupProgress) {
    && WavesOk(env.clock, total, y, st.waves) && After(st.waves, st.tick)
    && Rechecked(env.clock, y.deadline, st.waves)
    && !LateWave(st.waves, y.deadline)
    && Jobs(st.waves) == st.cursor
    && (!st.stop && st.cursor < total && st.waves != [] ==>
          InTime(env.clock, y.deadline, st.waves[|st.waves|-1].tick, st.tick))
  }

  /** The quotes and counters after the first `cursor` groups of the rotation. */
  ghost predicate GroupsReported(p: Provider, block: Block, data: Cached, groups: seq<Job>, env: Env, cursor: nat,
                                 quotes: QuoteMap, tally: Tally)
    requires cursor <= |groups|
  {
    && NoneAborts(env, 0, cursor)
    && tally == TallyOf(env, 0, cursor)
    && quotes == Quotes(p, block, data, groups, env, cursor)
    && RunningCached(p, data, groups, env, cursor)
  }

  /** What holds when the first `cursor` groups of the rotation have been dispatched. */
  ghost predicate Dispatched(p: Provider, block: Block, data: Cached, groups: seq<Job>, env: Env, y: Policy,
                             st: GroupProgress) {
    && st.cursor <= |groups|
    && GroupsReported(p, block, data, groups, env, st.cursor, st.quotes, st.tally)
    && GroupWavesKept(env, |groups|, y, st)
    && StopOk(env, y, st.cursor, st.waves, st.stop, st.stoppedAt)
  }

  function Sum(a: Tally, b: Tally): Tally {
    Tally(a.completed + b.completed, a.failed + b.failed, a.cancelled + b.cancelled)
  }

  /** Three more readings of the clock: one to start, one to wait, one after the wave. */
  function AfterGroupWave(st: GroupProgress, now: real, hi: nat, w: (QuoteMap, Tally), late: bool): GroupProgress
    requires st.cursor <= hi
  {
    GroupProgress(hi, w.0, Sum(st.tally, w.1), st.waves + [Wave(st.tick, now, hi - st.cursor)], st.tick + 3,
                  w.1.cancelled > 0 || late, if w.1.cancelled == 0 && late then Some(st.tick + 2) else None)
  }

  lemma TallySplit(env: Env, lo: nat, hi: nat)
    requires lo <= hi
    ensures TallyOf(env, 0, hi) == Sum(TallyOf(env, 0, lo), TallyOf(env, lo, hi))
  {
    CountSplit(env.endings, 0, lo, hi, Completes);
    CountSplit(env.endings, 0, lo, hi, FailsSafely);
    CountSplit(env.endings, 0, lo, hi, FailsOtherwise);
    CountSplit(env.endings, 0, lo, hi, Pending);
  }

  lemma GroupsReportedStep(p: Provider, block: Block, before: Cached, data: Cached, groups: seq<Job>, env: Env, lo: nat,
                           hi: nat, quotes: QuoteMap, tally: Tally, w: (QuoteMap, Tally))
    requires lo <= hi <= |groups| && GroupsReported(p, block, before, groups, env, lo, quotes, tally)
    requires NonePending(env, 0, lo) && GroupWaveDone(p, block, data, groups, env, lo, hi, quotes, w)
    ensures GroupsReported(p, block, data, groups, env, hi, w.0, Sum(tally, w.1))
  {
    TallySplit(env, lo, hi);
    QuotesStep(p, block, before, data, groups, env, lo, hi);
  }

  /** The wave that the loop starts. */
  ghost predicate GroupPlanned(env: Env, total: nat, y: Policy, st: GroupProgress, now: real, hi: nat) {
    && st.cursor < hi <= total && !y.allowOne
    && hi - st.cursor == (if total - st.cursor <= y.limit then total - st.cursor else y.limit)
    && now == env.clock(st.tick) && now < y.deadline
  }

  lemma GroupWavesStep(env: Env, total: nat, y: Policy, st: GroupProgress, now: real, hi: nat)
    requires GroupWavesKept(env, total, y, st) && !st.stop && GroupPlanned(env, total, y, st, now, hi)
    ensures WavesOk(env.clock, total, y, st.waves + [Wave(st.tick, now, hi - st.cursor)])
    ensures Rechecked(env.clock, y.deadline, st.waves + [Wave(st.tick, now, hi - st.cursor)])
    ensures !LateWave(st.waves + [Wave(st.tick, now, hi - st.cursor)], y.deadline)
    ensures Jobs(st.waves + [Wave(st.tick, now, hi - st.cursor)]) == hi
  {
    var w := Wave(st.tick, now, hi - st.cursor);
    WavesStep(env.clock, total, y, st.waves, w);
    assert (st.waves + [w])[..|st.waves|] == st.waves;
  }

  lemma GroupWavesNext(env: Env, total: nat, y: Policy, st: GroupProgress, now: real, hi: nat, w: (QuoteMap, Tally),
                       late: bool, next: GroupProgress)
    requires GroupWavesKept(env, total, y, st) && !st.stop && GroupPlanned(env, total, y, st, now, hi)
    requires late <==> hi < total && env.clock(st.tick + 2) >= y.deadline
    requires next == AfterGroupWave(st, now, hi, w, late)
    ensures GroupWavesKept(env, total, y, next)
  {
    GroupWavesStep(env, total, y, st, now, hi);
  }

  lemma GroupStopStep(env: Env, total: nat, y: Policy, st: GroupProgress, now: real, hi: nat, w: (QuoteMap, Tally),
                      late: bool, next: GroupProgress)
    requires NonePending(env, 0, st.cursor) && GroupPlanned(env, total, y, st, now, hi)
    requires w.1.cancelled == 0 <==> NonePending(env, st.cursor, hi)
    requires late ==> env.clock(st.tick + 2) >= y.deadline
    requires next == AfterGroupWave(st, now, hi, w, late)
    ensures StopOk(env, y, next.cursor, next.waves, next.stop, next.stoppedAt)
  {
  }

  lemma DispatchedStep(p: Provider, block: Block, before: Cached, data: Cached, groups: seq<Job>, env: Env, y: Policy,
                       st: GroupProgress, now: real, hi: nat, w: (QuoteMap, Tally), late: bool, next: GroupProgress)
    requires Dispatched(p, block, before, groups, env, y, st) && !st.stop && GroupPlanned(env, |groups|, y, st, now, hi)
    requires GroupWaveDone(p, block, data, groups, env, st.cursor, hi, st.quotes, w)
    requires late <==> hi < |groups| && env.clock(st.tick + 2) >= y.deadline
    requires next == AfterGroupWave(st, now, hi, w, late)
    ensures Dispatched(p, block, data, groups, env, y, next)
  {
    GroupsReportedStep(p, block, before, data, groups, env, st.cursor, hi, st.quotes, st.tally, w);
    GroupWavesNext(env, |groups|, y, st, now, hi, w, late, next);
    GroupStopStep(env, |groups|, y, st, now, hi, w, late, next);
  }

  datatype Report = Report(quotes: QuoteMap, tally: Tally, skipped: nat, stoppedAt: Option<nat>)

  /** What a returned report means, over the rotated groups. */
  ghost predicate ReportOk(p: Provider, block: Block, data: Cached, groups: seq<Job>, env: Env, y: Policy,
                           waves: seq<Wave>, r: Report) {
    var n := |groups| - r.skipped;
    && n >= 0 && Jobs(waves) == n
    && r.tally == TallyOf(env, 0, n)
    && r.tally.completed + r.tally.failed + r.tally.cancelled + r.skipped == |groups|
    && r.quotes == Quotes(p, block, data, groups, env, n)
    && Heard(p, block, groups, n, r.quotes) && Retained(p, block, groups, env, n, r.quotes)
    && (waves != [] ==> NonePending(env, 0, n - waves[|waves|-1].size))
    && (r.skipped > 0 ==> StopReason(env, y, n, waves, r.stoppedAt))
  }

  lemma TallyCoversAll(env: Env, n: nat)
    requires NoneAborts(env, 0, n)
    ensures var c := TallyOf(env, 0, n); c.completed + c.failed + c.cancelled == n
  {
    CountsCoverAll(env.endings, 0, n);
    NoneCounted(env.endings, 0, n, Cancelled);
    NoneCounted(env.endings, 0, n, Aborts);
  }

  lemma DispatchedEnd(p: Provider, block: Block, data: Cached, groups: seq<Job>, env: Env, y: Policy, st: GroupProgress)
    requires Dispatched(p, block, data, groups, env, y, st) && (st.stop || st.cursor == |groups|)
        && Agree(p, block, data)
    ensures ReportOk(p, block, data, groups, env, y, st.waves,
                     Report(st.quotes, st.tally, |groups| - st.cursor, st.stoppedAt))
  {
    TallyCoversAll(env, st.cursor);
    QuotesAreHeard(p, block, data, groups, env, st.cursor);
    QuotesAreRetained(p, block, data, groups, env, st.cursor);
  }

  method StartGroupWave(p: Provider, cache: PerBlockCache, ghost block: Block, groups: seq<Job>, y: Policy, env: Env,
                        st: GroupProgress, now: real, hi: nat) returns (out: Outcome<GroupProgress>)
    requires cache.key == Some(block) && cache.Sound(p) && Truthful(p, block, env)
    requires Dispatched(p, block, cache.data, groups, env, y, st) && !st.stop
        && GroupPlanned(env, |groups|, y, st, now, hi)
    modifies cache`data
    ensures cache.Sound(p)
    ensures out.Returned? ==> Dispatched(p, block, cache.data, groups, env, y, out.value)
    ensures out.Returned? ==> out.value.cursor == hi
    ensures out.Raised? ==> !NoneAborts(env, st.cursor, hi)
  {
    ghost var before := cache.data;
    var wave := RunGroupWave(p, cache, block, groups, st.cursor, hi, env, st.quotes);
    if wave.Raised? {
      return Raised;
    }
    var late := hi < |groups| && env.clock(st.tick + 2) >= y.deadline;
    var next := AfterGroupWave(st, now, hi, wave.value, late);
    DispatchedStep(p, block, before, cache.data, groups, env, y, st, now, hi, wave.value, late, next);
    out := Returned(next);
  }

  lemma DispatchedStop(p: Provider, block: Block, data: Cached, groups: seq<Job>, env: Env, y: Policy,
                       st: GroupProgress)
    requires Dispatched(p, block, data, groups, env, y, st) && env.clock(st.tick) >= y.deadline && !y.allowOne
    ensures Dispatched(p, block, data, groups, env, y, st.(stop := true, stoppedAt := Some(st.tick)))
  {
  }

  /** All waves start on a reading before the deadline, and go on after one. */
  ghost predicate GroupWavesOk(env: Env, total: nat, y: Policy, waves: seq<Wave>) {
    WavesOk(env.clock, total, y, waves) && Rechecked(env.clock, y.deadline, waves) && !LateWave(waves, y.deadline)
  }

  /** A wave whose outcome leaves the scheduler was started like any other. */
  lemma LastGroupWave(env: Env, total: nat, y: Policy, st: GroupProgress, now: real, hi: nat, waves: seq<Wave>)
    requires GroupWavesKept(env, total, y, st) && !st.stop && GroupPlanned(env, total, y, st, now, hi)
    requires waves == st.waves + [Wave(st.tick, now, hi - st.cursor)]
    ensures GroupWavesOk(env, total, y, waves)
  {
    GroupWavesStep(env, total, y, st, now, hi);
  }

  function GroupWaveEnd(cursor: nat, total: nat, limit: nat): (hi: nat)
    requires cursor < total && 1 <= limit
    ensures cursor < hi <= total && hi - cursor == (if total - cursor <= limit then total - cursor else limit)
  {
    if cursor + limit <= total then cursor + limit else total
  }

  /** One round: nothing is started at or after the deadline. */
  method NextGroupWave(p: Provider, cache: PerBlockCache, ghost block: Block, groups: seq<Job>, y: Policy, env: Env,
                       st: GroupProgress) returns (out: Outcome<GroupProgress>, waves: seq<Wave>)
    requires cache.key == Some(block) && cache.Sound(p) && Truthful(p, block, env) && 1 <= y.limit && !y.allowOne
    requires Dispatched(p, block, cache.data, groups, env, y, st) && !st.stop && st.cursor < |groups|
    modifies cache`data
    ensures cache.Sound(p)
    ensures out.Returned? ==> Dispatched(p, block, cache.data, groups, env, y, out.value) && waves == out.value.waves
    ensures out.Returned? ==> out.value.cursor >= st.cursor && (out.value.stop || out.value.cursor > st.cursor)
    ensures out.Raised? ==> !NoneAborts(env, 0, |groups|) && GroupWavesOk(env, |groups|, y, waves)
  {
    var now := env.clock(st.tick);
    if now >= y.deadline {
      DispatchedStop(p, block, cache.data, groups, env, y, st);
      return Returned(st.(stop := true, stoppedAt := Some(st.tick))), st.waves;
    }
    var hi := GroupWaveEnd(st.cursor, |groups|, y.limit);
    var step := StartGroupWave(p, cache, block, groups, y, env, st, now, hi);
    if step.Raised? {
      waves := st.waves + [Wave(st.tick, now, hi - st.cursor)];
      LastGroupWave(env, |groups|, y, st, now, hi, waves);
      return Raised, waves;
    }
    out, waves := step, step.value.waves;
  }

  /** Main theorem of the group scheduler, for every pattern of endings and clock readings.
      When the call returns, completed, failed, cancelled and skipped groups add up to all of
      them; waves have at most four groups and start on readings before the deadline; groups are
      skipped only after a running group or a reading past the deadline, taken after the last
      wave; the quotes are those of the completed groups with what is cached for the running
      ones over them, each true for an amount it was asked at. */
  method QuoteEdgeGroupsInBoundedWaves(p: Provider, cache: PerBlockCache, ghost block: Block, edgeGroups: seq<Job>,
                                       deadline: real, blockNumber: int, parallelism: int, env: Env)
    returns (out: Outcome<Report>, waves: seq<Wave>)
    requires cache.key == Some(block) && cache.Sound(p) && Truthful(p, block, env)
    modifies cache`data
    ensures cache.Sound(p)
    ensures GroupWavesOk(env, |edgeGroups|, Policy(deadline, Clamp(parallelism), false), waves)
    ensures out.Returned? ==> ReportOk(p, block, cache.data, Rotated(edgeGroups, blockNumber), env,
                                       Policy(deadline, Clamp(parallelism), false), waves, out.value)
    ensures out.Raised? ==> !NoneAborts(env, 0, |edgeGroups|)
  {
    var ordered := Rotated(edgeGroups, blockNumber);
    var y := Policy(deadline, Clamp(parallelism), false);
    var st := GroupProgress(0, map[], Tally(0, 0, 0), [], 0, false, None);
    while st.cursor < |ordered| && !st.stop
      invariant cache.Sound(p)
      invariant Dispatched(p, block, cache.data, ordered, env, y, st)
      decreases |ordered| - st.cursor, if st.stop then 0 else 1
    {
      var step, started := NextGroupWave(p, cache, block, ordered, y, env, st);
      if step.Raised? {
        return Raised, started;
      }
      st := step.value;
    }
    DispatchedEnd(p, block, cache.data, ordered, env, y, st);
    waves := st.waves;
    out := Returned(Report(st.quotes, st.tally, |ordered| - st.cursor, st.stoppedAt));
  }
}
