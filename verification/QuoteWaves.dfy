/** Deadline-bounded quote waves and request coalescing (arb_engine.py).

    The environment is arbitrary: how each started job ends and how far it gets, what
    concurrent jobs write to the cache, and every clock reading. */
module QuoteWaves {
  import opened Outcomes
  import opened QuoteCache

  // ------------------------------------------------------------------ environment

  /** How a started job stands when its wave stops waiting: returned its map, raised an
      exception the scheduler handles, raised another exception, raised something that is not
      an ordinary exception, was found cancelled, or was still running and is cancelled. */
  datatype Ending = Completes | FailsSafely | FailsOtherwise | Aborts | Cancelled | Pending

  datatype Env = Env(endings: nat -> Ending, progress: nat -> nat, others: (nat, nat) -> map<CacheKey, Option<Quote>>,
                     clock: nat -> real)

  ghost predicate Truthful(p: Provider, block: Block, env: Env) {
    forall j, f :: Agree(p, block, env.others(j, f))
  }

  ghost predicate NonDecreasing(clock: nat -> real) {
    forall i: nat, j: nat :: i <= j ==> clock(i) <= clock(j)
  }

  /** The number of the jobs lo..hi that end in a given way. */
  function Count(endings: nat -> Ending, lo: nat, hi: nat, e: Ending): (n: nat)
    requires lo <= hi
    ensures n <= hi - lo
  {
    if lo == hi then 0 else Count(endings, lo, hi - 1, e) + (if endings(hi - 1) == e then 1 else 0)
  }

  lemma CountNext(endings: nat -> Ending, lo: nat, i: nat, e: Ending)
    requires lo <= i
    ensures Count(endings, lo, i + 1, e) == Count(endings, lo, i, e) + (if endings(i) == e then 1 else 0)
  {
  }

  lemma {:induction false} CountSplit(endings: nat -> Ending, a: nat, b: nat, c: nat, e: Ending)
    requires a <= b <= c
    ensures Count(endings, a, c, e) == Count(endings, a, b, e) + Count(endings, b, c, e)
    decreases c
  {
    if b < c {
      CountSplit(endings, a, b, c - 1, e);
    }
  }

  /** Every job ends in one of the six ways. */
  lemma {:induction false} CountsCoverAll(endings: nat -> Ending, lo: nat, hi: nat)
    requires lo <= hi
    ensures Count(endings, lo, hi, Completes) + Count(endings, lo, hi, FailsSafely)
          + Count(endings, lo, hi, FailsOtherwise) + Count(endings, lo, hi, Aborts)
          + Count(endings, lo, hi, Cancelled) + Count(endings, lo, hi, Pending) == hi - lo
    decreases hi
  {
    if lo < hi {
      CountsCoverAll(endings, lo, hi - 1);
    }
  }

  lemma {:induction false} NoneCounted(endings: nat -> Ending, lo: nat, hi: nat, e: Ending)
    requires lo <= hi
    ensures Count(endings, lo, hi, e) == 0 <==> forall i: nat | lo <= i < hi :: endings(i) != e
    decreases hi
  {
    if lo < hi {
      NoneCounted(endings, lo, hi - 1, e);
    }
  }

  // -------------------------------------------------------------------- signatures

  /** Equal sorted tuples of edge keys are equal multisets. */
  datatype Signature = Signature(amount: int, keys: multiset<EdgeKey>)

  datatype Job = Job(signature: Signature, amount: int, edges: seq<EdgeKey>)

  type Results = map<Signature, QuoteMap>

  function Sign(amount: int, edges: seq<EdgeKey>): Signature { Signature(amount, multiset(edges)) }

  /** What the callers pass: one job for each signature. */
  ghost predicate UniqueJobs(jobs: seq<Job>) {
    && (forall i | 0 <= i < |jobs| :: jobs[i].signature == Sign(jobs[i].amount, jobs[i].edges))
    && (forall i, j | 0 <= i < j < |jobs| :: jobs[i].signature != jobs[j].signature)
  }

  /** What quoting edges on their own gives. */
  function Alone(p: Provider, block: Block, amount: int, edges: seq<EdgeKey>): QuoteMap {
    Expected(p, block, Keys(edges), amount)
  }

  /** Requests that share a signature share their map, in whatever order their edges are listed. */
  lemma SignatureDecidesTheMap(p: Provider, block: Block, amount: int, a: seq<EdgeKey>, b: seq<EdgeKey>)
    requires Sign(amount, a) == Sign(amount, b)
    ensures Alone(p, block, amount, a) == Alone(p, block, amount, b)
  {
    forall k ensures k in a <==> k in b {
      assert k in a <==> k in multiset(a);
      assert k in b <==> k in multiset(b);
    }
    assert Keys(a) == Keys(b);
  }

  /** An entry agrees with the services at exactly the amount and edges of its signature. */
  ghost predicate TrueFor(p: Provider, block: Block, s: Signature, entry: QuoteMap) {
    forall k | k in entry :: k in s.keys && entry[k] == Known(p, block, k, s.amount)
  }

  ghost predicate Trustworthy(p: Provider, block: Block, results: Results) {
    forall s | s in results :: TrueFor(p, block, s, results[s])
  }

  lemma PartialIsTrue(p: Provider, block: Block, j: Job, entry: QuoteMap)
    requires Partial(p, block, j.edges, j.amount, entry) && j.signature == Sign(j.amount, j.edges)
    ensures TrueFor(p, block, j.signature, entry)
  {
  }

  ghost predicate Kept(p: Provider, block: Block, results: Results, j: Job) {
    j.signature in results && results[j.signature] == Alone(p, block, j.amount, j.edges)
  }

  // ---------------------------------------------------------------------- one wave

  type Cached = map<CacheKey, Option<Quote>>

  /** What a job returns. */
  function MapOfJob(p: Provider, block: Block, j: Job, ending: Ending): Option<QuoteMap> {
    if ending == Completes then Some(Alone(p, block, j.amount, j.edges)) else None
  }

  /** What the jobs lo..hi return. */
  ghost predicate MapsOf(p: Provider, block: Block, jobs: seq<Job>, env: Env, lo: nat, hi: nat,
                         maps: seq<Option<QuoteMap>>) {
    && lo <= hi <= |jobs| && |maps| == hi - lo
    && forall i | lo <= i < hi :: maps[i - lo] == MapOfJob(p, block, jobs[i], env.endings(i))
  }

  /** Runs the jobs lo..hi of a wave; a job that does not complete leaves no map, but the
      answers of every family that it finished are cached. */
  method RunWave(p: Provider, cache: PerBlockCache, ghost block: Block, jobs: seq<Job>, lo: nat, hi: nat, env: Env)
    returns (maps: seq<Option<QuoteMap>>)
    requires lo <= hi <= |jobs|
    requires cache.key == Some(block) && cache.Sound(p) && Truthful(p, block, env)
    modifies cache`data
    ensures cache.Sound(p)
    ensures MapsOf(p, block, jobs, env, lo, hi, maps)
    ensures ProgressCached(p, cache.data, jobs, env, lo, hi)
  {
    maps := [];
    for i := lo to hi
      invariant cache.Sound(p) && MapsOf(p, block, jobs, env, lo, i, maps)
      invariant ProgressCached(p, cache.data, jobs, env, lo, i)
    {
      ghost var earlier := cache.data;
      var interrupted := if env.endings(i) == Completes then None else Some(env.progress(i));
      var r := QuoteEdgesBatch(p, cache, jobs[i].edges, jobs[i].amount, interrupted, (f: nat) => env.others(i, f));
      ProgressStep(p, earlier, cache.data, jobs, env, lo, i);
      maps := maps + [r];
    }
  }

  /** The answers that the interrupted jobs lo..hi got before they were interrupted are cached. */
  ghost predicate ProgressCached(p: Provider, data: Cached, jobs: seq<Job>, env: Env, lo: nat, hi: nat)
    requires hi <= |jobs|
  {
    forall i: nat | lo <= i < hi && env.endings(i) != Completes :: JobCached(p, data, jobs[i], env.progress(i))
  }

  ghost predicate JobCached(p: Provider, data: Cached, j: Job, upto: nat) {
    FamiliesCached(p, data, j.edges, j.amount, upto)
  }

  lemma ProgressStep(p: Provider, data: Cached, later: Cached, jobs: seq<Job>, env: Env, lo: nat, i: nat)
    requires i < |jobs| && ProgressCached(p, data, jobs, env, lo, i) && forall k | k in data :: k in later
    requires env.endings(i) != Completes ==> JobCached(p, later, jobs[i], env.progress(i))
    ensures ProgressCached(p, later, jobs, env, lo, i + 1)
  {
    forall k: nat | lo <= k < i && env.endings(k) != Completes ensures JobCached(p, later, jobs[k], env.progress(k)) {
      FamiliesStayCached(p, data, later, jobs[k].edges, jobs[k].amount, env.progress(k));
    }
  }

  ghost predicate FromJobs(jobs: seq<Job>, lo: nat, hi: nat, results: Results)
    requires hi <= |jobs|
  {
    forall s | s in results :: exists i: nat :: lo <= i < hi && s == jobs[i].signature
  }

  lemma NotFromJobs(jobs: seq<Job>, lo: nat, hi: nat, results: Results, i: nat)
    requires hi <= |jobs| && UniqueJobs(jobs) && FromJobs(jobs, lo, hi, results)
    requires i < |jobs| && !(lo <= i < hi)
    ensures jobs[i].signature !in results
  {
  }

  /** Every positive quote of the families before `upto` is in the job's entry. */
  ghost predicate Rescued(p: Provider, block: Block, j: Job, upto: nat, results: Results) {
    forall k | k in j.edges && Servable(p, k, j.amount) && p.family(k) < upto
        && Positive(Known(p, block, k, j.amount)) ::
      j.signature in results && k in results[j.signature]
  }

  predicate Positive(q: Option<Quote>) { q.Some? && q.value.amountOut > 0 }

  /** The job's entry is exactly what can be recovered from the cache. */
  ghost predicate Salvaged(data: Cached, j: Job, results: Results) {
    && (j.signature in results <==> RecoveredMap(data, j.edges, j.amount) != map[])
    && (j.signature in results ==> results[j.signature] == RecoveredMap(data, j.edges, j.amount))
  }

  /** Recovering from the cache rescues what the finished families have answered. */
  lemma SalvagedIsRescued(p: Provider, block: Block, data: Cached, j: Job, upto: nat, results: Results)
    requires Agree(p, block, data) && JobCached(p, data, j, upto) && Salvaged(data, j, results)
    ensures Rescued(p, block, j, upto, results)
  {
    var found := RecoveredMap(data, j.edges, j.amount);
    forall k | k in j.edges && Servable(p, k, j.amount) && p.family(k) < upto && Positive(Known(p, block, k, j.amount))
      ensures j.signature in results && k in results[j.signature]
    {
      assert data[(k, j.amount)] == Known(p, block, k, j.amount);
      assert k in found;
    }
  }

  /** What a job that is over has left: its map, nothing, or what its finished families have
      answered. Jobs still running are dealt with last. */
  ghost predicate JobOk(p: Provider, block: Block, j: Job, ending: Ending, upto: nat, results: Results) {
    match ending
    case Completes => Kept(p, block, results, j)
    case FailsSafely => j.signature !in results
    case Cancelled => Rescued(p, block, j, upto, results)
    case _ => true
  }

  ghost predicate JobsOk(p: Provider, block: Block, jobs: seq<Job>, env: Env, lo: nat, n: nat, results: Results)
    requires n <= |jobs|
  {
    forall i: nat | lo <= i < n :: JobOk(p, block, jobs[i], env.endings(i), env.progress(i), results)
  }

  /** Results of the jobs lo..hi when the finished jobs before n have been collected. */
  ghost predicate Collected(p: Provider, block: Block, jobs: seq<Job>, env: Env, lo: nat, n: nat, hi: nat,
                            results: Results)
    requires lo <= n <= hi <= |jobs|
  {
    && Trustworthy(p, block, results)
    && FromJobs(jobs, lo, hi, results)
    && JobsOk(p, block, jobs, env, lo, n, results)
  }

  lemma FromMore(jobs: seq<Job>, lo: nat, hi: nat, results: Results, i: nat, entry: QuoteMap)
    requires hi <= |jobs| && lo <= i < |jobs| && FromJobs(jobs, lo, hi, results)
    ensures FromJobs(jobs, lo, if i < hi then hi else i + 1, results[jobs[i].signature := entry])
  {
  }

  /** Storing an entry leaves the other jobs as they are. */
  lemma JobsUpdate(p: Provider, block: Block, jobs: seq<Job>, env: Env, lo: nat, n: nat, results: Results, i: nat,
                   entry: QuoteMap)
    requires n <= |jobs| && i < |jobs| && UniqueJobs(jobs) && JobsOk(p, block, jobs, env, lo, n, results)
    requires lo <= i < n ==> env.endings(i) == Pending
    ensures JobsOk(p, block, jobs, env, lo, n, results[jobs[i].signature := entry])
  {
    var next := results[jobs[i].signature := entry];
    forall k: nat | lo <= k < n ensures JobOk(p, block, jobs[k], env.endings(k), env.progress(k), next) {
      assert JobOk(p, block, jobs[k], env.endings(k), env.progress(k), results);
      assert k != i ==> jobs[k].signature != jobs[i].signature;
    }
  }

  /** Storing a map keeps what was collected. */
  lemma CollectExtra(p: Provider, block: Block, jobs: seq<Job>, env: Env, lo: nat, n: nat, hi: nat, results: Results,
                     i: nat, entry: QuoteMap)
    requires lo <= n <= hi <= |jobs| && lo <= i < |jobs| && UniqueJobs(jobs)
    requires Collected(p, block, jobs, env, lo, n, hi, results)
    requires Partial(p, block, jobs[i].edges, jobs[i].amount, entry)
    requires i < n ==> env.endings(i) == Pending
    ensures Collected(p, block, jobs, env, lo, n, if i < hi then hi else i + 1, results[jobs[i].signature := entry])
  {
    PartialIsTrue(p, block, jobs[i], entry);
    FromMore(jobs, lo, hi, results, i, entry);
    JobsUpdate(p, block, jobs, env, lo, n, results, i, entry);
  }

  /** One more job that is over. */
  lemma CollectNext(p: Provider, block: Block, jobs: seq<Job>, env: Env, lo: nat, n: nat, hi: nat, results: Results)
    requires lo <= n < hi <= |jobs| && Collected(p, block, jobs, env, lo, n, hi, results)
    requires JobOk(p, block, jobs[n], env.endings(n), env.progress(n), results)
    ensures Collected(p, block, jobs, env, lo, n + 1, hi, results)
  {
  }

  datatype Counts = Counts(completed: nat, failed: nat, cancelled: nat)

  /** The counters of finished jobs lo..hi. */
  function Finished(env: Env, lo: nat, hi: nat): Counts
    requires lo <= hi
  {
    Counts(Count(env.endings, lo, hi, Completes), Count(env.endings, lo, hi, FailsSafely),
           Count(env.endings, lo, hi, Cancelled))
  }

  /** The counters of a wave that has been drained: jobs still running count as cancelled. */
  function Drained(env: Env, lo: nat, hi: nat): Counts
    requires lo <= hi
  {
    var c := Finished(env, lo, hi);
    c.(cancelled := c.cancelled + Count(env.endings, lo, hi, Pending))
  }

  /** No job lo..hi ends in a way that the scheduler passes on to its caller. */
  ghost predicate NoneEscapes(env: Env, lo: nat, hi: nat) {
    forall i: nat | lo <= i < hi :: env.endings(i) != FailsOtherwise && env.endings(i) != Aborts
  }

  ghost predicate NonePending(env: Env, lo: nat, hi: int) {
    forall i: nat | lo <= i < hi :: env.endings(i) != Pending
  }

  /** Keeps what is cached for one job that did not complete or was not started. */
  method RecoverJob(p: Provider, cache: PerBlockCache, ghost block: Block, jobs: seq<Job>, ghost env: Env,
                    ghost lo: nat, ghost n: nat, ghost hi: nat, i: nat, before: Results) returns (results: Results)
    requires lo <= n <= hi <= |jobs| && lo <= i < hi && UniqueJobs(jobs)
    requires cache.key == Some(block) && cache.Sound(p)
    requires Collected(p, block, jobs, env, lo, n, hi, before) && (i < n ==> env.endings(i) == Pending)
    requires jobs[i].signature !in before
    ensures Collected(p, block, jobs, env, lo, n, hi, results)
    ensures Salvaged(cache.data, jobs[i], results) && OnlyJob(jobs[i], before, results)
  {
    results := before;
    var recovered := RecoverCachedEdgeQuotes(cache, jobs[i].amount, jobs[i].edges);
    if recovered != map[] {
      CollectExtra(p, block, jobs, env, lo, n, hi, results, i, recovered);
      results := results[jobs[i].signature := recovered];
    }
  }

  /** Nothing but the job's own entry has changed. */
  ghost predicate OnlyJob(j: Job, before: Results, results: Results) {
    forall s | s != j.signature :: (s in results <==> s in before) && (s in before ==> results[s] == before[s])
  }

  /** No entry for a job of the wave that was still running. */
  ghost predicate PendingAbsent(jobs: seq<Job>, env: Env, lo: nat, n: nat, results: Results)
    requires n <= |jobs|
  {
    forall i: nat | lo <= i < n && env.endings(i) == Pending :: jobs[i].signature !in results
  }

  lemma PendingStaysAbsent(jobs: seq<Job>, env: Env, lo: nat, n: nat, before: Results, results: Results)
    requires n < |jobs| && UniqueJobs(jobs) && PendingAbsent(jobs, env, lo, n, before)
    requires OnlyJob(jobs[n], before, results) && (env.endings(n) == Pending ==> jobs[n].signature !in results)
    ensures PendingAbsent(jobs, env, lo, n + 1, results)
  {
    forall i: nat | lo <= i < n && env.endings(i) == Pending ensures jobs[i].signature !in results {
      assert jobs[i].signature != jobs[n].signature;
    }
  }

  /** What the loop over finished jobs keeps. */
  ghost predicate CollectedTo(p: Provider, block: Block, jobs: seq<Job>, env: Env, lo: nat, n: nat, results: Results)
    requires lo <= n <= |jobs|
  {
    Collected(p, block, jobs, env, lo, n, n, results) && PendingAbsent(jobs, env, lo, n, results)
  }

  /** The entry of the next job, if it leaves one. */
  lemma CollectEntry(p: Provider, block: Block, jobs: seq<Job>, env: Env, lo: nat, n: nat, before: Results,
                     results: Results)
    requires lo <= n < |jobs| && UniqueJobs(jobs) && CollectedTo(p, block, jobs, env, lo, n, before)
    requires Collected(p, block, jobs, env, lo, n, n + 1, results) && OnlyJob(jobs[n], before, results)
    requires env.endings(n) == Pending ==> jobs[n].signature !in results
    requires JobOk(p, block, jobs[n], env.endings(n), env.progress(n), results)
    ensures CollectedTo(p, block, jobs, env, lo, n + 1, results)
  {
    CollectNext(p, block, jobs, env, lo, n, n + 1, results);
    PendingStaysAbsent(jobs, env, lo, n, before, results);
  }

  lemma CollectMap(p: Provider, block: Block, jobs: seq<Job>, env: Env, lo: nat, n: nat, before: Results,
                   entry: QuoteMap)
    requires lo <= n < |jobs| && UniqueJobs(jobs) && CollectedTo(p, block, jobs, env, lo, n, before)
    requires env.endings(n) == Completes && entry == Alone(p, block, jobs[n].amount, jobs[n].edges)
    ensures CollectedTo(p, block, jobs, env, lo, n + 1, before[jobs[n].signature := entry])
  {
    CollectExtra(p, block, jobs, env, lo, n, n, before, n, entry);
    CollectEntry(p, block, jobs, env, lo, n, before, before[jobs[n].signature := entry]);
  }

  lemma CollectRecovered(p: Provider, block: Block, data: Cached, jobs: seq<Job>, env: Env, lo: nat, n: nat,
                         before: Results, results: Results)
    requires lo <= n < |jobs| && UniqueJobs(jobs) && CollectedTo(p, block, jobs, env, lo, n, before)
    requires env.endings(n) == Cancelled && Agree(p, block, data) && JobCached(p, data, jobs[n], env.progress(n))
    requires Collected(p, block, jobs, env, lo, n, n + 1, results)
    requires Salvaged(data, jobs[n], results) && OnlyJob(jobs[n], before, results)
    ensures CollectedTo(p, block, jobs, env, lo, n + 1, results)
  {
    SalvagedIsRescued(p, block, data, jobs[n], env.progress(n), results);
    CollectEntry(p, block, jobs, env, lo, n, before, results);
  }

  /** Collects the next job of the wave. */
  method CollectOne(p: Provider, cache: PerBlockCache, ghost block: Block, jobs: seq<Job>, ghost lo: nat, i: nat,
                    env: Env, entry: Option<QuoteMap>, before: Results, counts: Counts)
    returns (out: Outcome<(Results, Counts)>)
    requires lo <= i < |jobs| && UniqueJobs(jobs) && cache.key == Some(block) && cache.Sound(p)
    requires entry == MapOfJob(p, block, jobs[i], env.endings(i))
    requires env.endings(i) != Completes ==> JobCached(p, cache.data, jobs[i], env.progress(i))
    requires counts == Finished(env, lo, i) && CollectedTo(p, block, jobs, env, lo, i, before)
    ensures out.Returned? <==> NoneEscapes(env, i, i + 1)
    ensures out.Returned? ==> out.value.1 == Finished(env, lo, i + 1)
    ensures out.Returned? ==> CollectedTo(p, block, jobs, env, lo, i + 1, out.value.0)
  {
    NotFromJobs(jobs, lo, i, before, i);
    match env.endings(i)
    case Pending =>
      CollectEntry(p, block, jobs, env, lo, i, before, before);
      out := Returned((before, counts));
    case Cancelled =>
      var results := RecoverJob(p, cache, block, jobs, env, lo, i, i + 1, i, before);
      CollectRecovered(p, block, cache.data, jobs, env, lo, i, before, results);
      out := Returned((results, counts.(cancelled := counts.cancelled + 1)));
    case FailsSafely =>
      CollectEntry(p, block, jobs, env, lo, i, before, before);
      out := Returned((before, counts.(failed := counts.failed + 1)));
    case Completes =>
      CollectMap(p, block, jobs, env, lo, i, before, entry.value);
      out := Returned((before[jobs[i].signature := entry.value], counts.(completed := counts.completed + 1)));
    case _ => out := Raised;
  }

  /** The next job, with its own place in the wave. */
  lemma NextOfWave(p: Provider, block: Block, data: Cached, jobs: seq<Job>, env: Env, lo: nat, hi: nat,
                   maps: seq<Option<QuoteMap>>, i: nat)
    requires MapsOf(p, block, jobs, env, lo, hi, maps) && ProgressCached(p, data, jobs, env, lo, hi) && lo <= i < hi
    ensures maps[i - lo] == MapOfJob(p, block, jobs[i], env.endings(i))
    ensures env.endings(i) != Completes ==> JobCached(p, data, jobs[i], env.progress(i))
  {
  }

  lemma NoneEscapesNext(env: Env, lo: nat, i: nat, hi: nat)
    requires lo <= i < hi && NoneEscapes(env, lo, i)
    ensures NoneEscapes(env, i, i + 1) ==> NoneEscapes(env, lo, i + 1)
    ensures !NoneEscapes(env, i, i + 1) ==> !NoneEscapes(env, lo, hi)
  {
  }

  method CollectJobResults(p: Provider, cache: PerBlockCache, ghost block: Block, jobs: seq<Job>, lo: nat, hi: nat,
                           env: Env, maps: seq<Option<QuoteMap>>) returns (out: Outcome<(Results, Counts)>)
    requires MapsOf(p, block, jobs, env, lo, hi, maps) && UniqueJobs(jobs)
    requires cache.key == Some(block) && cache.Sound(p) && ProgressCached(p, cache.data, jobs, env, lo, hi)
    ensures out.Returned? <==> NoneEscapes(env, lo, hi)
    ensures out.Returned? ==> out.value.1 == Finished(env, lo, hi)
    ensures out.Returned? ==> CollectedTo(p, block, jobs, env, lo, hi, out.value.0)
  {
    var results: Results, counts := map[], Counts(0, 0, 0);
    for i := lo to hi
      invariant NoneEscapes(env, lo, i) && counts == Finished(env, lo, i)
      invariant CollectedTo(p, block, jobs, env, lo, i, results)
    {
      NextOfWave(p, block, cache.data, jobs, env, lo, hi, maps, i);
      NoneEscapesNext(env, lo, i, hi);
      var one := CollectOne(p, cache, block, jobs, lo, i, env, maps[i - lo], results, counts);
      if one.Raised? {
        return Raised;
      }
      results, counts := one.value.0, one.value.1;
    }
    out := Returned((results, counts));
  }

  /** What a job that was still running leaves: exactly what is cached for it with a positive
      output, which includes what its finished families have answered. */
  ghost predicate PendingOk(p: Provider, block: Block, data: Cached, j: Job, upto: nat, results: Results) {
    Salvaged(data, j, results) && Rescued(p, block, j, upto, results)
  }

  ghost predicate PendingJobsOk(p: Provider, block: Block, data: Cached, jobs: seq<Job>, env: Env, lo: nat, n: nat,
                                results: Results)
    requires n <= |jobs|
  {
    forall i: nat | lo <= i < n && env.endings(i) == Pending ::
        PendingOk(p, block, data, jobs[i], env.progress(i), results)
  }

  /** Another job's entry does not matter. */
  lemma PendingUnchanged(p: Provider, block: Block, data: Cached, jobs: seq<Job>, env: Env, lo: nat, n: nat,
                         before: Results, results: Results, i: nat)
    requires n <= |jobs| && i < |jobs| && UniqueJobs(jobs) && !(lo <= i < n) && OnlyJob(jobs[i], before, results)
    requires PendingJobsOk(p, block, data, jobs, env, lo, n, before)
    ensures PendingJobsOk(p, block, data, jobs, env, lo, n, results)
  {
    forall k: nat | lo <= k < n && env.endings(k) == Pending
      ensures PendingOk(p, block, data, jobs[k], env.progress(k), results)
    {
      assert PendingOk(p, block, data, jobs[k], env.progress(k), before);
      assert k < i || i < k;
    }
  }

  /** The running jobs before n have been recovered, the others not yet. */
  ghost predicate RecoveredTo(p: Provider, block: Block, data: Cached, jobs: seq<Job>, env: Env, lo: nat, n: nat,
                              hi: nat, results: Results)
    requires lo <= n <= hi <= |jobs|
  {
    && Collected(p, block, jobs, env, lo, hi, hi, results)
    && PendingJobsOk(p, block, data, jobs, env, lo, n, results)
    && PendingAbsent(jobs, env, n, hi, results)
  }

  lemma RecoveredNext(p: Provider, block: Block, data: Cached, jobs: seq<Job>, env: Env, lo: nat, n: nat, hi: nat,
                      before: Results, results: Results)
    requires lo <= n < hi <= |jobs| && UniqueJobs(jobs) && RecoveredTo(p, block, data, jobs, env, lo, n, hi, before)
    requires Agree(p, block, data) && JobCached(p, data, jobs[n], env.progress(n))
    requires Collected(p, block, jobs, env, lo, hi, hi, results)
    requires Salvaged(data, jobs[n], results) && OnlyJob(jobs[n], before, results)
    ensures RecoveredTo(p, block, data, jobs, env, lo, n + 1, hi, results)
  {
    SalvagedIsRescued(p, block, data, jobs[n], env.progress(n), results);
    PendingUnchanged(p, block, data, jobs, env, lo, n, before, results, n);
    forall k: nat | n + 1 <= k < hi && env.endings(k) == Pending ensures jobs[k].signature !in results {
      assert jobs[n].signature != jobs[k].signature;
    }
  }

  lemma RecoveredSkip(p: Provider, block: Block, data: Cached, jobs: seq<Job>, env: Env, lo: nat, n: nat, hi: nat,
                      results: Results)
    requires lo <= n < hi <= |jobs| && RecoveredTo(p, block, data, jobs, env, lo, n, hi, results)
        && env.endings(n) != Pending
    ensures RecoveredTo(p, block, data, jobs, env, lo, n + 1, hi, results)
  {
  }

  lemma NextOfRecovery(p: Provider, block: Block, data: Cached, jobs: seq<Job>, env: Env, lo: nat, i: nat, hi: nat,
                       results: Results)
    requires lo <= i < hi <= |jobs| && RecoveredTo(p, block, data, jobs, env, lo, i, hi, results)
    requires ProgressCached(p, data, jobs, env, lo, hi)
    ensures env.endings(i) == Pending ==> jobs[i].signature !in results && JobCached(p, data, jobs[i], env.progress(i))
  {
  }

  /** Jobs still running at the deadline are cancelled; what they cached is recovered. */
  method RecoverPendingJobs(p: Provider, cache: PerBlockCache, ghost block: Block, jobs: seq<Job>, lo: nat, hi: nat,
                            env: Env, before: Results)
    returns (results: Results, pending: nat)
    requires lo <= hi <= |jobs| && UniqueJobs(jobs)
    requires cache.key == Some(block) && cache.Sound(p) && ProgressCached(p, cache.data, jobs, env, lo, hi)
    requires CollectedTo(p, block, jobs, env, lo, hi, before)
    ensures pending == Count(env.endings, lo, hi, Pending)
    ensures pending == 0 <==> NonePending(env, lo, hi)
    ensures Collected(p, block, jobs, env, lo, hi, hi, results)
    ensures PendingJobsOk(p, block, cache.data, jobs, env, lo, hi, results)
  {
    results, pending := before, 0;
    for i := lo to hi
      invariant pending == Count(env.endings, lo, i, Pending)
      invariant RecoveredTo(p, block, cache.data, jobs, env, lo, i, hi, results)
    {
      CountNext(env.endings, lo, i, Pending);
      NextOfRecovery(p, block, cache.data, jobs, env, lo, i, hi, results);
      if env.endings(i) == Pending {
        pending := pending + 1;
        var next := RecoverJob(p, cache, block, jobs, env, lo, hi, hi, i, results);
        RecoveredNext(p, block, cache.data, jobs, env, lo, i, hi, results, next);
        results := next;
      } else {
        RecoveredSkip(p, block, cache.data, jobs, env, lo, i, hi, results);
      }
    }
    NoneCounted(env.endings, lo, hi, Pending);
  }

  /** What a wave returns: its results, its counters and how many jobs were still running. */
  ghost predicate WaveDone(p: Provider, block: Block, data: Cached, jobs: seq<Job>, env: Env, lo: nat, hi: nat,
                           w: (Results, Counts, nat))
    requires lo <= hi <= |jobs|
  {
    && NoneEscapes(env, lo, hi)
    && w.1 == Drained(env, lo, hi)
    && (w.2 == 0 <==> NonePending(env, lo, hi))
    && Collected(p, block, jobs, env, lo, hi, hi, w.0)
    && PendingJobsOk(p, block, data, jobs, env, lo, hi, w.0)
  }

  /** One wave: started, waited for until its deadline, drained, collected. */
  method QuoteEdgeJobWave(p: Provider, cache: PerBlockCache, ghost block: Block, jobs: seq<Job>, lo: nat, hi: nat,
                          env: Env)
    returns (out: Outcome<(Results, Counts, nat)>)
    requires lo <= hi <= |jobs| && UniqueJobs(jobs)
    requires cache.key == Some(block) && cache.Sound(p) && Truthful(p, block, env)
    modifies cache`data
    ensures cache.Sound(p)
    ensures out.Returned? <==> NoneEscapes(env, lo, hi)
    ensures out.Returned? ==> WaveDone(p, block, cache.data, jobs, env, lo, hi, out.value)
  {
    var maps := RunWave(p, cache, block, jobs, lo, hi, env);
    var collected := CollectJobResults(p, cache, block, jobs, lo, hi, env, maps);
    if collected.Raised? {
      return Raised;
    }
    var (finished, counts) := collected.value;
    var results, pending := RecoverPendingJobs(p, cache, block, jobs, lo, hi, env, finished);
    out := Returned((results, counts.(cancelled := counts.cancelled + pending), pending));
  }

  // ------------------------------------------------------------------- the job scheduler

  function Clamp(parallelism: int): (limit: nat)
    ensures 1 <= limit <= 4
    ensures 1 <= parallelism <= 4 ==> limit == parallelism
  {
    if parallelism < 1 then 1 else if parallelism > 4 then 4 else parallelism
  }

  datatype Plan = Skip | Start(size: nat, waitUntil: real, graceUsed: bool)

  /** The next wave: up to the limit before the deadline; afterwards one single job at most
      once, if allowed. */
  function WavePlan(remaining: nat, now: real, deadline: real, limit: nat, allowOne: bool,
                    graceUsed: bool): (plan: Plan)
    requires 1 <= limit <= 4
    ensures plan.Start? ==> 1 <= plan.size <= remaining && plan.size <= limit && plan.waitUntil > now
    ensures plan.Start? && now >= deadline ==> plan.size == 1 && allowOne && !graceUsed && plan.graceUsed
    ensures plan.Start? && graceUsed ==> plan.graceUsed && now < deadline
    ensures plan.Skip? <==> remaining == 0 || (now >= deadline && !(allowOne && !graceUsed))
  {
    if remaining == 0 then Skip
    else if now < deadline then Start(if remaining <= limit then remaining else limit, deadline, graceUsed)
    else if allowOne && !graceUsed then Start(1, now + 0.5, true)
    else Skip
  }

  datatype Policy = Policy(deadline: real, limit: nat, allowOne: bool)

  /** A wave that was started; `tick` is the clock reading that decided to start it. */
  datatype Wave = Wave(tick: nat, startedAt: real, size: nat)

  function Jobs(waves: seq<Wave>): nat {
    if waves == [] then 0 else Jobs(waves[..|waves|-1]) + waves[|waves|-1].size
  }

  /** The size is the only one that the reading allows. */
  ghost predicate SizeOk(w: Wave, remaining: int, y: Policy) {
    if w.startedAt < y.deadline then 1 <= w.size && w.size == (if remaining <= y.limit then remaining else y.limit)
    else y.allowOne && w.size == 1
  }

  /** A wave was started at or after the deadline. */
  ghost predicate LateWave(waves: seq<Wave>, deadline: real) {
    waves != [] && (LateWave(waves[..|waves|-1], deadline) || waves[|waves|-1].startedAt >= deadline)
  }

  /** The reading `tick` was taken after those that started the waves. */
  ghost predicate After(waves: seq<Wave>, tick: nat) { waves != [] ==> waves[|waves|-1].tick < tick }

  /** The waves of a run over `total` jobs. Each was started on a reading of the clock of its
      own, later than those of the waves before. It has as many jobs as the limit allows if the
      reading was before the deadline. At most one wave was started on a later reading: one
      job, and only when that is allowed. */
  ghost predicate WavesOk(clock: nat -> real, total: nat, y: Policy, waves: seq<Wave>) {
    waves == [] ||
    var w, before := waves[|waves|-1], waves[..|waves|-1];
    && WavesOk(clock, total, y, before)
    && w.startedAt == clock(w.tick) && After(before, w.tick)
    && SizeOk(w, total - Jobs(before), y)
    && (w.startedAt >= y.deadline ==> !LateWave(before, y.deadline))
  }

  lemma {:induction false} LateWaveIs(waves: seq<Wave>, deadline: real, i: nat)
    requires i < |waves| && waves[i].startedAt >= deadline
    ensures LateWave(waves, deadline)
    decreases |waves|
  {
    if i < |waves| - 1 {
      LateWaveIs(waves[..|waves|-1], deadline, i);
    }
  }

  /** Wave by wave: sizes, readings and the single late wave. */
  lemma {:induction false} WavesMean(clock: nat -> real, total: nat, y: Policy, waves: seq<Wave>, i: nat, j: nat)
    requires WavesOk(clock, total, y, waves) && i <= j < |waves|
    ensures waves[i].startedAt == clock(waves[i].tick) && SizeOk(waves[i], total - Jobs(waves[..i]), y)
    ensures i < j ==> waves[i].tick < waves[j].tick
    ensures i < j ==> waves[i].startedAt < y.deadline || waves[j].startedAt < y.deadline
    decreases |waves|
  {
    var before := waves[..|waves|-1];
    if j < |waves| - 1 {
      assert before[..i] == waves[..i];
      WavesMean(clock, total, y, before, i, j);
    } else if i < j {
      assert before[..i] == waves[..i];
      WavesMean(clock, total, y, before, i, j - 1);
      if waves[i].startedAt >= y.deadline {
        LateWaveIs(before, y.deadline, i);
      }
    }
  }

  /** With a clock that does not go back the late wave is the last one, and all waves before it
      were started in time. */
  lemma LateWaveIsLast(clock: nat -> real, total: nat, y: Policy, waves: seq<Wave>, i: nat, j: nat)
    requires WavesOk(clock, total, y, waves) && NonDecreasing(clock) && i < j < |waves|
    ensures waves[i].startedAt <= waves[j].startedAt && waves[i].startedAt < y.deadline
  {
    WavesMean(clock, total, y, waves, i, j);
    WavesMean(clock, total, y, waves, j, j);
    assert clock(waves[i].tick) <= clock(waves[j].tick);
  }

  datatype Schedule = Schedule(results: Results, completed: nat, failed: nat, cancelled: nat, skipped: nat,
                               stoppedAt: Option<nat>)

  /** What a schedule reports after the first n jobs were dispatched. */
  ghost predicate Reported(p: Provider, block: Block, data: Cached, jobs: seq<Job>, env: Env, n: nat, results: Results,
                           counts: Counts)
    requires n <= |jobs|
  {
    && NoneEscapes(env, 0, n)
    && counts == Drained(env, 0, n)
    && Collected(p, block, jobs, env, 0, n, n, results)
    && PendingJobsOk(p, block, data, jobs, env, 0, n, results)
  }

  function Plus(a: Counts, b: Counts): Counts {
    Counts(a.completed + b.completed, a.failed + b.failed, a.cancelled + b.cancelled)
  }

  lemma DrainedSplit(env: Env, lo: nat, hi: nat)
    requires lo <= hi
    ensures Drained(env, 0, hi) == Plus(Drained(env, 0, lo), Drained(env, lo, hi))
  {
    CountSplit(env.endings, 0, lo, hi, Completes);
    CountSplit(env.endings, 0, lo, hi, FailsSafely);
    CountSplit(env.endings, 0, lo, hi, Cancelled);
    CountSplit(env.endings, 0, lo, hi, Pending);
  }

  /** Adding the results of the next wave changes nothing for the jobs before. */
  lemma JobsMerge(p: Provider, block: Block, jobs: seq<Job>, env: Env, lo: nat, hi: nat, results: Results,
                  wave: Results)
    requires lo <= hi <= |jobs| && UniqueJobs(jobs)
    requires Collected(p, block, jobs, env, 0, lo, lo, results) && Collected(p, block, jobs, env, lo, hi, hi, wave)
    ensures JobsOk(p, block, jobs, env, 0, hi, results + wave)
  {
    var all := results + wave;
    forall i: nat | 0 <= i < hi ensures JobOk(p, block, jobs[i], env.endings(i), env.progress(i), all) {
      if i < lo {
        NotFromJobs(jobs, lo, hi, wave, i);
        assert JobOk(p, block, jobs[i], env.endings(i), env.progress(i), results);
      } else {
        NotFromJobs(jobs, 0, lo, results, i);
        assert JobOk(p, block, jobs[i], env.endings(i), env.progress(i), wave);
      }
    }
  }

  lemma CollectedMerge(p: Provider, block: Block, jobs: seq<Job>, env: Env, lo: nat, hi: nat, results: Results,
                       wave: Results)
    requires lo <= hi <= |jobs| && UniqueJobs(jobs)
    requires Collected(p, block, jobs, env, 0, lo, lo, results) && Collected(p, block, jobs, env, lo, hi, hi, wave)
    ensures Collected(p, block, jobs, env, 0, hi, hi, results + wave)
  {
    JobsMerge(p, block, jobs, env, lo, hi, results, wave);
  }

  lemma PendingMerge(p: Provider, block: Block, data: Cached, jobs: seq<Job>, env: Env, lo: nat, hi: nat,
                     results: Results, wave: Results)
    requires lo <= hi <= |jobs| && UniqueJobs(jobs) && NonePending(env, 0, lo)
    requires FromJobs(jobs, 0, lo, results) && PendingJobsOk(p, block, data, jobs, env, lo, hi, wave)
    ensures PendingJobsOk(p, block, data, jobs, env, 0, hi, results + wave)
  {
    forall i: nat | 0 <= i < hi && env.endings(i) == Pending
      ensures PendingOk(p, block, data, jobs[i], env.progress(i), results + wave)
    {
      NotFromJobs(jobs, 0, lo, results, i);
      assert PendingOk(p, block, data, jobs[i], env.progress(i), wave);
    }
  }

  lemma ReportedStep(p: Provider, block: Block, before: Cached, data: Cached, jobs: seq<Job>, env: Env, lo: nat,
                     hi: nat, results: Results, counts: Counts, w: (Results, Counts, nat))
    requires lo <= hi <= |jobs| && Reported(p, block, before, jobs, env, lo, results, counts) && UniqueJobs(jobs)
    requires NonePending(env, 0, lo) && WaveDone(p, block, data, jobs, env, lo, hi, w)
    ensures Reported(p, block, data, jobs, env, hi, results + w.0, Plus(counts, w.1))
  {
    DrainedSplit(env, lo, hi);
    CollectedMerge(p, block, jobs, env, lo, hi, results, w.0);
    PendingMerge(p, block, data, jobs, env, lo, hi, results, w.0);
  }

  lemma WavesStep(clock: nat -> real, total: nat, y: Policy, waves: seq<Wave>, w: Wave)
    requires WavesOk(clock, total, y, waves)
    requires w.startedAt == clock(w.tick) && After(waves, w.tick)
    requires SizeOk(w, total - Jobs(waves), y) && (w.startedAt >= y.deadline ==> !LateWave(waves, y.deadline))
    ensures WavesOk(clock, total, y, waves + [w])
    ensures Jobs(waves + [w]) == Jobs(waves) + w.size
    ensures LateWave(waves + [w], y.deadline) <==> LateWave(waves, y.deadline) || w.startedAt >= y.deadline
  {
    assert (waves + [w])[..|waves|] == waves;
  }

  // ----------------------------------------------------------------- jobs never dispatched

  /** The entries of jobs n..hi are exactly what is cached for them with a positive output. */
  ghost predicate SkippedOk(data: Cached, jobs: seq<Job>, n: nat, hi: nat, results: Results)
    requires hi <= |jobs|
  {
    forall i | n <= i < hi :: Salvaged(data, jobs[i], results)
  }

  lemma SkippedNext(p: Provider, block: Block, data: Cached, jobs: seq<Job>, env: Env, n: nat, i: nat, before: Results,
                    results: Results)
    requires n <= i < |jobs| && UniqueJobs(jobs) && OnlyJob(jobs[i], before, results)
        && Salvaged(data, jobs[i], results)
    requires SkippedOk(data, jobs, n, i, before) && PendingJobsOk(p, block, data, jobs, env, 0, n, before)
    ensures SkippedOk(data, jobs, n, i + 1, results) && PendingJobsOk(p, block, data, jobs, env, 0, n, results)
  {
    PendingUnchanged(p, block, data, jobs, env, 0, n, before, results, i);
    forall k | n <= k < i ensures Salvaged(data, jobs[k], results) {
      assert Salvaged(data, jobs[k], before);
      assert jobs[k].signature != jobs[i].signature;
    }
  }

  /** Skipped jobs are not dispatched; what is cached for them is reused. */
  method RecoverSkippedEdgeJobs(p: Provider, cache: PerBlockCache, ghost block: Block, jobs: seq<Job>, cursor: nat,
                                env: Env, before: Results)
    returns (results: Results)
    requires cursor <= |jobs| && UniqueJobs(jobs)
    requires cache.key == Some(block) && cache.Sound(p)
    requires Collected(p, block, jobs, env, 0, cursor, cursor, before)
    requires PendingJobsOk(p, block, cache.data, jobs, env, 0, cursor, before)
    ensures Collected(p, block, jobs, env, 0, cursor, |jobs|, results)
    ensures PendingJobsOk(p, block, cache.data, jobs, env, 0, cursor, results)
    ensures SkippedOk(cache.data, jobs, cursor, |jobs|, results)
  {
    results := before;
    for i := cursor to |jobs|
      invariant Collected(p, block, jobs, env, 0, cursor, i, results)
      invariant PendingJobsOk(p, block, cache.data, jobs, env, 0, cursor, results)
      invariant SkippedOk(cache.data, jobs, cursor, i, results)
    {
      NotFromJobs(jobs, 0, i, results, i);
      var next := RecoverJob(p, cache, block, jobs, env, 0, cursor, i + 1, i, results);
      SkippedNext(p, block, cache.data, jobs, env, cursor, i, results, next);
      results := next;
    }
  }

  // ------------------------------------------------------------------------ whole schedules

  /** Why the loop stopped early: a job of the last wave was still running, or a reading of the
      clock, taken after those that started the waves, was not before the deadline and the one
      late wave, if allowed, was used up. */
  ghost predicate StopReason(env: Env, y: Policy, cursor: nat, waves: seq<Wave>, stoppedAt: Option<nat>) {
    match stoppedAt
    case None => !NonePending(env, 0, cursor)
    case Some(t) =>
      && env.clock(t) >= y.deadline
      && After(waves, t)
      && (y.allowOne ==> LateWave(waves, y.deadline))
  }

  /** What a returned schedule means. */
  ghost predicate ScheduleOk(p: Provider, block: Block, data: Cached, jobs: seq<Job>, env: Env, y: Policy,
                             waves: seq<Wave>, r: Schedule)
  {
    var n := |jobs| - r.skipped;
    && n >= 0 && Jobs(waves) == n
    && NoneEscapes(env, 0, n)
    && Counts(r.completed, r.failed, r.cancelled) == Drained(env, 0, n)
    && r.completed + r.failed + r.cancelled + r.skipped == |jobs|
    && Collected(p, block, jobs, env, 0, n, |jobs|, r.results)
    && PendingJobsOk(p, block, data, jobs, env, 0, n, r.results)
    && SkippedOk(data, jobs, n, |jobs|, r.results)
    && (waves != [] ==> NonePending(env, 0, n - waves[|waves|-1].size))
    && (r.skipped > 0 ==> StopReason(env, y, n, waves, r.stoppedAt))
  }

  lemma DrainedCoversAll(env: Env, n: nat)
    requires NoneEscapes(env, 0, n)
    ensures var c := Drained(env, 0, n); c.completed + c.failed + c.cancelled == n
  {
    CountsCoverAll(env.endings, 0, n);
    NoneCounted(env.endings, 0, n, FailsOtherwise);
    NoneCounted(env.endings, 0, n, Aborts);
  }

  /** The variables of the scheduling loop. */
  datatype Progress = Progress(cursor: nat, results: Results, counts: Counts, waves: seq<Wave>, graceUsed: bool,
                               stop: bool, tick: nat, stoppedAt: Option<nat>)

  /** Only the last wave can have left jobs running, and then the loop stops. */
  ghost predicate StopOk(env: Env, y: Policy, cursor: nat, waves: seq<Wave>, stop: bool, stoppedAt: Option<nat>) {
    && (waves != [] ==> NonePending(env, 0, cursor - waves[|waves|-1].size))
    && (if stop then StopReason(env, y, cursor, waves, stoppedAt) else NonePending(env, 0, cursor))
  }

  lemma StopStep(env: Env, y: Policy, cursor: nat, waves: seq<Wave>, w: Wave, stop: bool)
    requires NonePending(env, 0, cursor) && (stop <==> !NonePending(env, cursor, cursor + w.size))
    ensures StopOk(env, y, cursor + w.size, waves + [w], stop, None)
  {
  }

  /** The waves so far and the loop's own record of them. */
  ghost predicate WavesKept(env: Env, total: nat, y: Policy, st: Progress) {
    && WavesOk(env.clock, total, y, st.waves)
    && After(st.waves, st.tick)
    && (st.graceUsed <==> LateWave(st.waves, y.deadline))
    && Jobs(st.waves) == st.cursor
  }

  /** What the loop keeps between waves. */
  ghost predicate Between(p: Provider, block: Block, data: Cached, jobs: seq<Job>, env: Env, y: Policy, st: Progress) {
    && st.cursor <= |jobs|
    && Reported(p, block, data, jobs, env, st.cursor, st.results, st.counts)
    && WavesKept(env, |jobs|, y, st)
    && StopOk(env, y, st.cursor, st.waves, st.stop, st.stoppedAt)
  }

  /** The state after a wave: two more readings of the clock, one to plan and one to wait. */
  function AfterWave(st: Progress, hi: nat, now: real, plan: Plan, w: (Results, Counts, nat)): Progress
    requires plan.Start?
  {
    Progress(hi, st.results + w.0, Plus(st.counts, w.1), st.waves + [Wave(st.tick, now, plan.size)],
             plan.graceUsed, w.2 > 0, st.tick + 2, None)
  }

  /** The loop plans the wave from its own reading. */
  ghost predicate Planned(env: Env, total: nat, y: Policy, st: Progress, now: real, plan: Plan) {
    && st.cursor < total && 1 <= y.limit <= 4 && now == env.clock(st.tick)
    && plan == WavePlan(total - st.cursor, now, y.deadline, y.limit, y.allowOne, st.graceUsed)
  }

  /** A planned wave keeps the guarantee on waves. */
  lemma PlannedWave(env: Env, total: nat, y: Policy, st: Progress, now: real, plan: Plan)
    requires WavesKept(env, total, y, st) && Planned(env, total, y, st, now, plan) && plan.Start?
    ensures WavesOk(env.clock, total, y, st.waves + [Wave(st.tick, now, plan.size)])
    ensures plan.graceUsed <==> LateWave(st.waves + [Wave(st.tick, now, plan.size)], y.deadline)
    ensures Jobs(st.waves + [Wave(st.tick, now, plan.size)]) == Jobs(st.waves) + plan.size
  {
    WavesStep(env.clock, total, y, st.waves, Wave(st.tick, now, plan.size));
  }

  lemma ReportedNext(p: Provider, block: Block, before: Cached, data: Cached, jobs: seq<Job>, env: Env, st: Progress,
                     hi: nat, now: real, plan: Plan, w: (Results, Counts, nat), next: Progress)
    requires plan.Start? && hi == st.cursor + plan.size && next == AfterWave(st, hi, now, plan, w)
        && st.cursor <= hi <= |jobs|
    requires Reported(p, block, before, jobs, env, st.cursor, st.results, st.counts) && UniqueJobs(jobs)
    requires NonePending(env, 0, st.cursor) && WaveDone(p, block, data, jobs, env, st.cursor, hi, w)
    ensures Reported(p, block, data, jobs, env, next.cursor, next.results, next.counts)
  {
    ReportedStep(p, block, before, data, jobs, env, st.cursor, hi, st.results, st.counts, w);
  }

  lemma StopNext(env: Env, y: Policy, st: Progress, hi: nat, now: real, plan: Plan, w: (Results, Counts, nat),
                 next: Progress)
    requires plan.Start? && hi == st.cursor + plan.size && next == AfterWave(st, hi, now, plan, w)
    requires NonePending(env, 0, st.cursor) && (w.2 == 0 <==> NonePending(env, st.cursor, hi))
    ensures StopOk(env, y, next.cursor, next.waves, next.stop, next.stoppedAt)
  {
    StopStep(env, y, st.cursor, st.waves, Wave(st.tick, now, plan.size), next.stop);
  }

  lemma WavesNext(env: Env, total: nat, y: Policy, st: Progress, hi: nat, now: real, plan: Plan,
                  w: (Results, Counts, nat), next: Progress)
    requires WavesKept(env, total, y, st) && Planned(env, total, y, st, now, plan) && plan.Start?
    requires hi == st.cursor + plan.size && next == AfterWave(st, hi, now, plan, w)
    ensures WavesKept(env, total, y, next)
  {
    PlannedWave(env, total, y, st, now, plan);
  }

  /** A round that is about to start its planned wave. */
  ghost predicate Starting(p: Provider, block: Block, data: Cached, jobs: seq<Job>, env: Env, y: Policy, st: Progress,
                           now: real, plan: Plan)
  {
    && Between(p, block, data, jobs, env, y, st) && !st.stop
    && Planned(env, |jobs|, y, st, now, plan) && plan.Start?
  }

  lemma BetweenStep(p: Provider, block: Block, before: Cached, data: Cached, jobs: seq<Job>, env: Env, y: Policy,
                    st: Progress, hi: nat, now: real, plan: Plan, w: (Results, Counts, nat), next: Progress)
    requires Starting(p, block, before, jobs, env, y, st, now, plan) && UniqueJobs(jobs)
    requires hi == st.cursor + plan.size && next == AfterWave(st, hi, now, plan, w) && hi <= |jobs|
    requires WaveDone(p, block, data, jobs, env, st.cursor, hi, w)
    ensures Between(p, block, data, jobs, env, y, next)
  {
    ReportedNext(p, block, before, data, jobs, env, st, hi, now, plan, w, next);
    WavesNext(env, |jobs|, y, st, hi, now, plan, w, next);
    StopNext(env, y, st, hi, now, plan, w, next);
  }

  lemma BetweenEnd(p: Provider, block: Block, data: Cached, jobs: seq<Job>, env: Env, y: Policy, st: Progress,
                   final: Results)
    requires Between(p, block, data, jobs, env, y, st) && (st.stop || st.cursor == |jobs|)
    requires Collected(p, block, jobs, env, 0, st.cursor, |jobs|, final)
    requires PendingJobsOk(p, block, data, jobs, env, 0, st.cursor, final)
        && SkippedOk(data, jobs, st.cursor, |jobs|, final)
    ensures ScheduleOk(p, block, data, jobs, env, y, st.waves,
                       Schedule(final, st.counts.completed, st.counts.failed, st.counts.cancelled, |jobs| - st.cursor,
                                st.stoppedAt))
  {
    DrainedCoversAll(env, st.cursor);
  }

  /** One round of the loop that starts a wave. */
  method RunPlannedWave(p: Provider, cache: PerBlockCache, ghost block: Block, jobs: seq<Job>, ghost y: Policy,
                        env: Env, st: Progress, now: real, plan: Plan) returns (out: Outcome<Progress>)
    requires UniqueJobs(jobs)
    requires cache.key == Some(block) && cache.Sound(p) && Truthful(p, block, env)
    requires Starting(p, block, cache.data, jobs, env, y, st, now, plan)
    modifies cache`data
    ensures cache.Sound(p)
    ensures out.Returned? ==> Between(p, block, cache.data, jobs, env, y, out.value)
    ensures out.Returned? ==> out.value.cursor > st.cursor
    ensures out.Raised? ==> !NoneEscapes(env, st.cursor, st.cursor + plan.size)
  {
    ghost var before := cache.data;
    var hi := st.cursor + plan.size;
    var wave := QuoteEdgeJobWave(p, cache, block, jobs, st.cursor, hi, env);
    if wave.Raised? {
      return Raised;
    }
    var next := AfterWave(st, hi, now, plan, wave.value);
    BetweenStep(p, block, before, cache.data, jobs, env, y, st, hi, now, plan, wave.value, next);
    out := Returned(next);
  }

  lemma BetweenSkip(p: Provider, block: Block, data: Cached, jobs: seq<Job>, env: Env, y: Policy, st: Progress,
                    now: real, plan: Plan)
    requires Between(p, block, data, jobs, env, y, st) && !st.stop && Planned(env, |jobs|, y, st, now, plan)
        && plan.Skip?
    ensures Between(p, block, data, jobs, env, y, st.(stop := true, stoppedAt := Some(st.tick)))
  {
  }

  /** One round of the loop: plan, and either stop or run a wave. */
  method NextWave(p: Provider, cache: PerBlockCache, ghost block: Block, jobs: seq<Job>, y: Policy, env: Env,
                  st: Progress)
    returns (out: Outcome<Progress>, waves: seq<Wave>)
    requires UniqueJobs(jobs) && 1 <= y.limit <= 4
    requires cache.key == Some(block) && cache.Sound(p) && Truthful(p, block, env)
    requires Between(p, block, cache.data, jobs, env, y, st) && !st.stop && st.cursor < |jobs|
    modifies cache`data
    ensures cache.Sound(p)
    ensures out.Returned? ==> Between(p, block, cache.data, jobs, env, y, out.value) && waves == out.value.waves
    ensures out.Returned? ==> out.value.cursor >= st.cursor && (out.value.stop || out.value.cursor > st.cursor)
    ensures out.Raised? ==> !NoneEscapes(env, 0, |jobs|) && WavesOk(env.clock, |jobs|, y, waves)
  {
    var now := env.clock(st.tick);
    var plan := WavePlan(|jobs| - st.cursor, now, y.deadline, y.limit, y.allowOne, st.graceUsed);
    if plan.Skip? {
      BetweenSkip(p, block, cache.data, jobs, env, y, st, now, plan);
      return Returned(st.(stop := true, stoppedAt := Some(st.tick))), st.waves;
    }
    var step := RunPlannedWave(p, cache, block, jobs, y, env, st, now, plan);
    if step.Raised? {
      PlannedWave(env, |jobs|, y, st, now, plan);
      return Raised, st.waves + [Wave(st.tick, now, plan.size)];
    }
    out, waves := step, step.value.waves;
  }

  /** Main theorem of the job scheduler, for every pattern of endings and clock readings. Jobs
      are dispatched in order in waves of at most four; no wave is started on a reading at or
      after the deadline except one wave of a single job when that is allowed; every job is
      accounted for exactly once; only the last wave can have pending jobs; jobs are skipped
      only after a pending job or a reading past the deadline, taken after the last wave; a
      completed job has exactly its own map, a pending or skipped one exactly what is cached
      for it, and everything else reported is true. */
  method QuoteEdgeJobsInBoundedWaves(p: Provider, cache: PerBlockCache, ghost block: Block, jobs: seq<Job>,
                                     deadline: real, parallelism: int, allowOne: bool, env: Env)
    returns (out: Outcome<Schedule>, waves: seq<Wave>)
    requires UniqueJobs(jobs)
    requires cache.key == Some(block) && cache.Sound(p) && Truthful(p, block, env)
    modifies cache`data
    ensures cache.Sound(p)
    ensures WavesOk(env.clock, |jobs|, Policy(deadline, Clamp(parallelism), allowOne), waves)
    ensures out.Returned? ==>
              ScheduleOk(p, block, cache.data, jobs, env, Policy(deadline, Clamp(parallelism), allowOne), waves,
                         out.value)
    ensures out.Raised? ==> !NoneEscapes(env, 0, |jobs|)
  {
    var y := Policy(deadline, Clamp(parallelism), allowOne);
    var st := Progress(0, map[], Counts(0, 0, 0), [], false, false, 0, None);
    while st.cursor < |jobs| && !st.stop
      invariant cache.Sound(p)
      invariant Between(p, block, cache.data, jobs, env, y, st)
      decreases |jobs| - st.cursor, if st.stop then 0 else 1
    {
      var step, started := NextWave(p, cache, block, jobs, y, env, st);
      if step.Raised? {
        return Raised, started;
      }
      st := step.value;
    }
    var final := RecoverSkippedEdgeJobs(p, cache, block, jobs, st.cursor, env, st.results);
    BetweenEnd(p, block, cache.data, jobs, env, y, st, final);
    waves := st.waves;
    out := Returned(Schedule(final, st.counts.completed, st.counts.failed, st.counts.cancelled, |jobs| - st.cursor,
                             st.stoppedAt));
  }
}
