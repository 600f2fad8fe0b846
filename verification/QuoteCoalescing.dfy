/** Request coalescing for route groups and the rotating group scheduler (arb_engine.py). */
module QuoteCoalescing {
  import opened Outcomes
  import opened QuoteCache
  import opened QuoteWaves

  // ------------------------------------------------------- coalescing of equal requests

  datatype Group = Group(amount: int, edges: seq<EdgeKey>)

  function JobOf(g: Group): Job { Job(Sign(g.amount, g.edges), g.amount, g.edges) }

  /** `index` gives the job that serves each group, `first` the group each job was taken from:
      one job for each signature, taken from the first group that has it, in order. */
  datatype Plan = Plan(jobs: seq<Job>, index: seq<nat>, first: seq<nat>)

  /** The next group is served by a job that is already there, or by a new one. */
  function Skip(plan: Plan, j: nat): Plan { plan.(index := plan.index + [j]) }
  function Add(plan: Plan, g: Group, i: nat): Plan {
    Plan(plan.jobs + [JobOf(g)], plan.index + [|plan.jobs|], plan.first + [i])
  }

  ghost predicate Serves(groups: seq<Group>, plan: Plan) {
    && |plan.index| == |groups|
    && forall i | 0 <= i < |groups| ::
         plan.index[i] < |plan.jobs| && plan.jobs[plan.index[i]].signature == JobOf(groups[i]).signature
  }

  ghost predicate FromFirst(groups: seq<Group>, plan: Plan) {
    && |plan.first| == |plan.jobs| <= |groups|
    && (forall j | 0 <= j < |plan.jobs| :: plan.first[j] < |groups| && plan.jobs[j] == JobOf(groups[plan.first[j]]))
    && (forall a, b | 0 <= a < b < |plan.first| :: plan.first[a] < plan.first[b])
    && (forall i | 0 <= i < |plan.index| :: plan.index[i] < |plan.first| && plan.first[plan.index[i]] <= i)
  }

  ghost predicate Coalesced(groups: seq<Group>, plan: Plan) {
    Serves(groups, plan) && FromFirst(groups, plan) && UniqueJobs(plan.jobs)
  }

  lemma ServesSkip(groups: seq<Group>, i: nat, plan: Plan, j: nat)
    requires i < |groups| && Serves(groups[..i], plan)
    requires j < |plan.jobs| && plan.jobs[j].signature == JobOf(groups[i]).signature
    ensures Serves(groups[..i+1], Skip(plan, j))
  {
    assert forall k | 0 <= k < i :: groups[..i+1][k] == groups[..i][k];
  }

  lemma FirstSkip(groups: seq<Group>, i: nat, plan: Plan, j: nat)
    requires i < |groups| && FromFirst(groups[..i], plan) && |plan.index| == i && j < |plan.jobs|
    ensures FromFirst(groups[..i+1], Skip(plan, j))
  {
    assert forall k | 0 <= k < i :: groups[..i+1][k] == groups[..i][k];
  }

  lemma CoalescedSkip(groups: seq<Group>, i: nat, plan: Plan, j: nat)
    requires i < |groups| && Coalesced(groups[..i], plan)
    requires j < |plan.jobs| && plan.jobs[j].signature == JobOf(groups[i]).signature
    ensures Coalesced(groups[..i+1], Skip(plan, j)) && Skip(plan, j).jobs == plan.jobs
  {
    ServesSkip(groups, i, plan, j);
    FirstSkip(groups, i, plan, j);
  }

  lemma ServesAdd(groups: seq<Group>, i: nat, plan: Plan)
    requires i < |groups| && Serves(groups[..i], plan)
    ensures Serves(groups[..i+1], Add(plan, groups[i], i))
  {
    assert forall k | 0 <= k < i :: groups[..i+1][k] == groups[..i][k];
  }

  lemma FirstAdd(groups: seq<Group>, i: nat, plan: Plan)
    requires i < |groups| && FromFirst(groups[..i], plan) && |plan.index| == i
    ensures FromFirst(groups[..i+1], Add(plan, groups[i], i))
  {
    assert forall k | 0 <= k < i :: groups[..i+1][k] == groups[..i][k];
  }

  lemma UniqueAdd(jobs: seq<Job>, g: Group)
    requires UniqueJobs(jobs) && forall j | 0 <= j < |jobs| :: jobs[j].signature != JobOf(g).signature
    ensures UniqueJobs(jobs + [JobOf(g)])
  {
  }

  /** The dictionary from signatures to the jobs made so far. */
  ghost predicate Indexes(seen: map<Signature, nat>, jobs: seq<Job>) {
    && (forall s | s in seen :: seen[s] < |jobs| && jobs[seen[s]].signature == s)
    && (forall j | 0 <= j < |jobs| :: jobs[j].signature in seen)
  }

  lemma CoalescedAdd(groups: seq<Group>, i: nat, plan: Plan, seen: map<Signature, nat>)
    requires i < |groups| && Coalesced(groups[..i], plan) && Indexes(seen, plan.jobs)
        && JobOf(groups[i]).signature !in seen
    ensures Coalesced(groups[..i+1], Add(plan, groups[i], i))
    ensures Indexes(seen[JobOf(groups[i]).signature := |plan.jobs|], plan.jobs + [JobOf(groups[i])])
  {
    ServesAdd(groups, i, plan);
    FirstAdd(groups, i, plan);
    UniqueAdd(plan.jobs, groups[i]);
  }

  /** What the loop keeps: the first i groups are coalesced and the dictionary knows their jobs. */
  ghost predicate CoalescedTo(groups: seq<Group>, i: nat, plan: Plan, seen: map<Signature, nat>) {
    i <= |groups| && Coalesced(groups[..i], plan) && Indexes(seen, plan.jobs)
  }

  lemma NextIsSeen(groups: seq<Group>, i: nat, plan: Plan, seen: map<Signature, nat>)
    requires i < |groups| && CoalescedTo(groups, i, plan, seen) && JobOf(groups[i]).signature in seen
    ensures CoalescedTo(groups, i + 1, Skip(plan, seen[JobOf(groups[i]).signature]), seen)
  {
    CoalescedSkip(groups, i, plan, seen[JobOf(groups[i]).signature]);
  }

  lemma NextIsNew(groups: seq<Group>, i: nat, plan: Plan, seen: map<Signature, nat>)
    requires i < |groups| && CoalescedTo(groups, i, plan, seen) && JobOf(groups[i]).signature !in seen
    ensures CoalescedTo(groups, i + 1, Add(plan, groups[i], i), seen[JobOf(groups[i]).signature := |plan.jobs|])
  {
    CoalescedAdd(groups, i, plan, seen);
  }

  /** The next group joins the job of its signature or gets a new one. */
  method CoalesceOne(ghost groups: seq<Group>, g: Group, i: nat, plan: Plan, seen: map<Signature, nat>)
    returns (next: Plan, jobs: map<Signature, nat>)
    requires i < |groups| && g == groups[i] && CoalescedTo(groups, i, plan, seen)
    ensures CoalescedTo(groups, i + 1, next, jobs)
  {
    var job := JobOf(g);
    if job.signature in seen {
      NextIsSeen(groups, i, plan, seen);
      next, jobs := Skip(plan, seen[job.signature]), seen;
    } else {
      NextIsNew(groups, i, plan, seen);
      next, jobs := Add(plan, g, i), seen[job.signature := |plan.jobs|];
    }
  }

  method UniqueRequests(groups: seq<Group>) returns (plan: Plan)
    ensures Coalesced(groups, plan)
  {
    plan := Plan([], [], []);
    var seen: map<Signature, nat> := map[];
    for i := 0 to |groups|
      invariant CoalescedTo(groups, i, plan, seen)
    {
      plan, seen := CoalesceOne(groups, groups[i], i, plan, seen);
    }
    assert groups[..|groups|] == groups;
  }

  function MapOf(p: Provider, block: Block, g: Group): QuoteMap { Alone(p, block, g.amount, g.edges) }

  lemma SameMap(p: Provider, block: Block, groups: seq<Group>, plan: Plan, i: nat)
    requires Coalesced(groups, plan) && i < |groups|
    ensures plan.jobs[plan.index[i]].signature == JobOf(groups[i]).signature
    ensures Alone(p, block, plan.jobs[plan.index[i]].amount, plan.jobs[plan.index[i]].edges)
        == MapOf(p, block, groups[i])
  {
    var j := plan.jobs[plan.index[i]];
    assert j == JobOf(groups[plan.first[plan.index[i]]]);
    SignatureDecidesTheMap(p, block, j.amount, j.edges, groups[i].edges);
  }

  /** Runs all jobs together; the call fails when one of them does. */
  method GatherJobs(p: Provider, cache: PerBlockCache, ghost block: Block, jobs: seq<Job>, env: Env)
    returns (out: Outcome<Results>)
    requires UniqueJobs(jobs) && cache.key == Some(block) && cache.Sound(p) && Truthful(p, block, env)
    modifies cache`data
    ensures cache.Sound(p)
    ensures out.Returned? <==> forall j | 0 <= j < |jobs| :: env.endings(j) == Completes
    ensures out.Returned? ==> forall j | 0 <= j < |jobs| :: Kept(p, block, out.value, jobs[j])
  {
    var maps := RunWave(p, cache, block, jobs, 0, |jobs|, env);
    var results: Results := map[];
    for j := 0 to |jobs|
      invariant cache.Sound(p)
      invariant forall k | 0 <= k < j :: env.endings(k) == Completes && Kept(p, block, results, jobs[k])
    {
      if env.endings(j) != Completes {
        return Raised;
      }
      assert maps[j - 0] == MapOfJob(p, block, jobs[j], Completes);
      assert forall k | 0 <= k < j :: jobs[k].signature != jobs[j].signature;
      results := results[jobs[j].signature := maps[j].value];
    }
    out := Returned(results);
  }

  /** Coalescing is transparent: without a deadline every group gets exactly the map that
      quoting it alone gives. The call fails exactly when a unique request fails. */
  method QuoteTwoLegRouteGroupWave(p: Provider, cache: PerBlockCache, ghost block: Block, groups: seq<Group>, env: Env)
    returns (out: Outcome<seq<QuoteMap>>, physical: nat, coalesced: nat, plan: Plan)
    requires cache.key == Some(block) && cache.Sound(p) && Truthful(p, block, env)
    modifies cache`data
    ensures cache.Sound(p)
    ensures Coalesced(groups, plan) && physical == |plan.jobs| && coalesced == |groups| - |plan.jobs|
    ensures out.Returned? <==> forall j | 0 <= j < |plan.jobs| :: env.endings(j) == Completes
    ensures out.Returned? ==> |out.value| == |groups| && EachAlone(p, block, groups, out.value)
  {
    plan := UniqueRequests(groups);
    physical, coalesced := |plan.jobs|, |groups| - |plan.jobs|;
    var gathered := GatherJobs(p, cache, block, plan.jobs, env);
    if gathered.Raised? {
      out := Raised;
      return;
    }
    var answers := Distribute(p, block, groups, plan, gathered.value);
    out := Returned(answers);
  }

  lemma ServedAlone(p: Provider, block: Block, groups: seq<Group>, plan: Plan, results: Results, i: nat)
    requires Coalesced(groups, plan) && i < |groups|
    requires forall j | 0 <= j < |plan.jobs| :: Kept(p, block, results, plan.jobs[j])
    ensures JobOf(groups[i]).signature in results && results[JobOf(groups[i]).signature] == MapOf(p, block, groups[i])
  {
    SameMap(p, block, groups, plan, i);
    assert Kept(p, block, results, plan.jobs[plan.index[i]]);
  }

  /** Each answer so far is the map of quoting its group alone. */
  ghost predicate EachAlone(p: Provider, block: Block, groups: seq<Group>, answers: seq<QuoteMap>) {
    |answers| <= |groups| && forall i | 0 <= i < |answers| :: answers[i] == MapOf(p, block, groups[i])
  }

  lemma AloneSnoc(p: Provider, block: Block, groups: seq<Group>, answers: seq<QuoteMap>, answer: QuoteMap)
    requires EachAlone(p, block, groups, answers) && |answers| < |groups|
    requires answer == MapOf(p, block, groups[|answers|])
    ensures EachAlone(p, block, groups, answers + [answer])
  {
  }

  /** Every group gets the map of the job that serves it. */
  method Distribute(ghost p: Provider, ghost block: Block, groups: seq<Group>, ghost plan: Plan, results: Results)
    returns (answers: seq<QuoteMap>)
    requires Coalesced(groups, plan) && forall j | 0 <= j < |plan.jobs| :: Kept(p, block, results, plan.jobs[j])
    ensures |answers| == |groups| && EachAlone(p, block, groups, answers)
  {
    answers := [];
    for i := 0 to |groups|
      invariant |answers| == i && EachAlone(p, block, groups, answers)
    {
      ServedAlone(p, block, groups, plan, results, i);
      var answer := results[JobOf(groups[i]).signature];
      AloneSnoc(p, block, groups, answers, answer);
      answers := answers + [answer];
    }
  }

  /** Every positive quote of the families before `upto` is in the answer. */
  ghost predicate RescuedFor(p: Provider, block: Block, g: Group, upto: nat, answer: QuoteMap) {
    forall k | k in g.edges && Servable(p, k, g.amount) && p.family(k) < upto
        && Positive(Known(p, block, k, g.amount)) ::
      k in answer
  }

  /** What a group is told under a deadline. Every entry is what the services would give for its
      own edges at its own amount. If its request completed, the answer is its full map. If the
      request was still running or was never sent, the answer is exactly what is cached for its
      edges with a positive output. If the request failed there is nothing, and if it was
      cancelled there is at least what its finished families gave. */
  ghost predicate AnswerOk(p: Provider, block: Block, data: Cached, env: Env, plan: Plan, dispatched: nat, i: nat,
                           g: Group, answer: QuoteMap)
    requires i < |plan.index|
  {
    var k := plan.index[i];
    && TrueFor(p, block, JobOf(g).signature, answer)
    && if k >= dispatched then answer == RecoveredMap(data, g.edges, g.amount)
       else match env.endings(k)
            case Completes => answer == MapOf(p, block, g)
            case Pending => answer == RecoveredMap(data, g.edges, g.amount)
            case FailsSafely => answer == map[]
            case Cancelled => RescuedFor(p, block, g, env.progress(k), answer)
            case _ => true
  }

  function AnswerFrom(results: Results, g: Group): QuoteMap {
    if JobOf(g).signature in results then results[JobOf(g).signature] else map[]
  }

  lemma SameRecovered(data: Cached, amount: int, a: seq<EdgeKey>, b: seq<EdgeKey>)
    requires Sign(amount, a) == Sign(amount, b)
    ensures RecoveredMap(data, a, amount) == RecoveredMap(data, b, amount)
  {
    forall k ensures k in a <==> k in b {
      assert k in a <==> k in multiset(a);
      assert k in b <==> k in multiset(b);
    }
  }

  /** The group's answer is what its job leaves. */
  lemma ServingJob(groups: seq<Group>, plan: Plan, i: nat)
    requires Coalesced(groups, plan) && i < |groups|
    ensures var j := plan.jobs[plan.index[i]];
            Sign(j.amount, j.edges) == Sign(groups[i].amount, groups[i].edges) == j.signature
              == JobOf(groups[i]).signature
  {
    assert plan.jobs[plan.index[i]] == JobOf(groups[plan.first[plan.index[i]]]);
  }

  lemma SalvagedAnswer(data: Cached, groups: seq<Group>, plan: Plan, results: Results, i: nat)
    requires Coalesced(groups, plan) && i < |groups| && Salvaged(data, plan.jobs[plan.index[i]], results)
    ensures AnswerFrom(results, groups[i]) == RecoveredMap(data, groups[i].edges, groups[i].amount)
  {
    var j := plan.jobs[plan.index[i]];
    ServingJob(groups, plan, i);
    SameRecovered(data, j.amount, j.edges, groups[i].edges);
  }

  lemma RescuedAnswer(p: Provider, block: Block, groups: seq<Group>, plan: Plan, results: Results, i: nat, upto: nat)
    requires Coalesced(groups, plan) && i < |groups| && Rescued(p, block, plan.jobs[plan.index[i]], upto, results)
    ensures RescuedFor(p, block, groups[i], upto, AnswerFrom(results, groups[i]))
  {
    var j := plan.jobs[plan.index[i]];
    ServingJob(groups, plan, i);
    forall k | k in groups[i].edges ensures k in j.edges {
      assert k in multiset(groups[i].edges);
      assert k in multiset(j.edges);
    }
  }

  /** How the jobs stand when the first n of them have been dispatched. */
  ghost predicate Settled(p: Provider, block: Block, data: Cached, jobs: seq<Job>, env: Env, n: nat, results: Results) {
    && n <= |jobs|
    && Collected(p, block, jobs, env, 0, n, |jobs|, results)
    && PendingJobsOk(p, block, data, jobs, env, 0, n, results)
    && SkippedOk(data, jobs, n, |jobs|, results)
  }

  lemma DispatchedAnswer(p: Provider, block: Block, data: Cached, env: Env, groups: seq<Group>, plan: Plan, n: nat,
                         results: Results, i: nat)
    requires Coalesced(groups, plan) && i < |groups| && Settled(p, block, data, plan.jobs, env, n, results)
    requires plan.index[i] < n
    ensures AnswerOk(p, block, data, env, plan, n, i, groups[i], AnswerFrom(results, groups[i]))
  {
    var k := plan.index[i];
    SameMap(p, block, groups, plan, i);
    assert JobOk(p, block, plan.jobs[k], env.endings(k), env.progress(k), results);
    if env.endings(k) == Pending {
      assert PendingOk(p, block, data, plan.jobs[k], env.progress(k), results);
      SalvagedAnswer(data, groups, plan, results, i);
    } else if env.endings(k) == Cancelled {
      RescuedAnswer(p, block, groups, plan, results, i, env.progress(k));
    }
  }

  lemma AnswerIsOk(p: Provider, block: Block, data: Cached, env: Env, groups: seq<Group>, plan: Plan, n: nat,
                   results: Results, i: nat)
    requires Coalesced(groups, plan) && i < |groups| && Settled(p, block, data, plan.jobs, env, n, results)
    ensures AnswerOk(p, block, data, env, plan, n, i, groups[i], AnswerFrom(results, groups[i]))
  {
    var k := plan.index[i];
    if k < n {
      DispatchedAnswer(p, block, data, env, groups, plan, n, results, i);
    } else {
      SameMap(p, block, groups, plan, i);
      assert Salvaged(data, plan.jobs[k], results);
      SalvagedAnswer(data, groups, plan, results, i);
    }
  }

  /** What the answers need of a schedule. */
  lemma ScheduledResults(p: Provider, block: Block, data: Cached, jobs: seq<Job>, env: Env, y: Policy, waves: seq<Wave>,
                         r: Schedule)
    requires ScheduleOk(p, block, data, jobs, env, y, waves, r)
    ensures r.skipped <= |jobs| && Settled(p, block, data, jobs, env, |jobs| - r.skipped, r.results)
  {
  }

  /** The same under a deadline, through the wave scheduler. */
  method QuoteTwoLegRouteGroupWaveUntil(p: Provider, cache: PerBlockCache, ghost block: Block, groups: seq<Group>,
                                        deadline: real, parallelism: int, env: Env)
    returns (out: Outcome<seq<QuoteMap>>, plan: Plan, ghost schedule: Schedule, ghost waves: seq<Wave>)
    requires cache.key == Some(block) && cache.Sound(p) && Truthful(p, block, env)
    modifies cache`data
    ensures cache.Sound(p)
    ensures Coalesced(groups, plan)
    ensures WavesOk(env.clock, |plan.jobs|, Policy(deadline, Clamp(parallelism), false), waves)
    ensures out.Returned? ==>
      ScheduleOk(p, block, cache.data, plan.jobs, env, Policy(deadline, Clamp(parallelism), false), waves, schedule)
    ensures out.Returned? ==>
      |out.value| == |groups|
        && AnswersOk(p, block, cache.data, env, plan, |plan.jobs| - schedule.skipped, groups, out.value)
  {
    plan := UniqueRequests(groups);
    var scheduled, started :=
        QuoteEdgeJobsInBoundedWaves(p, cache, block, plan.jobs, deadline, parallelism, false, env);
    waves := started;
    if scheduled.Raised? {
      out, schedule := Raised, Schedule(map[], 0, 0, 0, 0, None);
      return;
    }
    schedule := scheduled.value;
    ScheduledResults(p, block, cache.data, plan.jobs, env, Policy(deadline, Clamp(parallelism), false), waves,
                     schedule);
    var answers :=
        Answers(p, block, cache.data, groups, plan, scheduled.value.results, env, |plan.jobs| - schedule.skipped);
    out := Returned(answers);
  }

  ghost predicate AnswersOk(p: Provider, block: Block, data: Cached, env: Env, plan: Plan, n: nat, groups: seq<Group>,
                            answers: seq<QuoteMap>)
  {
    && |plan.index| == |groups| && |answers| <= |groups|
    && forall k | 0 <= k < |answers| :: AnswerOk(p, block, data, env, plan, n, k, groups[k], answers[k])
  }

  lemma AnswersSnoc(p: Provider, block: Block, data: Cached, env: Env, plan: Plan, n: nat, groups: seq<Group>,
                    answers: seq<QuoteMap>, answer: QuoteMap)
    requires AnswersOk(p, block, data, env, plan, n, groups, answers) && |answers| < |groups|
    requires AnswerOk(p, block, data, env, plan, n, |answers|, groups[|answers|], answer)
    ensures AnswersOk(p, block, data, env, plan, n, groups, answers + [answer])
  {
  }

  method Answers(ghost p: Provider, ghost block: Block, ghost data: Cached, groups: seq<Group>, ghost plan: Plan,
                 results: Results, ghost env: Env, ghost n: nat) returns (answers: seq<QuoteMap>)
    requires Coalesced(groups, plan) && Settled(p, block, data, plan.jobs, env, n, results)
    ensures |answers| == |groups| && AnswersOk(p, block, data, env, plan, n, groups, answers)
  {
    answers := [];
    for i := 0 to |groups|
      invariant |answers| == i && AnswersOk(p, block, data, env, plan, n, groups, answers)
    {
      AnswerIsOk(p, block, data, env, groups, plan, n, results, i);
      AnswersSnoc(p, block, data, env, plan, n, groups, answers, AnswerFrom(results, groups[i]));
      answers := answers + [AnswerFrom(results, groups[i])];
    }
  }
}
