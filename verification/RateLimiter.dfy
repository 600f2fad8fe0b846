/** The bounded sliding-window rate limiter (ratelimit.py). */
module RateLimiter {
  import opened Ordering
  import opened Outcomes

  datatype Rule = Rule(window: real, maxRequests: int)

  /** An ordered dictionary: its keys, oldest first, and their queues of allowed times. */
  datatype Table = Table(order: seq<string>, hits: map<string, seq<real>>)

  ghost predicate TableOk(t: Table) {
    && AllDifferent(t.order)
    && (forall k :: k in t.order <==> k in t.hits)
  }

  const EMPTY := Table([], map[])

  function Remove(order: seq<string>, key: string): (r: seq<string>)
    ensures forall k :: k in r <==> k in order && k != key
  {
    if order == [] then []
    else
      var rest := Remove(order[1..], key);
      assert order == [order[0]] + order[1..];
      if order[0] == key then rest else [order[0]] + rest
  }

  lemma {:induction false} RemoveKeepsDistinct(order: seq<string>, key: string)
    requires AllDifferent(order)
    ensures var r := Remove(order, key);
            && AllDifferent(r)
            && |r| == |order| - (if key in order then 1 else 0)
  {
    if order != [] {
      RemoveKeepsDistinct(order[1..], key);
      assert order == [order[0]] + order[1..];
      var rest := Remove(order[1..], key);
      assert forall k | 0 <= k < |rest| :: rest[k] in order[1..];
    }
  }

  /** The table once the key is the newest one; a full table drops its oldest key. The first
      branch on an empty table is popitem on an empty dictionary. */
  function Touch(maxKeys: int, t: Table, key: string): Outcome<Table> {
    if key in t.hits then Returned(Table(Remove(t.order, key) + [key], t.hits))
    else if |t.order| < maxKeys then Returned(Table(t.order + [key], t.hits[key := []]))
    else if t.order == [] then Raised
    else Returned(Table(t.order[1..] + [key], (t.hits - {t.order[0]})[key := []]))
  }

  function QueueOf(t: Table, key: string): seq<real> { if key in t.hits then t.hits[key] else [] }

  function Prune(q: seq<real>, cutoff: real): seq<real> {
    if q != [] && q[0] < cutoff then Prune(q[1..], cutoff) else q
  }

  /** One request against a table. */
  function Step(maxKeys: int, t: Table, key: string, rule: Rule, now: real): Outcome<(Table, bool)> {
    match Touch(maxKeys, t, key)
    case Raised => Raised
    case Returned(u) =>
      var q := Prune(QueueOf(u, key), now - rule.window);
      if |q| >= rule.maxRequests then Returned((u.(hits := u.hits[key := q]), false))
      else Returned((u.(hits := u.hits[key := q + [now]]), true))
  }

  /** Touching keeps every other key that stays, and the key's own queue. */
  lemma TouchKeepsQueues(maxKeys: int, t: Table, key: string)
    requires TableOk(t) && Touch(maxKeys, t, key).Returned?
    ensures var u := Touch(maxKeys, t, key).value;
            && key in u.hits
            && u.hits[key] == (if key in t.hits then t.hits[key] else [])
            && forall k | k in u.hits && k != key :: k in t.hits && u.hits[k] == t.hits[k]
  {
  }

  lemma MoveToEndOk(t: Table, key: string)
    requires TableOk(t) && key in t.hits
    ensures TableOk(Table(Remove(t.order, key) + [key], t.hits)) && |Remove(t.order, key)| + 1 == |t.order|
  {
    RemoveKeepsDistinct(t.order, key);
  }

  lemma InsertOk(t: Table, key: string)
    requires TableOk(t) && key !in t.hits
    ensures TableOk(Table(t.order + [key], t.hits[key := []]))
  {
  }

  lemma EvictOk(t: Table)
    requires TableOk(t) && t.order != []
    ensures TableOk(Table(t.order[1..], t.hits - {t.order[0]}))
  {
    assert t.order == [t.order[0]] + t.order[1..];
  }

  lemma TouchOk(maxKeys: int, t: Table, key: string)
    requires TableOk(t) && |t.order| <= maxKeys && maxKeys > 0
    ensures Touch(maxKeys, t, key).Returned?
    ensures var u := Touch(maxKeys, t, key).value; TableOk(u) && |u.order| <= maxKeys
  {
    if key in t.hits {
      MoveToEndOk(t, key);
    } else if |t.order| < maxKeys {
      InsertOk(t, key);
    } else {
      EvictOk(t);
      InsertOk(Table(t.order[1..], t.hits - {t.order[0]}), key);
    }
  }

  class Limiter {
    const maxKeys: int
    var order: seq<string>
    var hits: map<string, seq<real>>

    constructor (maxKeys: int)
      ensures this.maxKeys == maxKeys && View() == EMPTY
    {
      this.maxKeys := maxKeys;
      order, hits := [], map[];
    }

    ghost function View(): Table
      reads this
    {
      Table(order, hits)
    }

    /** Keeps the key order and drops outdated times in place. */
    method Allow(key: string, rule: Rule, now: real) returns (allowed: Outcome<bool>)
      requires TableOk(View())
      modifies this
      ensures match Step(maxKeys, old(View()), key, rule, now)
              case Raised => allowed == Raised && View() == old(View())
              case Returned(r) => allowed == Returned(r.1) && View() == r.0
    {
      if key !in hits {
        if |order| >= maxKeys {
          if order == [] {
            return Raised;
          }
          var oldest := order[0];
          assert old(View()).order == [oldest] + order[1..];
          order, hits := order[1..], hits - {oldest};
        }
        order, hits := order + [key], hits[key := []];
      } else {
        order := Remove(order, key) + [key];
      }
      ghost var touched := View();
      assert Touch(maxKeys, old(View()), key) == Returned(touched);
      var cutoff := now - rule.window;
      var q := hits[key];
      while q != [] && q[0] < cutoff
        invariant Prune(q, cutoff) == Prune(touched.hits[key], cutoff)
        decreases |q|
      {
        q := q[1..];
      }
      if |q| >= rule.maxRequests {
        hits := hits[key := q];
        return Returned(false);
      }
      hits := hits[key := q + [now]];
      return Returned(true);
    }
  }

  // -------------------------------------------------------------------- whole runs

  datatype Request = Request(key: string, now: real)

  /** The clock does not run backwards. Every key carries its path, and a path has one rule. */
  ghost predicate InTime(run: seq<Request>) {
    forall i, j | 0 <= i < j < |run| :: run[i].now <= run[j].now
  }

  function Last(maxKeys: int, rules: string -> Rule, t: Table, r: Request): Outcome<(Table, bool)> {
    Step(maxKeys, t, r.key, rules(r.key), r.now)
  }

  /** A raising request changes nothing. */
  function Advance(maxKeys: int, rules: string -> Rule, t: Table, r: Request): Table {
    match Last(maxKeys, rules, t, r)
    case Raised => t
    case Returned(n) => n.0
  }

  /** The table after a run of a limiter that starts empty. */
  function After(maxKeys: int, rules: string -> Rule, run: seq<Request>): Table {
    if run == [] then EMPTY
    else Advance(maxKeys, rules, After(maxKeys, rules, run[..|run|-1]), run[|run|-1])
  }

  /** The answer to a request that comes after a run. */
  function Answer(maxKeys: int, rules: string -> Rule, run: seq<Request>, r: Request): Outcome<bool> {
    AnswerOf(Last(maxKeys, rules, After(maxKeys, rules, run), r))
  }

  function AnswerOf(o: Outcome<(Table, bool)>): Outcome<bool> {
    if o.Returned? then Returned(o.value.1) else Raised
  }

  /** Tables stay well-formed and bounded; a limiter that may hold no key stays empty. */
  lemma {:induction false} TablesStayBounded(maxKeys: int, rules: string -> Rule, run: seq<Request>)
    ensures maxKeys <= 0 ==> After(maxKeys, rules, run) == EMPTY
    ensures TableOk(After(maxKeys, rules, run))
    ensures |After(maxKeys, rules, run).order| <= (if maxKeys > 0 then maxKeys else 0)
  {
    if run != [] {
      var init := run[..|run|-1];
      TablesStayBounded(maxKeys, rules, init);
      if maxKeys > 0 {
        TouchOk(maxKeys, After(maxKeys, rules, init), run[|run|-1].key);
      }
    }
  }

  /** The limiter answers a request exactly when it may hold at least one key. */
  lemma AnsweredIffKeysAllowed(maxKeys: int, rules: string -> Rule, run: seq<Request>, r: Request)
    ensures Answer(maxKeys, rules, run, r).Returned? <==> maxKeys > 0
  {
    TablesStayBounded(maxKeys, rules, run);
    if maxKeys > 0 {
      TouchOk(maxKeys, After(maxKeys, rules, run), r.key);
    }
  }

  // ---------------------------------------------------------------- reference semantics

  /** What a run says about one key, without any queue: the times at which the limiter answered
      true since the key was last inserted. `present` is false while the key is not in the table. */
  datatype Log = Log(present: bool, times: seq<real>)

  /** The number of times at or after a cutoff. */
  function Recent(times: seq<real>, cutoff: real): nat {
    if times == [] then 0
    else Recent(times[..|times|-1], cutoff) + if times[|times|-1] >= cutoff then 1 else 0
  }

  /** What one request and the answer to it add to the log of a key that is or is not in the
      table afterwards. */
  function LogStep(log: Log, present: bool, key: string, r: Request, answer: Outcome<bool>): Log {
    if !present then Log(false, [])
    else if r.key != key then log
    else Log(true, if answer == Returned(true) then log.times + [r.now] else log.times)
  }

  function LogOf(maxKeys: int, rules: string -> Rule, run: seq<Request>, key: string): Log {
    if run == [] then Log(false, [])
    else
      var init, r := run[..|run|-1], run[|run|-1];
      LogStep(LogOf(maxKeys, rules, init, key), key in After(maxKeys, rules, run).hits, key, r,
              Answer(maxKeys, rules, init, r))
  }

  ghost predicate Sorted(times: seq<real>) {
    forall i, j | 0 <= i < j < |times| :: times[i] <= times[j]
  }

  lemma {:induction false} PruneKeepsRecent(times: seq<real>, cutoff: real)
    requires Sorted(times)
    ensures |Prune(times, cutoff)| == Recent(times, cutoff)
  {
    if times != [] {
      if times[0] < cutoff {
        PruneKeepsRecent(times[1..], cutoff);
        RecentDrop(times, cutoff);
      } else {
        RecentAll(times, cutoff);
      }
    }
  }

  lemma {:induction false} RecentDrop(times: seq<real>, cutoff: real)
    requires times != [] && times[0] < cutoff
    ensures Recent(times, cutoff) == Recent(times[1..], cutoff)
  {
    if |times| > 1 {
      var init := times[..|times|-1];
      RecentDrop(init, cutoff);
      assert init[1..] == times[1..][..|times|-2];
    }
  }

  lemma {:induction false} RecentAll(times: seq<real>, cutoff: real)
    requires forall i | 0 <= i < |times| :: times[i] >= cutoff
    ensures Recent(times, cutoff) == |times|
  {
    if times != [] {
      RecentAll(times[..|times|-1], cutoff);
    }
  }

  /** Pruning at an earlier cutoff first makes no difference. */
  lemma {:induction false} PruneTwice(times: seq<real>, earlier: real, cutoff: real)
    requires earlier <= cutoff
    ensures Prune(Prune(times, earlier), cutoff) == Prune(times, cutoff)
  {
    if times != [] && times[0] < earlier {
      PruneTwice(times[1..], earlier, cutoff);
    }
  }

  lemma {:induction false} PruneSnoc(times: seq<real>, x: real, cutoff: real)
    ensures Prune(times + [x], cutoff)
         == if Prune(times, cutoff) == [] && x < cutoff then [] else Prune(times, cutoff) + [x]
  {
    if times == [] {
      assert times + [x] == [x] && [x][1..] == [];
    } else {
      assert (times + [x])[1..] == times[1..] + [x];
      PruneSnoc(times[1..], x, cutoff);
    }
  }

  /** Any maxRequests + 1 times of a log, from the first to the last, span more than the window. */
  ghost predicate Spaced(times: seq<real>, rule: Rule) {
    forall i: int, j: int | 0 <= i < j < |times| && j - i >= rule.maxRequests :: times[j] - times[i] > rule.window
  }

  lemma {:induction false} RecentFrom(times: seq<real>, cutoff: real, i: nat)
    requires i <= |times| && forall k | i <= k < |times| :: times[k] >= cutoff
    ensures Recent(times, cutoff) >= |times| - i
  {
    if i < |times| {
      RecentFrom(times[..|times|-1], cutoff, i);
    }
  }

  /** The time that opens a full window is older than the window. */
  lemma OldEnough(times: seq<real>, rule: Rule, now: real, i: nat)
    requires Sorted(times) && Recent(times, now - rule.window) < rule.maxRequests
    requires i < |times| && |times| - i >= rule.maxRequests
    ensures now - times[i] > rule.window
  {
    if times[i] >= now - rule.window {
      RecentFrom(times, now - rule.window, i);
      assert false;
    }
  }

  lemma SortedSnoc(times: seq<real>, now: real)
    requires Sorted(times) && forall i | 0 <= i < |times| :: times[i] <= now
    ensures Sorted(times + [now])
  {
  }

  lemma SpacedSnoc(times: seq<real>, rule: Rule, now: real)
    requires Spaced(times, rule) && Sorted(times) && Recent(times, now - rule.window) < rule.maxRequests
    requires forall i | 0 <= i < |times| :: times[i] <= now
    ensures Spaced(times + [now], rule) && Sorted(times + [now])
  {
    SortedSnoc(times, now);
    var all := times + [now];
    forall i: int, j: int | 0 <= i < j < |all| && j - i >= rule.maxRequests ensures all[j] - all[i] > rule.window {
      if j == |times| {
        OldEnough(times, rule, now, i);
      }
    }
  }

  /** How a queue stands for its log at the end of a run: they look the same from every cutoff
      that can still come. */
  ghost predicate StandsFor(q: seq<real>, times: seq<real>, rule: Rule, now: real) {
    && (forall c | c >= now - rule.window :: Prune(q, c) == Prune(times, c))
    && (forall i | 0 <= i < |times| :: times[i] <= now)
    && Sorted(times) && Spaced(times, rule)
    && |q| <= (if rule.maxRequests > 0 then rule.maxRequests else 0)
  }

  /** One request of the key: the queue decides like the log and goes on standing for it. */
  lemma StandsForStep(q: seq<real>, times: seq<real>, rule: Rule, now: real)
    requires StandsFor(q, times, rule, now)
    ensures var pruned := Prune(q, now - rule.window);
            && |pruned| == Recent(times, now - rule.window)
            && (if |pruned| >= rule.maxRequests then StandsFor(pruned, times, rule, now)
                else StandsFor(pruned + [now], times + [now], rule, now))
  {
    var cutoff := now - rule.window;
    var pruned := Prune(q, cutoff);
    PruneKeepsRecent(times, cutoff);
    PruneShortens(q, cutoff);
    forall c | c >= cutoff
      ensures Prune(pruned, c) == Prune(times, c) && Prune(pruned + [now], c) == Prune(times + [now], c)
    {
      PruneTwice(q, cutoff, c);
      PruneSnoc(pruned, now, c);
      PruneSnoc(times, now, c);
    }
    if |pruned| < rule.maxRequests {
      SpacedSnoc(times, rule, now);
    }
  }

  lemma {:induction false} PruneShortens(q: seq<real>, cutoff: real)
    ensures |Prune(q, cutoff)| <= |q|
  {
    if q != [] {
      PruneShortens(q[1..], cutoff);
    }
  }

  // ------------------------------------------------------------------------ theorems

  /** A table and the log of one key match. */
  ghost predicate Matches(t: Table, log: Log, key: string, rule: Rule, now: real) {
    && (key in t.hits <==> log.present)
    && (!log.present ==> log.times == [])
    && StandsFor(QueueOf(t, key), log.times, rule, now)
  }

  /** u is t after the request r, which was answered with `allowed`. */
  ghost predicate Follows(t: Table, u: Table, allowed: bool, r: Request, rule: Rule) {
    var pruned := Prune(QueueOf(t, r.key), r.now - rule.window);
    && (allowed <==> |pruned| < rule.maxRequests)
    && r.key in u.hits
    && QueueOf(u, r.key) == (if allowed then pruned + [r.now] else pruned)
    && forall k | k in u.hits && k != r.key :: k in t.hits && QueueOf(u, k) == QueueOf(t, k)
  }

  /** What one request does to the queues, once its key has been touched. */
  lemma TouchedFollows(t: Table, u: Table, r: Request, rule: Rule) returns (next: Table, allowed: bool)
    requires r.key in u.hits && QueueOf(u, r.key) == QueueOf(t, r.key)
    requires forall k | k in u.hits && k != r.key :: k in t.hits && QueueOf(u, k) == QueueOf(t, k)
    ensures var q := Prune(QueueOf(u, r.key), r.now - rule.window);
            && allowed == (|q| < rule.maxRequests)
            && next == u.(hits := u.hits[r.key := if allowed then q + [r.now] else q])
    ensures Follows(t, next, allowed, r, rule)
  {
    var q := Prune(QueueOf(u, r.key), r.now - rule.window);
    allowed := |q| < rule.maxRequests;
    next := u.(hits := u.hits[r.key := if allowed then q + [r.now] else q]);
  }

  lemma StepFollows(maxKeys: int, t: Table, r: Request, rule: Rule) returns (next: Table, allowed: bool)
    requires TableOk(t) && |t.order| <= maxKeys && maxKeys > 0
    ensures Step(maxKeys, t, r.key, rule, r.now) == Returned((next, allowed)) && Follows(t, next, allowed, r, rule)
  {
    TouchOk(maxKeys, t, r.key);
    TouchKeepsQueues(maxKeys, t, r.key);
    next, allowed := TouchedFollows(t, Touch(maxKeys, t, r.key).value, r, rule);
  }

  lemma AdvanceFollows(maxKeys: int, rules: string -> Rule, t: Table, r: Request) returns (allowed: bool)
    requires TableOk(t) && |t.order| <= maxKeys && maxKeys > 0
    ensures Last(maxKeys, rules, t, r) == Returned((Advance(maxKeys, rules, t, r), allowed))
    ensures Follows(t, Advance(maxKeys, rules, t, r), allowed, r, rules(r.key))
  {
    var next, granted := StepFollows(maxKeys, t, r, rules(r.key));
    allowed := granted;
  }

  lemma MatchesOther(t: Table, u: Table, allowed: bool, log: Log, key: string, rule: Rule, r: Request, requested: Rule,
                     answer: Outcome<bool>)
    requires Follows(t, u, allowed, r, requested) && r.key != key && Matches(t, log, key, rule, r.now)
    ensures Matches(u, LogStep(log, key in u.hits, key, r, answer), key, rule, r.now)
  {
  }

  lemma MatchesSame(t: Table, u: Table, allowed: bool, log: Log, rule: Rule, r: Request)
    requires Follows(t, u, allowed, r, rule) && Matches(t, log, r.key, rule, r.now)
    ensures Matches(u, LogStep(log, r.key in u.hits, r.key, r, Returned(allowed)), r.key, rule, r.now)
    ensures allowed <==> Recent(log.times, r.now - rule.window) < rule.maxRequests
  {
    StandsForStep(QueueOf(t, r.key), log.times, rule, r.now);
    var next := LogStep(log, true, r.key, r, Returned(allowed));
    assert StandsFor(QueueOf(u, r.key), next.times, rule, r.now);
  }

  lemma AnswerMatches(maxKeys: int, rules: string -> Rule, t: Table, log: Log, r: Request)
    requires TableOk(t) && |t.order| <= maxKeys && maxKeys > 0
    requires Matches(t, log, r.key, rules(r.key), r.now)
    ensures AnswerOf(Last(maxKeys, rules, t, r))
         == Returned(Recent(log.times, r.now - rules(r.key).window) < rules(r.key).maxRequests)
  {
    var allowed := AdvanceFollows(maxKeys, rules, t, r);
    MatchesSame(t, Advance(maxKeys, rules, t, r), allowed, log, rules(r.key), r);
  }

  lemma {:induction false} RunsAreExact(maxKeys: int, rules: string -> Rule, run: seq<Request>, key: string, now: real)
    requires maxKeys > 0 && InTime(run) && (run != [] ==> run[|run|-1].now <= now)
    ensures Matches(After(maxKeys, rules, run), LogOf(maxKeys, rules, run, key), key, rules(key), now)
  {
    if run != [] {
      var init, r := run[..|run|-1], run[|run|-1];
      RunsAreExact(maxKeys, rules, init, key, r.now);
      TablesStayBounded(maxKeys, rules, init);
      var t, u, log := After(maxKeys, rules, init), After(maxKeys, rules, run), LogOf(maxKeys, rules, init, key);
      var allowed := AdvanceFollows(maxKeys, rules, t, r);
      if r.key == key {
        MatchesSame(t, u, allowed, log, rules(key), r);
      } else {
        MatchesOther(t, u, allowed, log, key, rules(key), r, rules(r.key), Returned(allowed));
      }
    }
  }

  /** Exactness over whole runs: a request is allowed if and only if fewer than maxRequests
      requests of its key were allowed in [now - window, now] since the key was last inserted. */
  lemma AllowedIffFewRecent(maxKeys: int, rules: string -> Rule, run: seq<Request>, r: Request)
    requires maxKeys > 0 && InTime(run) && (run != [] ==> run[|run|-1].now <= r.now)
    ensures Answer(maxKeys, rules, run, r)
         == Returned(Recent(LogOf(maxKeys, rules, run, r.key).times,
                            r.now - rules(r.key).window) < rules(r.key).maxRequests)
  {
    RunsAreExact(maxKeys, rules, run, r.key, r.now);
    TablesStayBounded(maxKeys, rules, run);
    AnswerMatches(maxKeys, rules, After(maxKeys, rules, run), LogOf(maxKeys, rules, run, r.key), r);
  }

  /** Without an eviction of the key in between, any maxRequests + 1 allowed requests span more
      than the window; memory stays bounded. */
  lemma BurstsAreBounded(maxKeys: int, rules: string -> Rule, run: seq<Request>, key: string)
    requires maxKeys > 0 && InTime(run)
    ensures Spaced(LogOf(maxKeys, rules, run, key).times, rules(key))
    ensures var t := After(maxKeys, rules, run);
            |t.order| <= maxKeys
            && (key in t.hits ==> |t.hits[key]| <= if rules(key).maxRequests > 0 then rules(key).maxRequests else 0)
  {
    var now := if run == [] then 0.0 else run[|run|-1].now;
    RunsAreExact(maxKeys, rules, run, key, now);
    TablesStayBounded(maxKeys, rules, run);
  }

  // ------------------------------------------------------------------------ eviction

  /** All keys requested so far, the one requested longest ago first. */
  function Recency(run: seq<Request>): seq<string> {
    if run == [] then [] else Remove(Recency(run[..|run|-1]), run[|run|-1].key) + [run[|run|-1].key]
  }

  predicate Requested(run: seq<Request>, key: string) { exists r :: r in run && r.key == key }

  /** The other keys requested since the last request of the key. */
  function Since(run: seq<Request>, key: string): set<string> {
    if run == [] || run[|run|-1].key == key then {} else Since(run[..|run|-1], key) + {run[|run|-1].key}
  }

  lemma {:induction false} RemoveConcat(a: seq<string>, b: seq<string>, key: string)
    ensures Remove(a + b, key) == Remove(a, key) + Remove(b, key)
  {
    if a == [] {
      assert a + b == b;
    } else {
      assert (a + b)[1..] == a[1..] + b;
      RemoveConcat(a[1..], b, key);
    }
  }

  lemma {:induction false} RemoveAbsent(order: seq<string>, key: string)
    requires key !in order
    ensures Remove(order, key) == order
  {
    if order != [] {
      assert forall k | k in order[1..] :: k in order;
      RemoveAbsent(order[1..], key);
    }
  }

  lemma {:induction false} RecencyIsDistinct(run: seq<Request>)
    ensures AllDifferent(Recency(run))
  {
    if run != [] {
      RecencyIsDistinct(run[..|run|-1]);
      RemoveKeepsDistinct(Recency(run[..|run|-1]), run[|run|-1].key);
    }
  }

  /** The order of the keys after one request. */
  function Reordered(maxKeys: int, order: seq<string>, key: string): seq<string> {
    if key in order then Remove(order, key) + [key]
    else if |order| < maxKeys || order == [] then order + [key]
    else order[1..] + [key]
  }

  lemma AdvanceReorders(maxKeys: int, rules: string -> Rule, t: Table, r: Request)
    requires TableOk(t) && |t.order| <= maxKeys && maxKeys > 0
    ensures Advance(maxKeys, rules, t, r).order == Reordered(maxKeys, t.order, r.key)
  {
    TouchOk(maxKeys, t, r.key);
  }

  /** The keys of the table are the most recent ones, in order; `older` is what was evicted. */
  ghost predicate MostRecent(maxKeys: int, all: seq<string>, older: seq<string>, order: seq<string>) {
    all == older + order && |order| <= maxKeys && (older == [] || |order| == maxKeys)
  }

  /** A remembered key moves to the end. */
  lemma MoveRecent(maxKeys: int, older: seq<string>, order: seq<string>, key: string)
    requires AllDifferent(older + order) && key in order && MostRecent(maxKeys, older + order, older, order)
    ensures MostRecent(maxKeys, Remove(older + order, key) + [key], older, Remove(order, key) + [key])
  {
    RemoveConcat(older, order, key);
    OnlyInSuffix(older, order, key);
    RemoveAbsent(older, key);
    SuffixIsDistinct(older, order);
    RemoveKeepsDistinct(order, key);
    assert older + Remove(order, key) + [key] == older + (Remove(order, key) + [key]);
  }

  /** A key that is not remembered takes the place of the oldest one. */
  lemma ReplaceOldest(maxKeys: int, older: seq<string>, order: seq<string>, key: string)
    requires maxKeys > 0 && key !in order && |order| == maxKeys
    ensures MostRecent(maxKeys, Remove(older + order, key) + [key], Remove(older, key) + [order[0]], order[1..] + [key])
  {
    RemoveConcat(older, order, key);
    RemoveAbsent(order, key);
    assert order == [order[0]] + order[1..];
    var gone := Remove(older, key);
    assert gone + ([order[0]] + order[1..]) + [key] == (gone + [order[0]]) + (order[1..] + [key]);
  }

  /** One request keeps that. */
  lemma MostRecentStep(maxKeys: int, all: seq<string>, older: seq<string>, order: seq<string>, key: string)
    returns (next: seq<string>)
    requires maxKeys > 0 && AllDifferent(all) && MostRecent(maxKeys, all, older, order)
    ensures MostRecent(maxKeys, Remove(all, key) + [key], next, Reordered(maxKeys, order, key))
  {
    if key in order {
      MoveRecent(maxKeys, older, order, key);
      next := older;
    } else if |order| < maxKeys {
      assert all == order;
      RemoveAbsent(order, key);
      next := [];
      assert [] + (order + [key]) == order + [key];
    } else {
      ReplaceOldest(maxKeys, older, order, key);
      next := Remove(older, key) + [order[0]];
    }
  }

  lemma OnlyInSuffix(a: seq<string>, b: seq<string>, key: string)
    requires AllDifferent(a + b) && key in b
    ensures key !in a
  {
    var j :| 0 <= j < |b| && b[j] == key;
    assert (a + b)[|a| + j] == key;
    assert forall i | 0 <= i < |a| :: (a + b)[i] == a[i];
  }

  lemma SuffixIsDistinct(a: seq<string>, b: seq<string>)
    requires AllDifferent(a + b)
    ensures AllDifferent(b)
  {
    forall i, j | 0 <= i < j < |b| ensures b[i] != b[j] {
      assert (a + b)[|a| + i] == b[i] && (a + b)[|a| + j] == b[j];
    }
  }

  lemma {:induction false} TableIsMostRecent(maxKeys: int, rules: string -> Rule, run: seq<Request>)
    returns (older: seq<string>)
    requires maxKeys > 0
    ensures MostRecent(maxKeys, Recency(run), older, After(maxKeys, rules, run).order)
  {
    if run == [] {
      older := [];
    } else {
      var init, r := run[..|run|-1], run[|run|-1];
      older := TableIsMostRecent(maxKeys, rules, init);
      RecencyIsDistinct(init);
      TablesStayBounded(maxKeys, rules, init);
      AdvanceReorders(maxKeys, rules, After(maxKeys, rules, init), r);
      older := MostRecentStep(maxKeys, Recency(init), older, After(maxKeys, rules, init).order, r.key);
    }
  }

  /** Behind a requested key stand exactly the keys requested since. */
  ghost predicate StandsBefore(all: seq<string>, key: string, since: set<string>, a: seq<string>, b: seq<string>) {
    all == a + [key] + b && (forall k :: k in b <==> k in since)
  }

  lemma StandsBeforeStep(all: seq<string>, key: string, since: set<string>, a: seq<string>, b: seq<string>,
                         other: string)
    requires StandsBefore(all, key, since, a, b) && other != key
    ensures StandsBefore(Remove(all, other) + [other], key, since + {other}, Remove(a, other),
                         Remove(b, other) + [other])
  {
    RemoveConcat(a + [key], b, other);
    RemoveConcat(a, [key], other);
    RemoveAbsent([key], other);
    assert Remove(a, other) + [key] + Remove(b, other) + [other]
        == Remove(a, other) + [key] + (Remove(b, other) + [other]);
  }

  lemma {:induction false} RecencySplits(run: seq<Request>, key: string) returns (a: seq<string>, b: seq<string>)
    requires Requested(run, key)
    ensures StandsBefore(Recency(run), key, Since(run, key), a, b)
  {
    var init, r := run[..|run|-1], run[|run|-1];
    if r.key == key {
      a, b := Remove(Recency(init), key), [];
      assert a + [key] + b == a + [key];
    } else {
      EarlierRequest(run, key);
      a, b := RecencySplits(init, key);
      StandsBeforeStep(Recency(init), key, Since(init, key), a, b, r.key);
      a, b := Remove(a, r.key), Remove(b, r.key) + [r.key];
    }
  }

  lemma EarlierRequest(run: seq<Request>, key: string)
    requires Requested(run, key) && run[|run|-1].key != key
    ensures Requested(run[..|run|-1], key)
  {
    var r :| r in run && r.key == key;
    assert r in run[..|run|-1];
  }

  lemma {:induction false} OnlyRequested(run: seq<Request>, key: string)
    ensures key in Recency(run) ==> Requested(run, key)
  {
    if run != [] && key in Recency(run) {
      var init, r := run[..|run|-1], run[|run|-1];
      if r.key == key {
        assert r in run;
      } else {
        OnlyRequested(init, key);
        var earlier :| earlier in init && earlier.key == key;
        assert earlier in run;
      }
    }
  }

  /** A key of the sequence is among the last |suffix| ones exactly when few enough stand behind it. */
  lemma InSuffix(older: seq<string>, order: seq<string>, a: seq<string>, key: string, b: seq<string>)
    requires older + order == a + [key] + b && AllDifferent(older + order)
    ensures key in order <==> |b| < |order|
  {
    var all := older + order;
    assert all[|a|] == key;
    if |b| < |order| {
      assert order[|a| - |older|] == key;
    }
    if key in order {
      var j :| 0 <= j < |order| && order[j] == key;
      assert all[|older| + j] == key;
    }
  }

  /** Which keys are remembered, over every run: exactly those with fewer than maxKeys other
      keys requested since their own last request. A key is never evicted earlier, however many
      keys there are in all. */
  lemma KeyStaysIff(maxKeys: int, rules: string -> Rule, run: seq<Request>, key: string)
    requires maxKeys > 0
    ensures key in After(maxKeys, rules, run).hits <==> Requested(run, key) && |Since(run, key)| < maxKeys
  {
    var older := TableIsMostRecent(maxKeys, rules, run);
    TablesStayBounded(maxKeys, rules, run);
    OnlyRequested(run, key);
    StaysAmongRecent(maxKeys, run, older, After(maxKeys, rules, run).order, key);
  }

  lemma StaysAmongRecent(maxKeys: int, run: seq<Request>, older: seq<string>, order: seq<string>, key: string)
    requires MostRecent(maxKeys, Recency(run), older, order)
    ensures key in order <==> Requested(run, key) && |Since(run, key)| < maxKeys
  {
    OnlyRequested(run, key);
    RecencyIsDistinct(run);
    if Requested(run, key) {
      var a, b := RecencySplits(run, key);
      SuffixIsDistinct(a + [key], b);
      ElementsCount(b);
      assert Elements(b) == Since(run, key);
      InSuffix(older, order, a, key, b);
    }
  }
}
