/** The concurrency of the JSON-RPC client, one step at a time (rpc.py).

    Every root chunk of every batch, and every sequence of single calls outside a batch,
    is a worker. Workers interleave arbitrarily; they share the batch semaphore, the call
    semaphore, the counter of request numbers and what is known about batching, which each
    worker reads when it begins. Every reply is arbitrary, and means what RpcBatch says it
    means. */
module RpcInterleaving {
  import opened Outcomes
  import opened Ordering
  import opened RpcBatch

  /** Work a worker still has to do, in order. */
  datatype Work = Chunk(calls: seq<Call>, depth: nat) | Singles(calls: seq<Call>)

  datatype Phase = Idle | Waiting | Ready | Posted | InCall | Finished | Crashed

  /** `results[k]` answers `calls[k]` and came under number `via[k]`; `base` is the number
      before those of the request that is under way. */
  datatype Worker = Worker(usesBatchSlot: bool, calls: seq<Call>, results: seq<RpcResult>, via: seq<nat>,
                           todo: seq<Work>, phase: Phase, base: nat)

  /** What became of a request number: who asked what, and what the reply said to it. */
  datatype Ticket = Ticket(owner: nat, call: Call, answer: Option<RpcResult>)

  datatype Config = Config(batchSlots: nat, callSlots: nat, minRetryBatch: nat, maxSplits: nat)

  /** Request number `id` has ticket `tickets[id-1]`; the next number is |tickets| + 1. */
  datatype System = System(workers: seq<Worker>, batchFree: int, callFree: int, supported: Option<bool>,
                           tickets: seq<Ticket>)

  /** The constructor keeps at least one batch slot and refuses a negative number of call
      slots; the retry settings are clipped as in RpcBatch. */
  function Configured(batchConcurrency: int, maxConcurrency: int, minRetryBatch: int,
                      maxSplits: int): (c: Option<Config>)
    ensures c.Some? <==> maxConcurrency >= 0
    ensures c.Some? ==> c.value.batchSlots >= 1 && c.value.minRetryBatch >= 1 && c.value.callSlots == maxConcurrency
  {
    var least := if batchConcurrency <= maxConcurrency then batchConcurrency else maxConcurrency;
    if maxConcurrency < 0 then None
    else Some(Config(if least >= 1 then least else 1, maxConcurrency,
                     if minRetryBatch >= 1 then minRetryBatch else 1,
                     if maxSplits <= 0 then 0 else if maxSplits <= 6 then maxSplits else 6))
  }

  function Midpoint(minRetryBatch: nat, n: nat): nat {
    if minRetryBatch >= n / 2 then minRetryBatch else n / 2
  }

  datatype Move =
    | Begin | Admit | Send | Reply(reply: BatchReply) | NoCallsLeft | StartCall | EndCall(answer: CallReply) | Finish

  /** What a reply to a batch does to the worker that waits for it. */
  datatype Fate = Crash | FallBack | Halve | Deliver

  function RequestsOf(base: nat, calls: seq<Call>): (reqs: seq<Request>)
    ensures Numbered(reqs, base, calls)
  {
    seq(|calls|, k requires 0 <= k < |calls| => Request(base + 1 + k, calls[k]))
  }

  ghost function FateOf(cfg: Config, reply: BatchReply, base: nat, work: Work): (fate: Fate)
    requires work.Chunk?
    ensures fate == Deliver ==> forall id: nat :: BatchAnswer(reply, id).Some?
  {
    var reqs := RequestsOf(base, work.calls);
    if Escapes(BatchPost(reqs, reply)) then Crash
    else if Dropped(reply, reqs, false) then FallBack
    else if Dropped(reply, reqs, |work.calls| > cfg.minRetryBatch && work.depth < cfg.maxSplits) then Halve
    else Deliver
  }

  predicate Enabled(s: System, w: Worker, m: Move) {
    match m
    case Begin => w.phase == Idle
    case Admit => w.phase == Waiting && s.batchFree > 0
    case Send => w.phase == Ready && w.todo != [] && w.todo[0].Chunk?
    case Reply(_) => w.phase == Posted && w.todo != [] && w.todo[0].Chunk?
    case NoCallsLeft => w.phase == Ready && w.todo != [] && w.todo[0] == Singles([])
    case StartCall => w.phase == Ready && w.todo != [] && w.todo[0].Singles? && w.todo[0].calls != [] && s.callFree > 0
    case EndCall(_) => w.phase == InCall && w.todo != [] && w.todo[0].Singles? && w.todo[0].calls != []
    case Finish => w.phase == Ready && w.todo == []
  }

  /** What a reply says to a request number. */
  function SaysTo(m: Move, id: nat): Option<RpcResult> {
    match m
    case Reply(r) => BatchAnswer(r, id)
    case EndCall(r) => CallAnswer(r)
    case _ => None
  }

  /** The numbers of a request that was answered, and its results. */
  function Numbers(base: nat, n: nat): seq<nat> { seq(n, k => base + 1 + k) }

  predicate SaysToAll(m: Move, base: nat, n: nat) {
    forall id | base < id <= base + n :: SaysTo(m, id).Some?
  }

  function ResultsOf(m: Move, base: nat, n: nat): seq<RpcResult>
    requires SaysToAll(m, base, n)
  {
    seq(n, k requires 0 <= k < n => SaysTo(m, base + 1 + k).value)
  }

  function Served(w: Worker, m: Move, n: nat, todo: seq<Work>): Worker
    requires SaysToAll(m, w.base, n)
  {
    w.(phase := Ready, todo := todo, results := w.results + ResultsOf(m, w.base, n), via := w.via + Numbers(w.base, n))
  }

  function Halves(cfg: Config, c: Work): seq<Work>
    requires c.Chunk? && cfg.minRetryBatch >= 1 && |c.calls| > cfg.minRetryBatch
  {
    var mid := Midpoint(cfg.minRetryBatch, |c.calls|);
    [Chunk(c.calls[..mid], c.depth + 1), Chunk(c.calls[mid..], c.depth + 1)]
  }

  /** A chunk of a batch waits for a batch slot, unless batching is known to be unsupported. */
  function Begun(supported: Option<bool>, w: Worker): Worker {
    if w.usesBatchSlot && supported != Some(false) then w.(phase := Waiting, todo := [Chunk(w.calls, 0)])
    else w.(usesBatchSlot := false, phase := Ready, todo := [Singles(w.calls)])
  }

  /** What one worker becomes in one step. */
  ghost function Next(cfg: Config, s: System, w: Worker, m: Move): Worker
    requires cfg.minRetryBatch >= 1 && Enabled(s, w, m)
  {
    match m
    case Begin => Begun(s.supported, w)
    case Admit => w.(phase := Ready)
    case Send => w.(phase := Posted, base := |s.tickets|)
    case Reply(r) =>
      (match FateOf(cfg, r, w.base, w.todo[0])
       case Crash => w.(phase := Crashed)
       case FallBack => w.(phase := Ready, todo := [Singles(w.todo[0].calls)] + w.todo[1..])
       case Halve => w.(phase := Ready, todo := Halves(cfg, w.todo[0]) + w.todo[1..])
       case Deliver => Served(w, m, |w.todo[0].calls|, w.todo[1..]))
    case NoCallsLeft => w.(todo := w.todo[1..])
    case StartCall => w.(phase := InCall, base := |s.tickets|)
    case EndCall(r) =>
      if CallAnswer(r).None? then w.(phase := Crashed)
      else Served(w, m, 1, [Singles(w.todo[0].calls[1..])] + w.todo[1..])
    case Finish => w.(phase := Finished)
  }

  function HoldsBatch(w: Worker): int { if w.usesBatchSlot && w.phase in {Ready, Posted, InCall} then 1 else 0 }
  function HoldsCall(w: Worker): int { if w.phase == InCall then 1 else 0 }

  /** What is known about batching after a step. */
  function Learned(supported: Option<bool>, m: Move): Option<bool> {
    if m.Reply? then Learn(supported, BatchPost([], m.reply)) else supported
  }

  /** The number of requests of the worker that are under way. */
  function Flying(w: Worker): nat {
    if w.todo == [] then 0
    else if w.phase == Posted then |w.todo[0].calls|
    else if w.phase == InCall && w.todo[0].calls != [] then 1
    else 0
  }

  function Fresh(i: nat, calls: seq<Call>): seq<Ticket> {
    seq(|calls|, k requires 0 <= k < |calls| => Ticket(i, calls[k], None))
  }

  /** The reply says something to the numbers base + 1 .. base + n. */
  function Filled(tickets: seq<Ticket>, base: nat, n: nat, m: Move): seq<Ticket> {
    seq(|tickets|, k requires 0 <= k < |tickets| =>
      if base <= k < base + n then tickets[k].(answer := SaysTo(m, k + 1)) else tickets[k])
  }

  function TicketsAfter(s: System, i: nat, w: Worker, m: Move): seq<Ticket>
    requires Enabled(s, w, m)
  {
    match m
    case Send => s.tickets + Fresh(i, w.todo[0].calls)
    case StartCall => s.tickets + Fresh(i, w.todo[0].calls[..1])
    case Reply(_) => Filled(s.tickets, w.base, Flying(w), m)
    case EndCall(_) => Filled(s.tickets, w.base, Flying(w), m)
    case Begin => s.tickets
    case Admit => s.tickets
    case NoCallsLeft => s.tickets
    case Finish => s.tickets
  }

  /** One atomic step of worker i. */
  ghost predicate Step(cfg: Config, s: System, i: nat, m: Move, s': System) {
    && cfg.minRetryBatch >= 1 && i < |s.workers| && Enabled(s, s.workers[i], m)
    && var w, w' := s.workers[i], Next(cfg, s, s.workers[i], m);
       && s'.workers == s.workers[i := w']
       && s'.batchFree == s.batchFree + HoldsBatch(w) - HoldsBatch(w')
       && s'.callFree == s.callFree + HoldsCall(w) - HoldsCall(w')
       && s'.supported == Learned(s.supported, m)
       && s'.tickets == TicketsAfter(s, i, w, m)
  }

  // ------------------------------------------------------------------- invariant

  function Pending(todo: seq<Work>): seq<Call> {
    if todo == [] then [] else todo[0].calls + Pending(todo[1..])
  }

  ghost predicate WorkerOk(cfg: Config, w: Worker) {
    && |w.results| <= |w.calls|
    && w.calls[|w.results|..] == Pending(w.todo)
    && (forall k | 0 <= k < |w.todo| && w.todo[k].Chunk? :: w.todo[k].depth <= cfg.maxSplits)
    && (w.phase == Idle ==> w.results == [] && w.todo == [Singles(w.calls)])
    && (w.phase == Waiting ==> w.usesBatchSlot)
    && (w.phase == Posted ==> w.todo != [] && w.todo[0].Chunk?)
    && (w.phase == InCall ==> w.todo != [] && w.todo[0].Singles? && w.todo[0].calls != [])
    && (w.phase == Finished ==> w.todo == [])
  }

  /** `call` of worker `i` was given number `id` and the reply to it said `res`. */
  predicate TicketSays(tickets: seq<Ticket>, i: nat, call: Call, id: nat, res: RpcResult) {
    1 <= id <= |tickets| && tickets[id-1] == Ticket(i, call, Some(res))
  }

  ghost predicate UnderWay(tickets: seq<Ticket>, i: nat, w: Worker) {
    && w.base + Flying(w) <= |tickets|
    && (forall p | w.base <= p < w.base + Flying(w) :: tickets[p] == Ticket(i, w.todo[0].calls[p - w.base], None))
    && (Flying(w) > 0 ==> forall k | 0 <= k < |w.via| :: w.via[k] <= w.base)
  }

  /** Results, numbers and calls of the worker belong together. */
  ghost predicate AllServed(tickets: seq<Ticket>, i: nat, w: Worker) {
    && |w.via| == |w.results| <= |w.calls|
    && Ascending(w.via)
    && forall k | 0 <= k < |w.via| :: TicketSays(tickets, i, w.calls[k], w.via[k], w.results[k])
  }

  ghost predicate TicketsOk(tickets: seq<Ticket>, i: nat, w: Worker) {
    UnderWay(tickets, i, w) && AllServed(tickets, i, w)
  }

  ghost predicate Inv(cfg: Config, s: System) {
    && cfg.minRetryBatch >= 1
    && s.batchFree >= 0 && s.callFree >= 0
    && s.batchFree + SumOf(s.workers, HoldsBatch) == cfg.batchSlots
    && s.callFree + SumOf(s.workers, HoldsCall) == cfg.callSlots
    && (forall i | 0 <= i < |s.workers| :: WorkerOk(cfg, s.workers[i]))
    && forall i | 0 <= i < |s.workers| :: TicketsOk(s.tickets, i, s.workers[i])
  }

  /** Nothing has been asked yet. */
  ghost predicate Starts(w: Worker) {
    w.phase == Idle && w.results == [] && w.via == [] && w.base == 0 && w.todo == [Singles(w.calls)]
  }

  ghost predicate Init(cfg: Config, s: System) {
    && cfg.minRetryBatch >= 1
    && s.batchFree == cfg.batchSlots && s.callFree == cfg.callSlots
    && s.tickets == [] && s.supported == None
    && forall i | 0 <= i < |s.workers| :: Starts(s.workers[i])
  }

  lemma {:induction false} NobodyHolds(ws: seq<Worker>, holds: Worker -> int)
    requires forall i | 0 <= i < |ws| :: holds(ws[i]) == 0
    ensures SumOf(ws, holds) == 0
  {
    if ws != [] {
      forall i | 0 <= i < |ws[1..]| ensures holds(ws[1..][i]) == 0 {
        assert ws[1..][i] == ws[i+1];
      }
      NobodyHolds(ws[1..], holds);
    }
  }

  lemma StartIsOk(cfg: Config, w: Worker)
    requires Starts(w)
    ensures WorkerOk(cfg, w) && HoldsBatch(w) == 0 && HoldsCall(w) == 0
  {
    assert w.todo[1..] == [];
    assert Pending(w.todo) == w.calls + Pending([]);
    assert w.calls[0..] == w.calls;
  }

  lemma InitInv(cfg: Config, s: System)
    requires Init(cfg, s)
    ensures Inv(cfg, s)
  {
    forall i | 0 <= i < |s.workers|
      ensures WorkerOk(cfg, s.workers[i]) && HoldsBatch(s.workers[i]) == 0 && HoldsCall(s.workers[i]) == 0
    {
      StartIsOk(cfg, s.workers[i]);
    }
    NobodyHolds(s.workers, HoldsBatch);
    NobodyHolds(s.workers, HoldsCall);
  }

  /** Splitting, falling back and answering keep the unanswered calls in order: nothing is
      lost, duplicated or reordered under any interleaving. */
  lemma NextIsOk(cfg: Config, s: System, w: Worker, m: Move)
    requires cfg.minRetryBatch >= 1 && WorkerOk(cfg, w) && Enabled(s, w, m)
    ensures WorkerOk(cfg, Next(cfg, s, w, m))
  {
    match m {
      case Reply(_) => ReplyIsOk(cfg, s, w, m);
      case EndCall(_) => EndCallIsOk(cfg, s, w, m);
      case Begin => OneWork(Chunk(w.calls, 0)); OneWork(Singles(w.calls));
      case Admit => case Send => case NoCallsLeft => case StartCall => case Finish =>
    }
  }

  lemma FirstAnswered(todo: seq<Work>)
    requires todo != [] && todo[0].Singles? && todo[0].calls != []
    ensures Pending(todo) != [] && Pending([Singles(todo[0].calls[1..])] + todo[1..]) == Pending(todo)[1..]
  {
    assert ([Singles(todo[0].calls[1..])] + todo[1..])[1..] == todo[1..];
  }

  lemma EndCallIsOk(cfg: Config, s: System, w: Worker, m: Move)
    requires cfg.minRetryBatch >= 1 && WorkerOk(cfg, w) && m.EndCall? && Enabled(s, w, m)
    ensures WorkerOk(cfg, Next(cfg, s, w, m))
  {
    FirstAnswered(w.todo);
    assert w.calls[|w.results|..][1..] == w.calls[|w.results| + 1..];
  }

  lemma OneWork(w: Work)
    ensures Pending([w]) == w.calls
  {
    assert Pending([w]) == w.calls + Pending([]);
  }

  lemma ReplyIsOk(cfg: Config, s: System, w: Worker, m: Move)
    requires cfg.minRetryBatch >= 1 && WorkerOk(cfg, w) && m.Reply? && Enabled(s, w, m)
    ensures WorkerOk(cfg, Next(cfg, s, w, m))
  {
    var w' := Next(cfg, s, w, m);
    match FateOf(cfg, m.reply, w.base, w.todo[0]) {
      case Crash =>
      case FallBack => assert w'.todo[1..] == w.todo[1..];
      case Halve => SplitPending(w.todo[0], Midpoint(cfg.minRetryBatch, |w.todo[0].calls|), w.todo[1..]);
      case Deliver => assert w.calls[|w'.results|..] == w.calls[|w.results|..][|w.todo[0].calls|..];
    }
  }

  lemma SplitPending(c: Work, mid: nat, rest: seq<Work>)
    requires c.Chunk? && mid <= |c.calls|
    ensures Pending([Chunk(c.calls[..mid], c.depth + 1), Chunk(c.calls[mid..], c.depth + 1)] + rest)
         == c.calls + Pending(rest)
  {
    var left, right := Chunk(c.calls[..mid], c.depth + 1), Chunk(c.calls[mid..], c.depth + 1);
    var all := [left, right] + rest;
    assert all[1..] == [right] + rest;
    assert all[1..][1..] == rest;
    assert c.calls[..mid] + (c.calls[mid..] + Pending(rest)) == c.calls + Pending(rest);
  }

  /** Every step keeps the knowledge that the server does not batch. */
  lemma SupportedStep(cfg: Config, s: System, i: nat, m: Move, s': System)
    requires Step(cfg, s, i, m, s')
    ensures s.supported == Some(false) ==> s'.supported == Some(false)
  {
  }

  /** Tickets of other workers are never touched. */
  ghost predicate OthersKept(tickets: seq<Ticket>, tickets': seq<Ticket>, i: nat) {
    && |tickets| <= |tickets'|
    && forall k | 0 <= k < |tickets| :: tickets[k].owner != i ==> tickets'[k] == tickets[k]
  }

  lemma OthersServed(tickets: seq<Ticket>, tickets': seq<Ticket>, i: nat, j: nat, w: Worker)
    requires OthersKept(tickets, tickets', i) && i != j && TicketsOk(tickets, j, w)
    ensures TicketsOk(tickets', j, w)
  {
    forall k | 0 <= k < |w.via| ensures TicketSays(tickets', j, w.calls[k], w.via[k], w.results[k]) {
      assert TicketSays(tickets, j, w.calls[k], w.via[k], w.results[k]);
    }
  }

  lemma FilledKeeps(tickets: seq<Ticket>, i: nat, w: Worker, m: Move)
    requires TicketsOk(tickets, i, w)
    ensures OthersKept(tickets, Filled(tickets, w.base, Flying(w), m), i)
  {
  }

  lemma StepKeepsOthers(cfg: Config, s: System, i: nat, m: Move, s': System)
    requires Step(cfg, s, i, m, s') && TicketsOk(s.tickets, i, s.workers[i])
    ensures OthersKept(s.tickets, s'.tickets, i)
  {
    if m.Reply? || m.EndCall? {
      FilledKeeps(s.tickets, i, s.workers[i], m);
    }
  }

  /** Answers that the worker already has are still on their tickets. */
  lemma StillServed(tickets: seq<Ticket>, tickets': seq<Ticket>, i: nat, w: Worker)
    requires AllServed(tickets, i, w) && |tickets| <= |tickets'|
    requires forall k | 0 <= k < |tickets| && tickets[k].answer.Some? :: tickets'[k] == tickets[k]
    ensures AllServed(tickets', i, w)
  {
    forall k | 0 <= k < |w.via| ensures TicketSays(tickets', i, w.calls[k], w.via[k], w.results[k]) {
      assert TicketSays(tickets, i, w.calls[k], w.via[k], w.results[k]);
    }
  }

  /** A request that goes out takes the next numbers. */
  lemma NumbersTaken(tickets: seq<Ticket>, i: nat, w: Worker, phase: Phase, calls: seq<Call>)
    requires TicketsOk(tickets, i, w) && phase in {Posted, InCall} && w.todo != []
    requires phase == InCall ==> w.todo[0].calls != []
    requires calls == if phase == Posted then w.todo[0].calls else w.todo[0].calls[..1]
    ensures TicketsOk(tickets + Fresh(i, calls), i, w.(phase := phase, base := |tickets|))
  {
    var w' := w.(phase := phase, base := |tickets|);
    StillServed(tickets, tickets + Fresh(i, calls), i, w);
    forall k | 0 <= k < |w.via| ensures w'.via[k] <= w'.base {
      assert TicketSays(tickets, i, w.calls[k], w.via[k], w.results[k]);
    }
    assert AllServed(tickets + Fresh(i, calls), i, w');
  }

  lemma ServedTicket(tickets: seq<Ticket>, i: nat, w: Worker, m: Move, d: nat)
    requires UnderWay(tickets, i, w) && d < Flying(w) && SaysToAll(m, w.base, Flying(w))
    ensures TicketSays(Filled(tickets, w.base, Flying(w), m), i, w.todo[0].calls[d],
                       Numbers(w.base, Flying(w))[d], ResultsOf(m, w.base, Flying(w))[d])
  {
    assert tickets[w.base + d] == Ticket(i, w.todo[0].calls[d], None);
    assert SaysTo(m, w.base + 1 + d).Some?;
  }

  lemma NumbersAscend(via: seq<nat>, base: nat, n: nat)
    requires Ascending(via) && (n > 0 ==> forall k | 0 <= k < |via| :: via[k] <= base)
    ensures Ascending(via + Numbers(base, n))
  {
  }

  /** The calls under way are the first unanswered ones. */
  ghost predicate FirstUnanswered(w: Worker) {
    && w.todo != [] && |w.results| + Flying(w) <= |w.calls|
    && forall k | 0 <= k < Flying(w) :: w.calls[|w.results| + k] == w.todo[0].calls[k]
  }

  lemma ServedAt(tickets: seq<Ticket>, i: nat, w: Worker, m: Move, k: nat)
    requires TicketsOk(tickets, i, w) && FirstUnanswered(w) && SaysToAll(m, w.base, Flying(w))
    requires AllServed(Filled(tickets, w.base, Flying(w), m), i, w) && k < |w.via| + Flying(w)
    ensures TicketSays(Filled(tickets, w.base, Flying(w), m), i, w.calls[k],
                       (w.via + Numbers(w.base, Flying(w)))[k], (w.results + ResultsOf(m, w.base, Flying(w)))[k])
  {
    if k < |w.via| {
      assert TicketSays(Filled(tickets, w.base, Flying(w), m), i, w.calls[k], w.via[k], w.results[k]);
    } else {
      ServedTicket(tickets, i, w, m, k - |w.via|);
    }
  }

  /** A reply that is used hands each result to the call whose number it came under. */
  lemma RepliesServe(tickets: seq<Ticket>, i: nat, w: Worker, m: Move, todo: seq<Work>)
    requires TicketsOk(tickets, i, w) && FirstUnanswered(w) && SaysToAll(m, w.base, Flying(w))
    ensures TicketsOk(Filled(tickets, w.base, Flying(w), m), i, Served(w, m, Flying(w), todo))
  {
    var filled, w' := Filled(tickets, w.base, Flying(w), m), Served(w, m, Flying(w), todo);
    StillServed(tickets, filled, i, w);
    NumbersAscend(w.via, w.base, Flying(w));
    forall k | 0 <= k < |w'.via| ensures TicketSays(filled, i, w'.calls[k], w'.via[k], w'.results[k]) {
      ServedAt(tickets, i, w, m, k);
    }
  }

  /** Numbers of a reply that is not used stay with the worker that asked. */
  lemma RepliesDropped(tickets: seq<Ticket>, i: nat, w: Worker, m: Move, w': Worker)
    requires TicketsOk(tickets, i, w)
    requires w'.base == w.base && Flying(w') == 0
    requires w'.calls == w.calls && w'.via == w.via && w'.results == w.results
    ensures TicketsOk(Filled(tickets, w.base, Flying(w), m), i, w')
  {
    StillServed(tickets, Filled(tickets, w.base, Flying(w), m), i, w);
  }

  lemma TicketsStep(cfg: Config, s: System, i: nat, w: Worker, m: Move)
    requires cfg.minRetryBatch >= 1 && WorkerOk(cfg, w) && TicketsOk(s.tickets, i, w) && Enabled(s, w, m)
    ensures TicketsOk(TicketsAfter(s, i, w, m), i, Next(cfg, s, w, m))
  {
    match m {
      case Send => NumbersTaken(s.tickets, i, w, Posted, w.todo[0].calls);
      case StartCall => NumbersTaken(s.tickets, i, w, InCall, w.todo[0].calls[..1]);
      case Reply(_) => ReplyTickets(cfg, s, i, w, m);
      case EndCall(r) =>
        FlyingIsNext(cfg, w);
        if CallAnswer(r).None? {
          RepliesDropped(s.tickets, i, w, m, w.(phase := Crashed));
        } else {
          RepliesServe(s.tickets, i, w, m, [Singles(w.todo[0].calls[1..])] + w.todo[1..]);
        }
      case Begin => case Admit => case NoCallsLeft => case Finish =>
    }
  }

  lemma FlyingIsNext(cfg: Config, w: Worker)
    requires WorkerOk(cfg, w) && w.todo != []
    ensures FirstUnanswered(w)
  {
    var rest := w.calls[|w.results|..];
    assert rest == w.todo[0].calls + Pending(w.todo[1..]);
    assert |rest| == |w.calls| - |w.results|;
    forall k | 0 <= k < Flying(w) ensures w.calls[|w.results| + k] == w.todo[0].calls[k] {
      assert rest[k] == w.calls[|w.results| + k];
    }
  }

  lemma ReplyTickets(cfg: Config, s: System, i: nat, w: Worker, m: Move)
    requires cfg.minRetryBatch >= 1 && WorkerOk(cfg, w) && TicketsOk(s.tickets, i, w) && m.Reply? && Enabled(s, w, m)
    ensures TicketsOk(TicketsAfter(s, i, w, m), i, Next(cfg, s, w, m))
  {
    if FateOf(cfg, m.reply, w.base, w.todo[0]) == Deliver {
      FlyingIsNext(cfg, w);
      RepliesServe(s.tickets, i, w, m, w.todo[1..]);
    } else {
      RepliesDropped(s.tickets, i, w, m, Next(cfg, s, w, m));
    }
  }

  /** Every step keeps results, numbers and calls together, for every worker. */
  lemma TicketsInv(cfg: Config, s: System, i: nat, m: Move, s': System)
    requires Inv(cfg, s) && Step(cfg, s, i, m, s')
    ensures forall j | 0 <= j < |s'.workers| :: TicketsOk(s'.tickets, j, s'.workers[j])
  {
    forall j | 0 <= j < |s'.workers| ensures TicketsOk(s'.tickets, j, s'.workers[j]) {
      if j == i {
        TicketsStep(cfg, s, i, s.workers[i], m);
      } else {
        StepKeepsOthers(cfg, s, i, m, s');
        OthersServed(s.tickets, s'.tickets, i, j, s.workers[j]);
      }
    }
  }

  lemma StepInv(cfg: Config, s: System, i: nat, m: Move, s': System)
    requires Inv(cfg, s) && Step(cfg, s, i, m, s')
    ensures Inv(cfg, s')
  {
    var w' := Next(cfg, s, s.workers[i], m);
    SumOfUpdate(s.workers, i, w', HoldsBatch);
    SumOfUpdate(s.workers, i, w', HoldsCall);
    NextIsOk(cfg, s, s.workers[i], m);
    TicketsInv(cfg, s, i, m, s');
    HoldersNonNegative(s'.workers, HoldsBatch);
    HoldersNonNegative(s'.workers, HoldsCall);
  }

  lemma {:induction false} HoldersNonNegative(ws: seq<Worker>, holds: Worker -> int)
    requires forall w | w in ws :: holds(w) >= 0
    ensures SumOf(ws, holds) >= 0
  {
    if ws != [] {
      assert forall w | w in ws[1..] :: w in ws;
      assert ws[0] in ws;
      HoldersNonNegative(ws[1..], holds);
    }
  }

  // ----------------------------------------------------- progress and termination

  predicate Live(w: Worker) { w.phase != Finished && w.phase != Crashed }

  ghost predicate SomeLive(s: System) { exists i :: 0 <= i < |s.workers| && Live(s.workers[i]) }

  ghost predicate CanStep(s: System) {
    exists i, m :: 0 <= i < |s.workers| && Enabled(s, s.workers[i], m)
  }

  /** A worker that is admitted can move, unless it wants a call slot and there is none. */
  lemma AdmittedMoves(cfg: Config, s: System, i: nat)
    requires Inv(cfg, s) && i < |s.workers| && s.workers[i].phase in {Ready, Posted, InCall}
    requires s.callFree > 0 || s.workers[i].phase != Ready
    ensures CanStep(s)
  {
    var w := s.workers[i];
    assert WorkerOk(cfg, w);
    if w.phase == Posted {
      assert Enabled(s, w, Reply(TransportFailed));
    } else if w.phase == InCall {
      assert Enabled(s, w, EndCall(CallFailed));
    } else if w.todo == [] {
      assert Enabled(s, w, Finish);
    } else if w.todo[0].Chunk? {
      assert Enabled(s, w, Send);
    } else if w.todo[0].calls == [] {
      assert Enabled(s, w, NoCallsLeft);
    } else {
      assert Enabled(s, w, StartCall);
    }
  }

  /** No deadlock, even with a single batch slot: split work takes no second slot, and
      whoever holds a call slot never waits for a batch slot. */
  lemma NoDeadlock(cfg: Config, s: System)
    requires Inv(cfg, s) && cfg.batchSlots >= 1 && cfg.callSlots >= 1 && SomeLive(s)
    ensures CanStep(s)
  {
    if s.callFree == 0 {
      var j := SumOfPositive(s.workers, HoldsCall);
      AdmittedMoves(cfg, s, j);
    } else {
      var i :| 0 <= i < |s.workers| && Live(s.workers[i]);
      if s.workers[i].phase == Idle {
        assert Enabled(s, s.workers[i], Begin);
      } else if s.workers[i].phase == Waiting {
        if s.batchFree == 0 {
          var j := SumOfPositive(s.workers, HoldsBatch);
          AdmittedMoves(cfg, s, j);
        } else {
          assert Enabled(s, s.workers[i], Admit);
        }
      } else {
        AdmittedMoves(cfg, s, i);
      }
    }
  }

  function SplitCost(left: nat): (n: nat)
    ensures n >= 3
  {
    if left == 0 then 3 else 2 * SplitCost(left - 1) + 2
  }

  function WorkLeft(cfg: Config, work: Work): nat {
    match work
    case Chunk(calls, depth) => 2 * |calls| + SplitCost(if depth <= cfg.maxSplits then cfg.maxSplits - depth else 0)
    case Singles(calls) => 2 * |calls| + 1
  }

  function TodoLeft(cfg: Config, todo: seq<Work>): nat {
    if todo == [] then 0 else WorkLeft(cfg, todo[0]) + TodoLeft(cfg, todo[1..])
  }

  function PhaseLeft(p: Phase): nat {
    match p
    case Idle => 4
    case Waiting => 3
    case Ready => 2
    case Posted => 1
    case InCall => 1
    case Finished => 0
    case Crashed => 0
  }

  function StepsLeft(cfg: Config): Worker -> int {
    (w: Worker) =>
      if w.phase == Idle then WorkLeft(cfg, Chunk(w.calls, 0)) + PhaseLeft(Idle)
      else if Live(w) then TodoLeft(cfg, w.todo) + PhaseLeft(w.phase)
      else 0
  }

  lemma TodoCons(cfg: Config, w: Work, rest: seq<Work>)
    ensures TodoLeft(cfg, [w] + rest) == WorkLeft(cfg, w) + TodoLeft(cfg, rest)
  {
    assert ([w] + rest)[1..] == rest;
  }

  lemma TodoOne(cfg: Config, w: Work)
    ensures TodoLeft(cfg, [w]) == WorkLeft(cfg, w)
  {
    assert [w][1..] == [];
  }

  lemma HalvesCost(cfg: Config, c: Work, mid: nat)
    requires c.Chunk? && mid <= |c.calls| && c.depth < cfg.maxSplits
    ensures WorkLeft(cfg, Chunk(c.calls[..mid], c.depth + 1)) + WorkLeft(cfg, Chunk(c.calls[mid..], c.depth + 1)) + 2
         <= WorkLeft(cfg, c)
  {
    assert |c.calls[..mid]| + |c.calls[mid..]| == |c.calls|;
    assert SplitCost(cfg.maxSplits - c.depth) == 2 * SplitCost(cfg.maxSplits - c.depth - 1) + 2;
  }

  lemma SplitUsesWork(cfg: Config, c: Work, mid: nat, rest: seq<Work>)
    requires c.Chunk? && mid <= |c.calls| && c.depth < cfg.maxSplits
    ensures TodoLeft(cfg, [Chunk(c.calls[..mid], c.depth + 1), Chunk(c.calls[mid..], c.depth + 1)] + rest) + 2
         <= TodoLeft(cfg, [c] + rest)
  {
    var left, right := Chunk(c.calls[..mid], c.depth + 1), Chunk(c.calls[mid..], c.depth + 1);
    assert [left, right] + rest == [left] + ([right] + rest);
    TodoCons(cfg, left, [right] + rest);
    TodoCons(cfg, right, rest);
    TodoCons(cfg, c, rest);
    HalvesCost(cfg, c, mid);
  }

  /** What is done to the first piece of work, when that is all that changes. */
  lemma FirstWork(cfg: Config, todo: seq<Work>, w: Work)
    requires todo != []
    ensures TodoLeft(cfg, todo) == WorkLeft(cfg, todo[0]) + TodoLeft(cfg, todo[1..])
    ensures TodoLeft(cfg, [w] + todo[1..]) == WorkLeft(cfg, w) + TodoLeft(cfg, todo[1..])
  {
    TodoCons(cfg, w, todo[1..]);
  }

  /** Moves that leave the list of work as it is. */
  lemma PhaseDecreases(cfg: Config, s: System, w: Worker, m: Move)
    requires cfg.minRetryBatch >= 1 && WorkerOk(cfg, w) && Enabled(s, w, m)
    requires !m.Begin? && Next(cfg, s, w, m).todo == w.todo
    ensures StepsLeft(cfg)(Next(cfg, s, w, m)) < StepsLeft(cfg)(w)
  {
  }

  lemma HalvingDecreases(cfg: Config, w: Worker)
    requires cfg.minRetryBatch >= 1 && WorkerOk(cfg, w) && w.phase == Posted
    requires |w.todo[0].calls| > cfg.minRetryBatch && w.todo[0].depth < cfg.maxSplits
    ensures TodoLeft(cfg, Halves(cfg, w.todo[0]) + w.todo[1..]) + 2 <= TodoLeft(cfg, w.todo)
  {
    SplitUsesWork(cfg, w.todo[0], Midpoint(cfg.minRetryBatch, |w.todo[0].calls|), w.todo[1..]);
    assert [w.todo[0]] + w.todo[1..] == w.todo;
  }

  lemma BeginDecreases(cfg: Config, s: System, w: Worker)
    requires cfg.minRetryBatch >= 1 && w.phase == Idle
    ensures StepsLeft(cfg)(Next(cfg, s, w, Begin)) < StepsLeft(cfg)(w)
  {
    TodoOne(cfg, Chunk(w.calls, 0));
    TodoOne(cfg, Singles(w.calls));
  }

  lemma ReplyDecreases(cfg: Config, s: System, w: Worker, m: Move)
    requires cfg.minRetryBatch >= 1 && WorkerOk(cfg, w) && m.Reply? && Enabled(s, w, m)
    ensures StepsLeft(cfg)(Next(cfg, s, w, m)) < StepsLeft(cfg)(w)
  {
    match FateOf(cfg, m.reply, w.base, w.todo[0]) {
      case Crash => PhaseDecreases(cfg, s, w, m);
      case FallBack => FirstWork(cfg, w.todo, Singles(w.todo[0].calls));
      case Halve => HalvingDecreases(cfg, w);
      case Deliver => FirstWork(cfg, w.todo, w.todo[0]);
    }
  }

  lemma NextDecreases(cfg: Config, s: System, w: Worker, m: Move)
    requires cfg.minRetryBatch >= 1 && WorkerOk(cfg, w) && Enabled(s, w, m)
    ensures StepsLeft(cfg)(Next(cfg, s, w, m)) < StepsLeft(cfg)(w)
  {
    match m {
      case Reply(_) => ReplyDecreases(cfg, s, w, m);
      case EndCall(r) =>
        if CallAnswer(r).None? {
          PhaseDecreases(cfg, s, w, m);
        } else {
          FirstWork(cfg, w.todo, Singles(w.todo[0].calls[1..]));
        }
      case NoCallsLeft => FirstWork(cfg, w.todo, w.todo[0]);
      case Begin => BeginDecreases(cfg, s, w);
      case Admit => case Send => case StartCall => case Finish => PhaseDecreases(cfg, s, w, m);
    }
  }

  /** Every step uses up some of the work left, so every run is finite. */
  lemma StepDecreases(cfg: Config, s: System, i: nat, m: Move, s': System)
    requires Inv(cfg, s) && Step(cfg, s, i, m, s')
    ensures SumOf(s'.workers, StepsLeft(cfg)) < SumOf(s.workers, StepsLeft(cfg))
    ensures SumOf(s'.workers, StepsLeft(cfg)) >= 0
  {
    var w' := Next(cfg, s, s.workers[i], m);
    SumOfUpdate(s.workers, i, w', StepsLeft(cfg));
    NextDecreases(cfg, s, s.workers[i], m);
    HoldersNonNegative(s'.workers, StepsLeft(cfg));
  }

  // -------------------------------------------------------------------- whole runs

  datatype Action = Action(worker: nat, move: Move)

  ghost predicate Run(cfg: Config, states: seq<System>, actions: seq<Action>) {
    && |states| == |actions| + 1
    && Init(cfg, states[0])
    && forall k | 0 <= k < |actions| :: Step(cfg, states[k], actions[k].worker, actions[k].move, states[k+1])
  }

  lemma {:induction false} RunInv(cfg: Config, states: seq<System>, actions: seq<Action>, k: nat)
    requires Run(cfg, states, actions) && k < |states|
    ensures Inv(cfg, states[k])
  {
    if k == 0 {
      InitInv(cfg, states[0]);
    } else {
      RunInv(cfg, states, actions, k - 1);
      assert Step(cfg, states[k-1], actions[k-1].worker, actions[k-1].move, states[k]);
      StepInv(cfg, states[k-1], actions[k-1].worker, actions[k-1].move, states[k]);
    }
  }

  lemma {:induction false} RunDecreases(cfg: Config, states: seq<System>, actions: seq<Action>, k: nat)
    requires Run(cfg, states, actions) && k < |states|
    ensures k + SumOf(states[k].workers, StepsLeft(cfg)) <= SumOf(states[0].workers, StepsLeft(cfg))
  {
    if k > 0 {
      RunDecreases(cfg, states, actions, k - 1);
      RunInv(cfg, states, actions, k - 1);
      assert Step(cfg, states[k-1], actions[k-1].worker, actions[k-1].move, states[k]);
      StepDecreases(cfg, states[k-1], actions[k-1].worker, actions[k-1].move, states[k]);
    }
  }

  /** The workers and what they are asked for never change. */
  ghost predicate SameCalls(s: System, s': System) {
    && |s'.workers| == |s.workers|
    && forall i | 0 <= i < |s.workers| :: s'.workers[i].calls == s.workers[i].calls
  }

  lemma StepKeepsCalls(cfg: Config, s: System, i: nat, m: Move, s': System)
    requires Step(cfg, s, i, m, s')
    ensures SameCalls(s, s')
  {
    assert Next(cfg, s, s.workers[i], m).calls == s.workers[i].calls;
  }

  lemma {:induction false} RunKeepsCalls(cfg: Config, states: seq<System>, actions: seq<Action>, k: nat)
    requires Run(cfg, states, actions) && k < |states|
    ensures SameCalls(states[0], states[k])
  {
    if k > 0 {
      RunKeepsCalls(cfg, states, actions, k - 1);
      assert Step(cfg, states[k-1], actions[k-1].worker, actions[k-1].move, states[k]);
      StepKeepsCalls(cfg, states[k-1], actions[k-1].worker, actions[k-1].move, states[k]);
    }
  }

  /** Safety over whole runs: never more root chunks active than batch slots, never more
      single calls in flight than call slots, and no run is longer than the work at its start. */
  lemma RunsAreBoundedAndSafe(cfg: Config, states: seq<System>, actions: seq<Action>, k: nat)
    requires Run(cfg, states, actions) && k < |states|
    ensures SumOf(states[k].workers, HoldsBatch) <= cfg.batchSlots
    ensures SumOf(states[k].workers, HoldsCall) <= cfg.callSlots
    ensures |actions| <= SumOf(states[0].workers, StepsLeft(cfg))
  {
    RunInv(cfg, states, actions, k);
    RunInv(cfg, states, actions, |actions|);
    RunDecreases(cfg, states, actions, |actions|);
    HoldersNonNegative(states[|actions|].workers, StepsLeft(cfg));
  }

  /** A run that cannot be continued has finished every worker: each has crashed or has
      answered all of its calls. */
  lemma MaximalRunsComplete(cfg: Config, states: seq<System>, actions: seq<Action>, i: nat)
    requires Run(cfg, states, actions) && cfg.batchSlots >= 1 && cfg.callSlots >= 1
    requires !CanStep(states[|actions|]) && i < |states[0].workers|
    ensures |states[|actions|].workers| == |states[0].workers|
    ensures var w := states[|actions|].workers[i];
            w.phase == Crashed
              || (w.phase == Finished && |w.results| == |w.calls| && w.calls == states[0].workers[i].calls)
  {
    var s := states[|actions|];
    RunInv(cfg, states, actions, |actions|);
    RunKeepsCalls(cfg, states, actions, |actions|);
    if SomeLive(s) {
      NoDeadlock(cfg, s);
    }
    assert !Live(s.workers[i]);
    assert WorkerOk(cfg, s.workers[i]);
  }

  // ------------------------------------------------------------- whose result is it

  /** A reply in the run, to a request of worker `i`, said `res` to number `id`. */
  ghost predicate SaidInRun(actions: seq<Action>, upto: nat, i: nat, id: nat, res: RpcResult) {
    exists j :: 0 <= j < upto && j < |actions| && actions[j].worker == i && SaysTo(actions[j].move, id) == Some(res)
  }

  lemma SaidLonger(actions: seq<Action>, k: nat, i: nat, id: nat, res: RpcResult)
    requires SaidInRun(actions, k, i, id, res)
    ensures SaidInRun(actions, k + 1, i, id, res)
  {
    var j :| 0 <= j < k && j < |actions| && actions[j].worker == i && SaysTo(actions[j].move, id) == Some(res);
  }

  /** One step writes only answers of its own reply, on tickets of its own worker. */
  lemma AnswerIsNew(cfg: Config, s: System, i: nat, m: Move, s': System, id: nat)
    requires Inv(cfg, s) && Step(cfg, s, i, m, s') && 1 <= id <= |s'.tickets| && s'.tickets[id-1].answer.Some?
    ensures (id <= |s.tickets| && s.tickets[id-1] == s'.tickets[id-1])
            || (s'.tickets[id-1].owner == i && SaysTo(m, id) == s'.tickets[id-1].answer)
  {
    assert TicketsOk(s.tickets, i, s.workers[i]);
  }

  lemma {:induction false} TicketsAreTrue(cfg: Config, states: seq<System>, actions: seq<Action>, k: nat, id: nat)
    requires Run(cfg, states, actions) && k < |states|
    requires 1 <= id <= |states[k].tickets| && states[k].tickets[id-1].answer.Some?
    ensures SaidInRun(actions, k, states[k].tickets[id-1].owner, id, states[k].tickets[id-1].answer.value)
  {
    if k > 0 {
      RunInv(cfg, states, actions, k - 1);
      var a := actions[k-1];
      assert Step(cfg, states[k-1], a.worker, a.move, states[k]);
      AnswerIsNew(cfg, states[k-1], a.worker, a.move, states[k], id);
      if id <= |states[k-1].tickets| && states[k-1].tickets[id-1] == states[k].tickets[id-1] {
        TicketsAreTrue(cfg, states, actions, k - 1, id);
        SaidLonger(actions, k - 1, states[k].tickets[id-1].owner, id, states[k].tickets[id-1].answer.value);
      }
    }
  }

  /** Alignment under overlap: however requests of different workers interleave, result `n`
      of a worker is what a reply to that worker said to the number given to its call `n`. */
  lemma ResultsAreAligned(cfg: Config, states: seq<System>, actions: seq<Action>, k: nat, i: nat, n: nat)
    requires Run(cfg, states, actions) && k < |states| && i < |states[k].workers|
    requires n < |states[k].workers[i].results|
    ensures var w := states[k].workers[i];
            && n < |w.via| && n < |w.calls|
            && TicketSays(states[k].tickets, i, w.calls[n], w.via[n], w.results[n])
            && SaidInRun(actions, k, i, w.via[n], w.results[n])
  {
    RunInv(cfg, states, actions, k);
    var w := states[k].workers[i];
    assert TicketsOk(states[k].tickets, i, w);
    assert TicketSays(states[k].tickets, i, w.calls[n], w.via[n], w.results[n]);
    TicketsAreTrue(cfg, states, actions, k, w.via[n]);
  }

  /** No request number serves two calls, of one worker or of two. */
  lemma NumbersAreDistinct(cfg: Config, states: seq<System>, actions: seq<Action>, k: nat, i: nat, n: nat, j: nat,
                           l: nat)
    requires Run(cfg, states, actions) && k < |states| && i < |states[k].workers| && j < |states[k].workers|
    requires n < |states[k].workers[i].via| && l < |states[k].workers[j].via|
    requires states[k].workers[i].via[n] == states[k].workers[j].via[l]
    ensures i == j && n == l
  {
    RunInv(cfg, states, actions, k);
    var s := states[k];
    assert TicketsOk(s.tickets, i, s.workers[i]) && TicketsOk(s.tickets, j, s.workers[j]);
    assert TicketSays(s.tickets, i, s.workers[i].calls[n], s.workers[i].via[n], s.workers[i].results[n]);
    assert TicketSays(s.tickets, j, s.workers[j].calls[l], s.workers[j].via[l], s.workers[j].results[l]);
  }

  // ------------------------------------------------------------------ when runs get stuck

  ghost predicate DeadlockFree(cfg: Config) {
    forall states: seq<System>, actions: seq<Action> ::
      Run(cfg, states, actions) && SomeLive(states[|actions|]) ==> CanStep(states[|actions|])
  }

  /** A run of one step that never goes on. */
  lemma StuckAfterBegin(cfg: Config, s: System, s': System)
    requires Init(cfg, s) && Step(cfg, s, 0, Begin, s') && SomeLive(s') && !CanStep(s')
    ensures !DeadlockFree(cfg)
  {
    assert Run(cfg, [s, s'], [Action(0, Begin)]);
  }

  /** With no call slots a single call waits forever, whatever the other settings. */
  lemma NoCallSlotsDeadlock(cfg: Config, call: Call)
    requires cfg.minRetryBatch >= 1 && cfg.callSlots == 0
    ensures !DeadlockFree(cfg)
  {
    var w := Worker(false, [call], [], [], [Singles([call])], Idle, 0);
    var s := System([w], cfg.batchSlots, 0, None, []);
    var s' := s.(workers := [w.(phase := Ready)]);
    assert s.workers[0 := Begun(s.supported, w)] == s'.workers;
    assert Live(s'.workers[0]);
    StuckAfterBegin(cfg, s, s');
  }

  /** With no batch slots a batch would wait forever. */
  lemma NoBatchSlotsDeadlock(cfg: Config, call: Call)
    requires cfg.minRetryBatch >= 1 && cfg.batchSlots == 0
    ensures !DeadlockFree(cfg)
  {
    var w := Worker(true, [call], [], [], [Singles([call])], Idle, 0);
    var s := System([w], 0, cfg.callSlots, None, []);
    var s' := s.(workers := [w.(phase := Waiting, todo := [Chunk([call], 0)])]);
    assert s.workers[0 := Begun(s.supported, w)] == s'.workers;
    assert Live(s'.workers[0]);
    StuckAfterBegin(cfg, s, s');
  }

  lemma SlotsSuffice(cfg: Config)
    requires cfg.batchSlots >= 1 && cfg.callSlots >= 1
    ensures DeadlockFree(cfg)
  {
    forall states: seq<System>, actions: seq<Action> | Run(cfg, states, actions) && SomeLive(states[|actions|])
      ensures CanStep(states[|actions|])
    {
      RunInv(cfg, states, actions, |actions|);
      NoDeadlock(cfg, states[|actions|]);
    }
  }

  /** No run gets stuck exactly when there is a slot of each kind, ... */
  lemma DeadlockFreeIff(cfg: Config)
    requires cfg.minRetryBatch >= 1
    ensures DeadlockFree(cfg) <==> cfg.batchSlots >= 1 && cfg.callSlots >= 1
  {
    if cfg.callSlots == 0 {
      NoCallSlotsDeadlock(cfg, Call("eth_call", ""));
    } else if cfg.batchSlots == 0 {
      NoBatchSlotsDeadlock(cfg, Call("eth_call", ""));
    } else {
      SlotsSuffice(cfg);
    }
  }

  /** ... so a client that the constructor accepts never gets stuck exactly when
      max_concurrency is at least 1: the batch slots are clamped, the call slots are not. */
  lemma ClientDeadlockFreeIff(batchConcurrency: int, maxConcurrency: int, minRetryBatch: int, maxSplits: int)
    requires maxConcurrency >= 0
    ensures DeadlockFree(Configured(batchConcurrency, maxConcurrency, minRetryBatch, maxSplits).value)
        <==> maxConcurrency >= 1
  {
    DeadlockFreeIff(Configured(batchConcurrency, maxConcurrency, minRetryBatch, maxSplits).value);
  }

  // -------------------------------------------------------------- the fallback is for good

  predicate RefusedBy(a: Action) { a.move.Reply? && Refuses(BatchPost([], a.move.reply)) }

  /** Batching is known to be unsupported exactly when some batch was refused before. */
  lemma {:induction false} UnsupportedIffRefused(cfg: Config, states: seq<System>, actions: seq<Action>, k: nat)
    requires Run(cfg, states, actions) && k < |states|
    ensures states[k].supported == Some(false) <==> exists j :: 0 <= j < k && RefusedBy(actions[j])
  {
    if k > 0 {
      UnsupportedIffRefused(cfg, states, actions, k - 1);
      assert Step(cfg, states[k-1], actions[k-1].worker, actions[k-1].move, states[k]);
      if states[k].supported == Some(false) && states[k-1].supported != Some(false) {
        assert RefusedBy(actions[k-1]);
      }
    }
  }

  /** Nothing left to do for the worker is a batch. */
  ghost predicate SinglesOnly(w: Worker) {
    && w.phase != Waiting && w.phase != Posted
    && forall t | t in w.todo :: t.Singles?
  }

  lemma SinglesStay(cfg: Config, s: System, i: nat, m: Move, s': System, k: nat)
    requires Step(cfg, s, i, m, s') && s.supported == Some(false)
    requires k < |s.workers| && SinglesOnly(s.workers[k])
    ensures |s'.workers| == |s.workers| && SinglesOnly(s'.workers[k])
    ensures i == k ==> m != Send
  {
    if i == k {
      var w := s.workers[k];
      assert w.todo != [] ==> w.todo[0] in w.todo;
      assert !m.Send? && !m.Reply?;
      if w.todo != [] {
        assert forall t | t in w.todo[1..] :: t in w.todo;
      }
    }
  }

  /** A worker that has not begun when a batch has been refused never asks for a batch. */
  lemma {:induction false} LateWorkersUseSingles(cfg: Config, states: seq<System>, actions: seq<Action>, j: nat, k: nat,
                                                 i: nat)
    requires Run(cfg, states, actions) && j <= k < |states| && states[j].supported == Some(false)
    requires i < |states[j].workers| && states[j].workers[i].phase == Idle
    ensures i < |states[k].workers| && SinglesOnly(states[k].workers[i])
    decreases k
  {
    if j == k {
      RunInv(cfg, states, actions, j);
      assert WorkerOk(cfg, states[j].workers[i]);
    } else {
      LateWorkersUseSingles(cfg, states, actions, j, k - 1, i);
      NotSupportedIsForever(cfg, states, actions, j, k - 1);
      assert Step(cfg, states[k-1], actions[k-1].worker, actions[k-1].move, states[k]);
      SinglesStay(cfg, states[k-1], actions[k-1].worker, actions[k-1].move, states[k], i);
    }
  }

  /** The fallback is for good: after the reply that refuses a batch, whoever it was for, every
      batch that is posted belongs to a worker that had begun before. */
  lemma NoBatchAfterRefusal(cfg: Config, states: seq<System>, actions: seq<Action>, j: nat, k: nat)
    requires Run(cfg, states, actions) && j < k < |actions| && RefusedBy(actions[j]) && actions[k].move == Send
    ensures actions[k].worker < |states[j+1].workers| && states[j+1].workers[actions[k].worker].phase != Idle
  {
    UnsupportedIffRefused(cfg, states, actions, j + 1);
    var i := actions[k].worker;
    RunKeepsCalls(cfg, states, actions, j + 1);
    RunKeepsCalls(cfg, states, actions, k);
    assert Step(cfg, states[k], i, actions[k].move, states[k+1]);
    if states[j+1].workers[i].phase == Idle {
      LateWorkersUseSingles(cfg, states, actions, j + 1, k, i);
      NotSupportedIsForever(cfg, states, actions, j + 1, k);
      SinglesStay(cfg, states[k], i, actions[k].move, states[k+1], i);
    }
  }

  /** Once a server is known not to batch, no later state forgets it. */
  lemma {:induction false} NotSupportedIsForever(cfg: Config, states: seq<System>, actions: seq<Action>, j: nat, k: nat)
    requires Run(cfg, states, actions) && j <= k < |states| && states[j].supported == Some(false)
    ensures states[k].supported == Some(false)
    decreases k
  {
    if j < k {
      NotSupportedIsForever(cfg, states, actions, j, k - 1);
      assert Step(cfg, states[k-1], actions[k-1].worker, actions[k-1].move, states[k]);
      SupportedStep(cfg, states[k-1], actions[k-1].worker, actions[k-1].move, states[k]);
    }
  }
}
