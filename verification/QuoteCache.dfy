/** The per-block quote cache and the batch quoting that reads through it (cache.py and
    quote_edges_batch of arb_engine.py).

    An edge is represented by its edge key, and a cache key by the edge key and the input
    amount that its text is formatted from. The quoting services are one deterministic oracle
    per block, edge and amount. */
module QuoteCache {
  import opened Outcomes

  type EdgeKey = string
  type Block = (int, int)
  type CacheKey = (EdgeKey, int)
  type QuoteMap = map<EdgeKey, Option<Quote>>

  datatype Quote = Quote(amountOut: int, meta: int)

  /** `family` is the position of an edge's venue family in the dispatch order; positions from
      FAMILIES on are unknown families. `usable` is false for a missing adapter or a request
      that cannot be encoded. */
  datatype Provider = Provider(family: EdgeKey -> nat, usable: (EdgeKey, int) -> bool,
                               answer: (Block, EdgeKey, int) -> Option<Quote>)

  const FAMILIES: nat := 8

  predicate Servable(p: Provider, edge: EdgeKey, amount: int) {
    p.family(edge) < FAMILIES && p.usable(edge, amount)
  }

  /** What the services say about an edge at an amount in a block. */
  function Known(p: Provider, block: Block, edge: EdgeKey, amount: int): Option<Quote> {
    if Servable(p, edge, amount) then p.answer(block, edge, amount) else None
  }

  function Keys(edges: seq<EdgeKey>): (r: set<EdgeKey>)
    ensures forall k :: k in r <==> k in edges
  {
    set k | k in edges
  }

  /** The map that quoting the edges with an empty cache would give. */
  function Expected(p: Provider, block: Block, keys: set<EdgeKey>, amount: int): QuoteMap {
    map k | k in keys :: Known(p, block, k, amount)
  }

  ghost predicate Agree(p: Provider, block: Block, entries: map<CacheKey, Option<Quote>>) {
    forall k | k in entries :: entries[k] == Known(p, block, k.0, k.1)
  }

  /** A cached failure reads like a missing entry. */
  function Lookup(entries: map<CacheKey, Option<Quote>>, k: CacheKey): Option<Quote> {
    if k in entries then entries[k] else None
  }

  datatype Op = Reset(chainId: int, blockNumber: int) | Put(key: CacheKey, value: Option<Quote>)

  datatype State = State(key: Option<Block>, data: map<CacheKey, Option<Quote>>)

  function Apply(s: State, op: Op): State {
    match op
    case Reset(c, b) => if s.key == Some((c, b)) then s else State(Some((c, b)), map[])
    case Put(k, v) => s.(data := s.data[k := v])
  }

  class PerBlockCache {
    var key: Option<Block>
    var data: map<CacheKey, Option<Quote>>

    constructor ()
      ensures key == None && data == map[]
    {
      key, data := None, map[];
    }

    /** Every entry is what the services say about the block the cache is for. */
    ghost predicate Sound(p: Provider)
      reads this
    {
      key.Some? ==> Agree(p, key.value, data)
    }

    ghost function View(): State
      reads this
    {
      State(key, data)
    }

    /** Whatever was cached before, and for whichever block, nothing of another chain or block
        survives. */
    method ResetIfNewBlock(chainId: int, blockNumber: int)
      modifies this
      ensures View() == Apply(old(View()), Reset(chainId, blockNumber))
      ensures forall p :: old(Sound(p)) ==> Agree(p, (chainId, blockNumber), data)
    {
      var k := Some((chainId, blockNumber));
      if key != k {
        key := k;
        data := map[];
      }
    }

    method Get(k: CacheKey) returns (r: Option<Quote>)
      ensures r == Lookup(data, k)
      ensures forall p | Sound(p) && key.Some? && r.Some? :: r == Known(p, key.value, k.0, k.1)
    {
      r := if k in data then data[k] else None;
    }

    method Set(k: CacheKey, value: Option<Quote>)
      modifies this`data
      ensures View() == Apply(old(View()), Put(k, value))
      ensures forall p | old(Sound(p)) && key.Some? && value == Known(p, key.value, k.0, k.1) :: Sound(p)
    {
      data := data[k := value];
    }
  }

  // --------------------------------------------------- late answers and shared caches

  /** The tasks that share a cache reset it for a block, or store the answer to a question that
      was asked in some block, not necessarily the one that the cache is for by then. */
  datatype Event = NewBlock(block: Block) | Answer(key: CacheKey, asked: Block)

  function OpOf(p: Provider, e: Event): Op {
    match e
    case NewBlock(b) => Reset(b.0, b.1)
    case Answer(k, asked) => Put(k, Known(p, asked, k.0, k.1))
  }

  function Run(p: Provider, s: State, events: seq<Event>): State {
    if events == [] then s else Apply(Run(p, s, events[..|events|-1]), OpOf(p, events[|events|-1]))
  }

  /** The block that the cache is for. */
  function BlockOf(events: seq<Event>): Option<Block> {
    if events == [] then None
    else
      var e := events[|events|-1];
      if e.NewBlock? then Some(e.block) else BlockOf(events[..|events|-1])
  }

  /** The event wipes whatever the events before it have stored. */
  predicate Wipes(before: seq<Event>, e: Event) { e.NewBlock? && BlockOf(before) != Some(e.block) }

  predicate Overwrites(e: Event, k: CacheKey) { e.Answer? && e.key == k }

  /** The answer stored by event i is still in the cache at the end. */
  ghost predicate Survives(events: seq<Event>, i: nat) {
    && i < |events| && events[i].Answer?
    && forall j | i < j < |events| :: !Wipes(events[..j], events[j]) && !Overwrites(events[j], events[i].key)
  }

  /** The block that each entry was asked in. */
  function AskedIn(events: seq<Event>): map<CacheKey, Block> {
    if events == [] then map[]
    else
      var before, e := events[..|events|-1], events[|events|-1];
      match e
      case NewBlock(_) => if Wipes(before, e) then map[] else AskedIn(before)
      case Answer(k, asked) => AskedIn(before)[k := asked]
  }

  lemma SurvivesSnoc(events: seq<Event>, i: nat)
    requires i < |events| - 1
    ensures var before, e := events[..|events|-1], events[|events|-1];
            Survives(events, i) <==> Survives(before, i) && !Wipes(before, e) && !Overwrites(e, events[i].key)
  {
    var n := |events| - 1;
    var before := events[..n];
    assert forall j | 0 <= j < n :: before[..j] == events[..j] && before[j] == events[j];
    if Survives(before, i) && !Wipes(before, events[n]) && !Overwrites(events[n], events[i].key) {
      forall j | i < j < |events| ensures !Wipes(events[..j], events[j]) && !Overwrites(events[j], events[i].key) {
        if j < n {
          assert !Wipes(before[..j], before[j]) && !Overwrites(before[j], before[i].key);
        }
      }
    }
    if Survives(events, i) {
      forall j | i < j < n ensures !Wipes(before[..j], before[j]) && !Overwrites(before[j], before[i].key) {
        assert !Wipes(events[..j], events[j]) && !Overwrites(events[j], events[i].key);
      }
    }
  }

  /** The entries are exactly the surviving answers, ... */
  lemma {:induction false} EntriesSurvive(events: seq<Event>, k: CacheKey) returns (i: nat)
    requires k in AskedIn(events)
    ensures Survives(events, i) && events[i].key == k && events[i].asked == AskedIn(events)[k]
  {
    var n := |events| - 1;
    if Overwrites(events[n], k) {
      i := n;
    } else {
      i := EntriesSurvive(events[..n], k);
      SurvivesSnoc(events, i);
    }
  }

  /** ... each under the block it was asked in. */
  lemma {:induction false} SurvivorsAreEntries(events: seq<Event>, i: nat)
    requires Survives(events, i)
    ensures events[i].key in AskedIn(events) && AskedIn(events)[events[i].key] == events[i].asked
  {
    if i < |events| - 1 {
      SurvivesSnoc(events, i);
      SurvivorsAreEntries(events[..|events|-1], i);
    }
  }

  /** What the cache holds once it is for a block: whatever it held before is gone. */
  lemma {:induction false} DataIsAsAsked(p: Provider, s: State, events: seq<Event>)
    requires s.key.None?
    ensures Run(p, s, events).key == BlockOf(events)
    ensures BlockOf(events).Some? ==>
              Run(p, s, events).data == map k | k in AskedIn(events) :: Known(p, AskedIn(events)[k], k.0, k.1)
  {
    if events != [] {
      DataIsAsAsked(p, s, events[..|events|-1]);
    }
  }

  /** Services that answer differently in every other block. */
  function Telling(b: Block): Provider {
    Provider(_ => 0, (_, _) => true, (block, _, _) => if block == b then Some(Quote(1, 0)) else None)
  }

  /** Every answer that is still in the cache was asked in block b. */
  ghost predicate NoneStale(events: seq<Event>, b: Block) {
    forall i: nat | Survives(events, i) :: events[i].asked == b
  }

  lemma SurvivorsMakeHits(p: Provider, s: State, events: seq<Event>, b: Block)
    requires s.key.None? && BlockOf(events) == Some(b) && NoneStale(events, b)
    ensures Agree(p, b, Run(p, s, events).data)
  {
    DataIsAsAsked(p, s, events);
    forall k | k in AskedIn(events) ensures AskedIn(events)[k] == b {
      var i := EntriesSurvive(events, k);
    }
  }

  lemma StaleIsServed(s: State, events: seq<Event>, b: Block, i: nat)
    requires s.key.None? && BlockOf(events) == Some(b) && Survives(events, i) && events[i].asked != b
    ensures !Agree(Telling(b), b, Run(Telling(b), s, events).data)
  {
    SurvivorsAreEntries(events, i);
    DataIsAsAsked(Telling(b), s, events);
    var k := events[i].key;
    assert Run(Telling(b), s, events).data[k] == None;
    assert Known(Telling(b), b, k.0, k.1) == Some(Quote(1, 0));
  }

  /** When a hit belongs to the block of the last reset, over every run of resets and answers
      and for whatever services: exactly when every answer that is still there was asked in
      that block. The cache does not look: an answer that arrives after the reset for the next
      block is kept for that block. */
  lemma HitsBelongToTheBlock(s: State, events: seq<Event>, b: Block)
    requires s.key.None? && BlockOf(events) == Some(b)
    ensures (forall p :: Agree(p, b, Run(p, s, events).data)) <==> NoneStale(events, b)
  {
    if NoneStale(events, b) {
      forall p ensures Agree(p, b, Run(p, s, events).data) {
        SurvivorsMakeHits(p, s, events, b);
      }
    } else {
      var i: nat :| Survives(events, i) && events[i].asked != b;
      StaleIsServed(s, events, b, i);
    }
  }

  /** No answer arrives after the block it was asked in. */
  ghost predicate Timely(events: seq<Event>) {
    forall i | 0 <= i < |events| && events[i].Answer? :: BlockOf(events[..i]) == Some(events[i].asked)
  }

  lemma {:induction false} SurvivorsKeepTheBlock(events: seq<Event>, i: nat)
    requires Survives(events, i) && BlockOf(events[..i]).Some?
    ensures BlockOf(events) == BlockOf(events[..i])
  {
    var n := |events| - 1;
    if i < n {
      SurvivesSnoc(events, i);
      assert events[..n][..i] == events[..i];
      SurvivorsKeepTheBlock(events[..n], i);
      assert !Wipes(events[..n], events[n]);
    }
  }

  /** Answers in time are enough; late ones do harm only while they survive. */
  lemma TimelyAnswersAreEnough(p: Provider, s: State, events: seq<Event>, b: Block)
    requires s.key.None? && BlockOf(events) == Some(b) && Timely(events)
    ensures Agree(p, b, Run(p, s, events).data)
  {
    forall i: nat | Survives(events, i) ensures events[i].asked == b {
      SurvivorsKeepTheBlock(events, i);
    }
    SurvivorsMakeHits(p, s, events, b);
  }

  /** One late answer is enough to break it: the quote of block a is served as one of block b. */
  lemma LateAnswerIsServed(k: CacheKey, a: Block, b: Block)
    requires a != b
    ensures var events := [NewBlock(a), NewBlock(b), Answer(k, a)];
            BlockOf(events) == Some(b) && !forall p :: Agree(p, b, Run(p, State(None, map[]), events).data)
  {
    var events := [NewBlock(a), NewBlock(b), Answer(k, a)];
    assert events[..2] == [NewBlock(a), NewBlock(b)];
    assert BlockOf(events[..2]) == Some(b);
    assert Survives(events, 2);
    HitsBelongToTheBlock(State(None, map[]), events, b);
  }

  // -------------------------------------------------------------------- quote_edges_batch

  ghost predicate Partial(p: Provider, block: Block, edges: seq<EdgeKey>, amount: int, out: QuoteMap) {
    forall k | k in out :: k in edges && out[k] == Known(p, block, k, amount)
  }

  lemma PartialComplete(p: Provider, block: Block, edges: seq<EdgeKey>, amount: int, out: QuoteMap)
    requires Partial(p, block, edges, amount, out) && forall k | k in edges :: k in out
    ensures out == Expected(p, block, Keys(edges), amount)
  {
  }

  /** Reads the cache first; what is left over goes to the services. */
  method ReadCache(p: Provider, cache: PerBlockCache, edges: seq<EdgeKey>, amount: int)
    returns (out: QuoteMap, missing: seq<EdgeKey>)
    requires cache.key.Some? && cache.Sound(p)
    ensures Partial(p, cache.key.value, edges, amount, out)
    ensures forall k | k in edges :: k in out || k in missing
    ensures forall k | k in missing :: k in edges && Servable(p, k, amount)
    ensures forall k | k in edges && k !in missing && Servable(p, k, amount) :: (k, amount) in cache.data
  {
    out, missing := map[], [];
    for i := 0 to |edges|
      invariant Partial(p, cache.key.value, edges, amount, out)
      invariant forall j | 0 <= j < i :: edges[j] in out || edges[j] in missing
      invariant forall j | 0 <= j < i && edges[j] !in missing && Servable(p, edges[j], amount) ::
          (edges[j], amount) in cache.data
      invariant forall k | k in missing :: k in edges && Servable(p, k, amount)
    {
      var hit := cache.Get((edges[i], amount));
      if hit.Some? {
        out := out[edges[i] := hit];
      } else if p.family(edges[i]) >= FAMILIES || !p.usable(edges[i], amount) {
        out := out[edges[i] := None];
      } else {
        missing := missing + [edges[i]];
      }
    }
  }

  /** One venue family's batch: its answers go to the result and to the cache. */
  method QuoteFamily(p: Provider, cache: PerBlockCache, edges: seq<EdgeKey>, missing: seq<EdgeKey>, amount: int,
                     family: nat, before: QuoteMap) returns (out: QuoteMap)
    requires cache.key.Some? && cache.Sound(p) && family < FAMILIES
    requires Partial(p, cache.key.value, edges, amount, before)
    requires forall k | k in missing :: k in edges && Servable(p, k, amount)
    modifies cache`data
    ensures cache.Sound(p)
    ensures Partial(p, cache.key.value, edges, amount, out)
    ensures forall k | k in before :: k in out
    ensures forall k | k in missing && p.family(k) == family :: k in out && (k, amount) in cache.data
    ensures forall k | k in old(cache.data) :: k in cache.data
  {
    out := before;
    for i := 0 to |missing|
      invariant cache.Sound(p)
      invariant Partial(p, cache.key.value, edges, amount, out)
      invariant forall k | k in before :: k in out
      invariant forall j | 0 <= j < i && p.family(missing[j]) == family ::
                  missing[j] in out && (missing[j], amount) in cache.data
      invariant forall k | k in old(cache.data) :: k in cache.data
    {
      if p.family(missing[i]) == family {
        var quote := p.answer(cache.key.value, missing[i], amount);
        out := out[missing[i] := quote];
        cache.Set((missing[i], amount), quote);
      }
    }
  }

  /** The answers of the families before `upto` are in the cache. */
  ghost predicate FamiliesCached(p: Provider, data: map<CacheKey, Option<Quote>>, edges: seq<EdgeKey>, amount: int,
                                 upto: nat) {
    forall k | k in edges && Servable(p, k, amount) && p.family(k) < upto :: (k, amount) in data
  }

  lemma FamiliesStayCached(p: Provider, data: map<CacheKey, Option<Quote>>, later: map<CacheKey, Option<Quote>>,
                           edges: seq<EdgeKey>, amount: int, upto: nat)
    requires FamiliesCached(p, data, edges, amount, upto) && forall k | k in data :: k in later
    ensures FamiliesCached(p, later, edges, amount, upto)
  {
  }

  /** Quotes the edges at one amount. `interruptedAt` is the family before which the call is
      cancelled or fails, if it is; `others` is what concurrent calls write to the cache while
      this one waits for a family.

      A call that is not interrupted returns exactly what quoting without a cache returns; an
      interrupted one leaves only true entries behind. Either way the answers of every family
      that was finished are cached, and nothing is dropped from the cache. */
  method QuoteEdgesBatch(p: Provider, cache: PerBlockCache, edges: seq<EdgeKey>, amount: int,
                         interruptedAt: Option<nat>, others: nat -> map<CacheKey, Option<Quote>>)
    returns (r: Option<QuoteMap>)
    requires cache.key.Some? && cache.Sound(p)
    requires forall f :: Agree(p, cache.key.value, others(f))
    modifies cache`data
    ensures cache.Sound(p)
    ensures r == match interruptedAt
                 case None => Some(Expected(p, cache.key.value, Keys(edges), amount))
                 case Some(_) => None
    ensures forall k | k in old(cache.data) :: k in cache.data
    ensures FamiliesCached(p, cache.data, edges, amount, if interruptedAt.Some? then interruptedAt.value else FAMILIES)
  {
    ghost var block := cache.key.value;
    var out, missing := ReadCache(p, cache, edges, amount);
    var family := 0;
    while family < FAMILIES
      invariant family <= FAMILIES && cache.Sound(p)
      invariant Partial(p, block, edges, amount, out)
      invariant forall k | k in edges :: k in out || k in missing
      invariant forall k | k in missing && p.family(k) < family :: k in out && (k, amount) in cache.data
      invariant forall k | k in edges && k !in missing && Servable(p, k, amount) :: (k, amount) in cache.data
      invariant forall k | k in old(cache.data) :: k in cache.data
    {
      if interruptedAt == Some(family) {
        return None;
      }
      cache.data := cache.data + others(family);
      out := QuoteFamily(p, cache, edges, missing, amount, family, out);
      family := family + 1;
    }
    PartialComplete(p, block, edges, amount, out);
    r := if interruptedAt.Some? then None else Some(out);
  }

  // -------------------------------------------------------------------------- recovery

  predicate Recoverable(data: map<CacheKey, Option<Quote>>, edge: EdgeKey, amount: int) {
    var hit := Lookup(data, (edge, amount));
    hit.Some? && hit.value.amountOut > 0
  }

  /** The cached quotes with a positive output for these edges and this amount. */
  function RecoveredMap(data: map<CacheKey, Option<Quote>>, edges: seq<EdgeKey>, amount: int): (r: QuoteMap)
    ensures forall k :: k in r <==> k in edges && Recoverable(data, k, amount)
  {
    map k | k in edges && Recoverable(data, k, amount) :: Lookup(data, (k, amount))
  }

  /** Recovers exactly those quotes, and they are true if the cache is sound. */
  method RecoverCachedEdgeQuotes(cache: PerBlockCache, amount: int, edges: seq<EdgeKey>) returns (recovered: QuoteMap)
    ensures recovered == RecoveredMap(cache.data, edges, amount)
    ensures forall p | cache.key.Some? && cache.Sound(p) :: Partial(p, cache.key.value, edges, amount, recovered)
  {
    recovered := map[];
    for i := 0 to |edges|
      invariant forall k :: k in recovered <==> k in edges[..i] && Recoverable(cache.data, k, amount)
      invariant forall k | k in recovered :: recovered[k] == Lookup(cache.data, (k, amount))
    {
      var cached := cache.Get((edges[i], amount));
      if cached.Some? && cached.value.amountOut > 0 {
        recovered := recovered[edges[i] := cached];
      }
    }
    assert edges[..|edges|] == edges;
  }
}
