# Verified model of the Victor arbitrage backend

This project models the algorithmic core of a flash-loan arbitrage backend in Dafny and
proves what that core promises:

- **Split search** (`SplitCosts`, `SplitSearch`, `SplitTargets`, `SplitPlanning`): route evidence,
  exact integer and fraction arithmetic for split costs, the bounded depth-first search over
  partitions of a loan amount, deduplication and the shortlist.
- **Fair interleaving** (`RoundRobin`): interleaving of plans, route groups and scan samples.
- **JSON-RPC batching** (`RpcBatch`, `RpcInterleaving`): alignment of results under every server
  behaviour, and the same under overlap, with the two semaphores, as interleaved steps.
- **Portfolio selection** (`Portfolio`): greedy selection under simultaneous budgets.
- **Quoting** (`QuoteCache`, `QuoteWaves`, `QuoteCoalescing`, `QuoteGroups`): the per-block cache,
  deadline-bounded waves with cancellation, and request coalescing.
- **Frontier selection** (`Frontier`) and **gas price consensus** (`GasConsensus`).
- **Codecs** (`AbiWords`, `AbiSpec`, `AbiShapes`, `RouteEncoding`, `ExecuteShape`,
  `ExecutorCalldata`, `BalancerCodec`, `Withdrawal`): word encodings against an independent decoder
  written from the Formal Specification of the Encoding in the Solidity Contract ABI
  Specification, strict decoders, and the proof of an external withdrawal from a receipt.
- **Rate limiting** (`RateLimiter`) and **JSON normalisation** (`JsonSafe`).

`Outcomes` and `Ordering` hold shared values, sums, sequence lemmas and the stable sort. Run
`dafny verify dfyconfig.toml` to check everything.

## How the environment is modelled

- A server is a function from the number of a post to its reply; a quoting service is a
  deterministic function of block, edge and amount; how a started job ends, how far it gets and
  every clock reading are arbitrary. All results hold for every choice.
- Chunks that may overlap are sent one after the other in `RpcBatch`; every interleaving of their
  steps, with their request numbers and replies, is covered in `RpcInterleaving`, where also the
  single calls of a batch that falls back and the chunks after the first may overlap. Concurrent quote
  jobs run one after the other in `QuoteWaves`, but each waits at every venue family while others
  write arbitrary true entries to the shared cache.
- Keccak is an arbitrary function (the route id and the executor's selector are its values) or, for
  the withdrawal events and selectors, four parameters of the right lengths.
- Loops that change variables are methods with invariants proved against functions; the search
  state, the RPC client, the quote cache, the rate limiter and the normaliser's active set are
  classes.

## Where the code and its description part

- `search_truncated` is also set when the search ends exactly at the limit: the answer is already
  complete and optimal when the tree has exactly `max_search_states` nodes
  (`SplitSearch.SearchPool`).
- A batch raises, instead of returning one result per call, for a response id that overflows the
  integer conversion, for a single-call reply that is no object and for exceptions the client does
  not expect; these are exactly the cases (`RpcBatch.JsonRpcClient.Batch`,
  `RpcBatch.OverflowingIdRaises`).
- The last midpoint adjustment of a rate-limit split never applies.
- With `max_concurrency` 0 the client is built and its single calls wait forever; it is free of such
  runs exactly from 1 on (`RpcInterleaving.ClientDeadlockFreeIff`).
- The capped scan sample returns one edge even for cap 0 (`RoundRobin.RepresentativeScanSubset`).
- The per-block cache keeps an answer that arrives after the reset for the next block, and serves it
  for that block; hits can be trusted exactly while no such answer is left
  (`QuoteCache.HitsBelongToTheBlock`, `QuoteCache.LateAnswerIsServed`).
- The rate limiter raises on every request when `max_keys` is not positive
  (`RateLimiter.AnsweredIffKeysAllowed`).
- `decode_int256_array` accepts encodings that are not canonical
  (`BalancerCodec.LenientDecoderIsNotStrict`); its result can be trusted exactly when three checks
  hold (`BalancerCodec.LenientIsStrictIff`), and the 4096-byte limit on query errors never decides.

## Model

| member | source | states |
|---|---|---|
| `SplitSearch.SearchTreeEnumeratesSplits` | backend/victor_ai_bot/gas_adjusted_split_router.py:302-337 | The completed nodes of the depth-first tree are exactly the valid splits (2 to maxRoutes candidates, exact target, distinct routes, pairwise disjoint pools), each reached exactly once. |
| `SplitSearch.NodesComplete` | backend/victor_ai_bot/gas_adjusted_split_router.py:302-337 | Every valid split that extends a node is reached below that node; cutting at remaining 0 loses nothing because admitted amounts are positive. |
| `SplitSearch.SplitSearchState.RecordCompletedSplit` | backend/victor_ai_bot/gas_adjusted_split_router.py:280-299 | Recording changes the counters and the best plan exactly as one step of the reference fold: the best plan is replaced only by a strictly larger net. |
| `SplitSearch.SplitSearchState.Extend` | backend/victor_ai_bot/gas_adjusted_split_router.py:302-325 | Walking the children from a start index changes the state exactly as the budgeted fold over all descendants in preorder. |
| `SplitSearch.SplitSearchState.Walk` | backend/victor_ai_bot/gas_adjusted_split_router.py:328-337 | Walking a node changes the state exactly as the budgeted fold over its subtree; the fold stops at the state budget. |
| `SplitSearch.RunSummary` | backend/victor_ai_bot/gas_adjusted_split_router.py:328-337 | After the budget the state counts min(tree size, budget) states and the completed splits among the first that many nodes, with the first of the largest nets as best. |
| `SplitSearch.SearchPool` | backend/victor_ai_bot/gas_adjusted_split_router.py:370-387 | Over an ordered pool: at most maxStates states; truncated exactly when the tree has at least maxStates nodes; any plan is a valid split; with at most maxStates nodes the plan is optimal, absence means there is no split and the count is the number of valid splits. |
| `SplitTargets.SearchTargetAmount` | backend/victor_ai_bot/gas_adjusted_split_router.py:340-387 | The same on the caller's candidates in any order: a plan is always a real split with its exact totals and improvement; when the tree fits the budget it is optimal over all lists of the candidates that are splits, and no plan means none exists. |
| `SplitTargets.SplitHasPositions` | backend/victor_ai_bot/gas_adjusted_split_router.py:340-366 | Every split of the caller's candidates, however it is ordered, is a set of positions of the sorted pool with the same net. |
| `SplitTargets.PositionsAreSplit` | backend/victor_ai_bot/gas_adjusted_split_router.py:340-366 | Conversely a valid set of pool positions is a split of the caller's candidates with the same net. |
| `SplitCosts.CollectCycleLegIdentities` | backend/victor_ai_bot/gas_adjusted_split_identity.py:244-283 | Accepts exactly the closed cycles: every leg continues from the token before it, every pool is identified, pools differ, the last token is the borrowed one; the identity sets are those of the legs. |
| `SplitCosts.NormalizeCandidate` | backend/victor_ai_bot/gas_adjusted_split_identity.py:297-347 | Admits exactly the rows with complete, consistent cost evidence and a closed two- or three-leg cycle; everything admitted has positive amount, gross, gas cost and gas units and a non-empty pool set. |
| `SplitCosts.CeilTimesIsLeast` | backend/victor_ai_bot/gas_adjusted_split_router.py:179-205 | The rounded-up product with a fraction is the least integer that covers the exact product. |
| `SplitCosts.CeilTimesOfEqualRatios` | backend/victor_ai_bot/gas_adjusted_split_router.py:179-205 | The rounded-up product depends on the value of the fraction, not on numerator and denominator. |
| `SplitCosts.MaxConversionIsMax` | backend/victor_ai_bot/gas_adjusted_split_router.py:179-205 | The conversion rate used for a split is at least that of every part, by cross-multiplication. |
| `SplitCosts.CombinedCostCoversComponent` | backend/victor_ai_bot/gas_adjusted_split_router.py:179-205 | Despite three roundings and a maximum over fractions, the split's L2 units, native cost and gas-token cost are at least those observed for each part. |
| `SplitCosts.L2UnitsExact` | backend/victor_ai_bot/gas_adjusted_split_router.py:179-205 | Combined L2 units are the sum of the parts' units less 195000 per extra route, so never above the sum. |
| `SplitCosts.FeeReserveCoversWholeLoan` | backend/victor_ai_bot/arb_engine.py:2547-2549 | With floored fees per part and one unit reserved per extra route, the split's fee is at least the floored fee on the whole loan. |
| `SplitCosts.ShortfallIsBounded` | backend/victor_ai_bot/arb_engine.py:2547-2549 | Without the reserve the floored fees of n parts fall short of the fee on the whole by at most 9999n/10000, so by at most n - 1. |
| `SplitCosts.FeeReserveIsNeeded` | backend/victor_ai_bot/gas_adjusted_split_router.py:179-205 | For every number n of routes some amounts fall short by exactly 9999n/10000, which is the whole reserve of n - 1 exactly up to 10000 routes. |
| `SplitCosts.TotalsOfPermutation` | backend/victor_ai_bot/gas_adjusted_split_router.py:179-205 | All totals of a split depend on which parts it has, not on their order. |
| `SplitPlanning.DeduplicateCandidates` | backend/victor_ai_bot/gas_adjusted_split_router.py:84-100 | One row per (token, amount, route): the first of those with the best evidence rank. |
| `SplitPlanning.BestDiverseCandidateIndex` | backend/victor_ai_bot/gas_adjusted_split_router.py:114-136 | The first of the most diverse rows within the tolerance of the best net (every earlier row within it is strictly less diverse), or row 0 when none is within it. |
| `SplitPlanning.ShortlistAmountBucket` | backend/victor_ai_bot/gas_adjusted_split_router.py:139-159 | min(cap, n) distinct rows starting with a best one; no excluded row beats a chosen one by more than max(1, abs(best)*50/10000); each further row is the greedy choice. |
| `RoundRobin.InterleaveIsFair` | backend/victor_ai_bot/gas_adjusted_split_router.py:455-461 | An interleaving lists the elements at strictly increasing (depth, family) positions and visits every existing position: order within a family is kept and every depth-d element precedes every depth-(d+1) element. |
| `RoundRobin.InterleaveIsPermutation` | backend/victor_ai_bot/gas_adjusted_split_router.py:455-461 | An interleaving has exactly the elements of its families. |
| `RoundRobin.RoundRobinIsPermutation` | backend/victor_ai_bot/arb_engine.py:2010-2028 | Grouping a list into families and interleaving them keeps exactly its elements. |
| `RoundRobin.RoundRobin` | backend/victor_ai_bot/arb_engine.py:2017-2028 | The loop that adds one depth at a time until a depth adds nothing returns the interleaving. |
| `RoundRobin.RoundRobinByFamily` | backend/victor_ai_bot/arb_engine.py:2010-2028 | Grouping in order of first appearance and then interleaving; a permutation of the input. |
| `RoundRobin.RepresentativeScanSubset` | backend/victor_ai_bot/arb_engine.py:1394-1410 | The first max(1, cap) elements of the interleaving of the families (all of them if there are fewer); cap 0 still returns one edge. |
| `RpcBatch.JsonRpcClient.Batch` | backend/victor_ai_bot/rpc.py:99-329 | For every server, every logged reply being what the server says to the post of that number: one result per call in input order, result i being what some reply says to request number via[i] of calls[i]; fresh increasing request numbers; it raises exactly when a reply escapes; chunk after chunk the results come from the chunk's own post unless that reply is dropped, what is remembered about batching is exactly what all posts so far say, and after any batch that was answered by no list, in this call or an earlier one, a batch makes only single calls; at most chunks * (2^(splits+1) - 1) batch posts, with splits at most 6. |
| `RpcBatch.JsonRpcClient.SendChunk` | backend/victor_ai_bot/rpc.py:114-305 | One result per call of the chunk in order for every reply of the server at every split depth, with at most 2^(splits left + 1) - 1 batch posts; the results come from the chunk's own post unless that reply is a rate limit that may still be split or no list, and then all of them come from later requests. Afterwards what is remembered about batching is what the posts say. |
| `RpcBatch.JsonRpcClient.RateLimitRetry` | backend/victor_ai_bot/rpc.py:160-182 | Refuses exactly at the minimum size or depth limit; otherwise the two halves together deliver one result per call, aligned with what the server said. |
| `RpcBatch.JsonRpcClient.ReadList` | backend/victor_ai_bot/rpc.py:256-299 | Matching by id gives every call the last response with its id or the missing-response failure; a fully rate-limited list is split further; a list marks batching as supported exactly when nothing was known. |
| `RpcBatch.JsonRpcClient.FallBack` | backend/victor_ai_bot/rpc.py:249-254 | A reply that is no list turns batching off for good and the chunk is answered by single calls. |
| `RpcBatch.CapabilityMeans` | backend/victor_ai_bot/rpc.py:249-257 | Batching is known to be unsupported exactly when some batch was answered by something readable that is no list, and known to be supported exactly when some batch was answered by a list and none was refused. |
| `RpcBatch.RefusedStays` | backend/victor_ai_bot/rpc.py:249-257 | A refusal is never taken back, whatever is posted later. |
| `RpcBatch.JsonRpcClient.CallOne` | backend/victor_ai_bot/rpc.py:69-97 | A single call sends one post with a fresh number and returns what the server's reply to that post says; it raises exactly on a reply that is no object or an unexpected exception. |
| `RpcBatch.AnswersAreUnique` | backend/victor_ai_bot/rpc.py:65-67 | Over the whole life of a client a request number belongs to one call and has one answer. |
| `RpcBatch.SuccessComesFromServer` | backend/victor_ai_bot/rpc.py:259-295 | A success is never made up: the server put that value in the reply to a post that asked that very call under that very number. |
| `RpcBatch.ChunksFlatten` | backend/victor_ai_bot/rpc.py:108-112 | Chunking loses, duplicates and reorders nothing. |
| `RpcBatch.ChunksAreSmall` | backend/victor_ai_bot/rpc.py:108-112 | Every chunk has between 1 and max_batch calls. |
| `RpcBatch.OverflowingIdRaises` | backend/victor_ai_bot/rpc.py:259-265 | Against a server whose batch replies carry an id that overflows the integer conversion, every non-empty batch of a new client raises, whatever its settings, although another response of the same reply is usable. |
| `RpcInterleaving.InitInv` | backend/victor_ai_bot/rpc.py:46-54 | The start of any set of workers meets the invariant on slots, unanswered work and request numbers. |
| `RpcInterleaving.StepInv` | backend/victor_ai_bot/rpc.py:150-329 | Every interleaved step, for every reply, keeps the slot counts exact, every worker's unanswered calls in order, and every result with the call, the request number and the answer it belongs to. |
| `RpcInterleaving.NoDeadlock` | backend/victor_ai_bot/rpc.py:150-158 | With at least one slot of each kind some worker can always move, since splits take no second batch slot and call-slot holders never wait for a batch slot. |
| `RpcInterleaving.NoCallSlotsDeadlock` | backend/victor_ai_bot/rpc.py:33-54 | With no call slots, whatever the other settings, some run gets stuck: a single call waits forever. |
| `RpcInterleaving.DeadlockFreeIff` | backend/victor_ai_bot/rpc.py:150-158 | No run gets stuck with a worker unfinished if and only if there is at least one slot of each kind. |
| `RpcInterleaving.ClientDeadlockFreeIff` | backend/victor_ai_bot/rpc.py:33-54 | A client that the constructor accepts has no stuck run exactly when max_concurrency is at least 1: batch slots are clamped to at least 1, call slots are not. |
| `RpcInterleaving.RunsAreBoundedAndSafe` | backend/victor_ai_bot/rpc.py:150-158 | In every run never more root chunks than batch slots and never more single calls than call slots are active, and runs are finite. |
| `RpcInterleaving.MaximalRunsComplete` | backend/victor_ai_bot/rpc.py:307-329 | A run that cannot go on has answered all calls of every worker that did not crash. |
| `RpcInterleaving.ResultsAreAligned` | backend/victor_ai_bot/rpc.py:209-305 | However requests of different workers overlap, result n of a worker is what a reply to that worker said to the number given to its call n. |
| `RpcInterleaving.NumbersAreDistinct` | backend/victor_ai_bot/rpc.py:65-67 | However requests overlap, no request number serves two calls, of one worker or of two. |
| `RpcInterleaving.NotSupportedIsForever` | backend/victor_ai_bot/rpc.py:249-257 | Once batching is known to be unsupported no later state of a run forgets it. |
| `RpcInterleaving.UnsupportedIffRefused` | backend/victor_ai_bot/rpc.py:249-257 | In every run batching is known to be unsupported exactly when some worker's batch has been refused. |
| `RpcInterleaving.NoBatchAfterRefusal` | backend/victor_ai_bot/rpc.py:307-319 | In every interleaving, after the reply that refuses a batch, whoever it was for, every batch that is posted belongs to a worker that had begun before. |
| `Portfolio.SelectPortfolio` | backend/victor_ai_bot/portfolio_optimizer.py:426-567 | The picks form a greedy run over the candidates (each eligible in its round, none eligible better by score and then by EV, gas, capital) that stops only at max_trades or when nothing eligible remains; limits are merged per canonical family. |
| `Portfolio.SelectedIsWithinBudgets` | backend/victor_ai_bot/portfolio_optimizer.py:468-567 | Every prefix of a returned portfolio keeps total gas, total capital, capital and count per canonical family, count per engine, positive EV, positive capital when a capital limit is given, and pairwise disjoint conflict keys. |
| `Portfolio.ChainKeepsBudgets` | backend/victor_ai_bot/portfolio_optimizer.py:487-543 | The same for any chain of eligible picks, by induction over the rounds. |
| `Portfolio.CanonicalFamilyCapitalLimits` | backend/victor_ai_bot/portfolio_optimizer.py:127-138 | Every canonical family that some alias names gets the minimum of its aliases' limits, clipped at zero. |
| `Portfolio.BestCandidate` | backend/victor_ai_bot/portfolio_optimizer.py:487-541 | The first of the highest-scored candidates that pass every check; none exactly when no candidate passes. |
| `Portfolio.FamilyMeans` | backend/victor_ai_bot/portfolio_optimizer.py:544-560 | The running count and capital of a family are those of the picks of that canonical family. |
| `Portfolio.ConflictsMean` | backend/victor_ai_bot/portfolio_optimizer.py:544-560 | The set of used keys holds exactly the conflict keys of the picks. |
| `QuoteCache.PerBlockCache.ResetIfNewBlock` | backend/victor_ai_bot/cache.py:11-15 | Nothing cached for another chain or block survives a reset. |
| `QuoteCache.PerBlockCache.Get` | backend/victor_ai_bot/cache.py:17-18 | A hit of a sound cache is the oracle's answer for the block; a cached failure reads as a miss. |
| `QuoteCache.HitsBelongToTheBlock` | backend/victor_ai_bot/cache.py:11-21 | Over every run of resets and answers, each answer to a question asked in any block and stored at any time, and for whatever services: every entry is the answer for the block of the last reset if and only if every answer that is still there was asked in that block. |
| `QuoteCache.TimelyAnswersAreEnough` | backend/victor_ai_bot/cache.py:11-21 | If every answer arrives while the cache is for the block it was asked in, every hit is the answer for the block of the last reset. |
| `QuoteCache.LateAnswerIsServed` | backend/victor_ai_bot/cache.py:20-21 | An answer for one block that is stored after the reset for another is served as the other block's. |
| `QuoteCache.QuoteEdgesBatch` | backend/victor_ai_bot/arb_engine.py:745-1080 | A call that is not interrupted returns exactly what quoting every edge without a cache returns, whatever concurrent calls write; an interrupted one leaves only true entries; the answers of every finished family are cached and nothing is dropped. |
| `QuoteCache.RecoverCachedEdgeQuotes` | backend/victor_ai_bot/arb_engine.py:2259-2279 | Recovers exactly the cached quotes with a positive output for these edges at this amount. |
| `QuoteWaves.SignatureDecidesTheMap` | backend/victor_ai_bot/arb_engine.py:2223-2229 | Requests with the same amount and the same multiset of edge keys have the same map. |
| `QuoteWaves.CountsCoverAll` | backend/victor_ai_bot/arb_engine.py:2297-2330 | Every job ends in exactly one of the six ways, so the six counts add up to the jobs. |
| `QuoteWaves.CollectJobResults` | backend/victor_ai_bot/arb_engine.py:2297-2330 | Counts completed, failed and cancelled jobs of a wave and raises exactly when some job ends in another way; a completed job has its own map, a failed one none, a cancelled one at least every positive quote of the families it finished; everything is true for its amount and edges. |
| `QuoteWaves.SalvagedIsRescued` | backend/victor_ai_bot/arb_engine.py:2259-2294 | Recovering from the cache keeps every positive quote of the families that a job finished before it was interrupted. |
| `QuoteWaves.QuoteEdgeJobWave` | backend/victor_ai_bot/arb_engine.py:2333-2371 | Adds the jobs still running at the deadline to the cancelled ones; the entry of each of them is exactly what is cached for it with a positive output, which includes every positive quote of the families it finished. |
| `QuoteWaves.WavePlan` | backend/victor_ai_bot/arb_engine.py:2374-2392 | Starts at most min(remaining, limit) jobs before the deadline, afterwards one single job at most once if allowed, otherwise skips. |
| `QuoteWaves.QuoteEdgeJobsInBoundedWaves` | backend/victor_ai_bot/arb_engine.py:2433-2484 | For every pattern of endings and clock readings: terminates; completed + failed + cancelled + skipped is the number of jobs when it returns; every wave is started on a clock reading of its own and has min(remaining, limit) jobs, at most 4, if that reading is before the deadline; one single-job wave may start on a later one when allowed; only the last wave has running jobs; jobs are skipped only for a running job or a reading at or past the deadline taken after the last wave's, with the late wave, if allowed, used up; completed jobs have exactly their map, running and skipped ones exactly what is cached for them, and every other entry agrees with the oracle. |
| `QuoteWaves.WavesMean` | backend/victor_ai_bot/arb_engine.py:2374-2392 | Wave by wave: started on the reading it names, later readings for later waves, the one size that the reading allows, and at most one late wave. |
| `QuoteWaves.LateWaveIsLast` | backend/victor_ai_bot/arb_engine.py:2374-2392 | With a clock that does not go back only the last wave can have been started at or after the deadline. |
| `QuoteCoalescing.UniqueRequests` | backend/victor_ai_bot/arb_engine.py:2221-2229 | One job per signature, taken from the first group that has it, in order, and every group is served by the job of its signature. |
| `QuoteCoalescing.QuoteTwoLegRouteGroupWave` | backend/victor_ai_bot/arb_engine.py:2231-2241 | Without a deadline every group gets exactly the map that quoting it alone gives; the call fails exactly when a unique request fails. |
| `QuoteCoalescing.QuoteTwoLegRouteGroupWaveUntil` | backend/victor_ai_bot/arb_engine.py:2242-2256 | With a deadline a group gets only entries that agree with the oracle for its own edges at its own amount: its full map when its request completed, exactly what is cached for its own edges with a positive output when the request was running or skipped, nothing when it failed, and at least what the finished families gave when it was cancelled. |
| `QuoteGroups.RotationServesEveryGroup` | backend/victor_ai_bot/arb_engine.py:2129-2132 | In any n consecutive blocks each of the n groups comes first at some block. |
| `QuoteGroups.ConsumeResults` | backend/victor_ai_bot/arb_engine.py:2087-2104 | Writes the maps of completed groups over the quotes in order, counts ordinary exceptions as failures, and raises exactly on cancellation or a non-ordinary exception. |
| `QuoteGroups.QuoteEdgeGroupsInBoundedWaves` | backend/victor_ai_bot/arb_engine.py:2107-2202 | For every pattern of endings and clock readings: terminates; completed + failed + cancelled + skipped is the number of groups when it returns; waves of min(remaining, limit) groups, at most 4, each started on a reading before the deadline and, but for the first, after a further reading before it; groups are skipped only for a running group or a reading at or past the deadline taken after the last wave's; the quotes are the maps of the completed groups in order with what is cached for the running ones over them. |
| `QuoteGroups.LatestGroupDecides` | backend/victor_ai_bot/arb_engine.py:2107-2202 | Which amount an edge is quoted at: that of the last running group with a cached quote for it, otherwise that of the last completed group that lists it; no other edge has a quote. |
| `QuoteGroups.QuotesAreRetained` | backend/victor_ai_bot/arb_engine.py:2107-2202 | No edge of a completed group is lost, and no quote that a running group's finished families gave. |
| `Frontier.QualityFollowsOutput` | backend/victor_ai_bot/arb_engine.py:327-361 | Of two quoted edges of one directed pair the one with the larger output never has the lower quality; qualities lie in 0..10000. |
| `Frontier.RankExtremes` | backend/victor_ai_bot/arb_engine.py:327-331 | Among two or more different outputs the smallest ranks 0 and the largest 10000. |
| `Frontier.FrontierQuoteQualityPercentiles` | backend/victor_ai_bot/arb_engine.py:314-361 | Exactly the quoted edges with a directed pair get a quality, ranked among the distinct outputs of their pair. |
| `Frontier.BestFrontierCandidateIndex` | backend/victor_ai_bot/arb_engine.py:420-434 | The first of the highest-scored candidates whose token has room; none exactly when no token of a pending candidate has room. |
| `Frontier.SelectThreeLegFrontierEdges` | backend/victor_ai_bot/arb_engine.py:437-476 | The selection is a greedy run split by token in order, within the global cap, and stops early only when every pending token is full; a given quality map replaces the computed one. |
| `Frontier.TokenCapHolds` | backend/victor_ai_bot/arb_engine.py:401-404 | No token has more selected edges than its cap. |
| `Frontier.SelectedQualityDominates` | backend/victor_ai_bot/arb_engine.py:395-476 | Every selected edge has at least the quote quality of any candidate left out although its token still has room. |
| `GasConsensus.MedianIsRobust` | backend/victor_ai_bot/gas_model.py:68-132 | With fewer than half of the prices outside a band the median lies in the band, for odd and even counts. |
| `GasConsensus.HalfIsTooMany` | backend/victor_ai_bot/gas_model.py:68-132 | For every even number of prices and every band, exactly half of the prices outside can move the median beyond any bound. |
| `GasConsensus.SelectConsensusGasPrice` | backend/victor_ai_bot/gas_model.py:68-132 | The fresh observations are those within the lag of the highest block; a price is returned exactly when at least two of at least two fresh prices are close to their median, and then it is the upper middle of the close ones. One provider further ahead than the lag leaves no consensus. |
| `GasConsensus.ConsensusIsRobust` | backend/victor_ai_bot/gas_model.py:68-132 | With fewer than half of the fresh prices outside [lo, hi], any consensus price is an observed one in [(1-r)lo, (1+r)hi]. |
| `GasConsensus.LoneLeaderIsAlone` | backend/victor_ai_bot/gas_model.py:68-132 | A provider whose block is further ahead than the lag makes all others stale. |
| `AbiSpec.DecodeEncode` | backend/victor_ai_bot/ethabi.py:131-170 | An independent decoder that follows offsets recovers every well-typed value from its encoding (Formal Specification of the Encoding, Solidity Contract ABI Specification). |
| `AbiWords.SignedRoundTrip` | backend/victor_ai_bot/ethabi.py:141-144 | Two's complement words round trip on signed 256-bit integers. |
| `AbiWords.WordLimitIsTwoTo256` | backend/victor_ai_bot/ethabi.py:141-144 | The limit of a word, defined by digits, is 2^256, and the signed half is half of it. |
| `RouteEncoding.EncodeRoute` | backend/victor_ai_bot/route_encoding.py:89-105 | Appending leg after leg gives the canonical route bytes; it fails exactly for more than 255 legs or an unknown dex. |
| `RouteEncoding.RouteRoundTrip` | backend/victor_ai_bot/route_encoding.py:89-105 | The route bytes can be read back for any legs of fixed sizes. |
| `RouteEncoding.EncodeRouteIsInjective` | backend/victor_ai_bot/route_encoding.py:57-105 | Routes with the same encoding have the same dexes, addresses and normalised auxiliary words. |
| `ExecutorCalldata.BuildExecuteCalldata` | backend/victor_ai_bot/calldata_builder.py:104-153 | The bytes are exactly the selector and the specification's encoding of the arguments and legs; whatever cannot be encoded is an error. |
| `ExecutorCalldata.EncodeDynamicLegArray` | backend/victor_ai_bot/calldata_builder.py:88-101 | The leg array is the specification's encoding of the leg tuples. |
| `ExecutorCalldata.CalldataRoundTrip` | backend/victor_ai_bot/calldata_builder.py:75-153 | The independent decoder recovers every argument and leg, and the route id word is the hash of the canonical encoding of the very legs found in the calldata. |
| `ExecutorCalldata.CalldataDeterminesArguments` | backend/victor_ai_bot/calldata_builder.py:104-153 | Equal calldata means equal arguments. |
| `BalancerCodec.QueryRoundTrip` | backend/victor_ai_bot/quote_balancer.py:318-375 | Following every offset of the query calldata yields one GIVEN_IN step with the pool id, amount, the two assets in order and empty funds. |
| `BalancerCodec.BuildQuery` | backend/victor_ai_bot/quote_balancer.py:318-375 | Fails exactly for a pool id that is not 32 bytes or an amount that is not a positive word; otherwise the call decodes to the query. |
| `BalancerCodec.DecodeBalancerSwapDeltas` | backend/victor_ai_bot/quote_balancer.py:263-290 | Accepts exactly the canonical int256[] returns and inverts them. |
| `BalancerCodec.CanonicalIsSpecEncoding` | backend/victor_ai_bot/quote_balancer.py:263-290 | The canonical return is the specification's encoding of a single int256[] result. |
| `BalancerCodec.DecodeQueryErrorBody` | backend/victor_ai_bot/quote_balancer.py:158-168 | Accepts exactly canonical revert bodies with 2 to 64 deltas; the 4096-byte limit never decides. |
| `BalancerCodec.ParseBalancerQueryResult` | backend/victor_ai_bot/quote_balancer.py:378-389 | Reports an output exactly when the bytes are the canonical deltas (+input, -output), both positive. |
| `BalancerCodec.DecodeInt256Array` | backend/victor_ai_bot/ethabi.py:173-188 | Reads as many words as the length at the given offset says, words past the end from what is left of the data; on canonical returns it agrees with the strict decoder. |
| `BalancerCodec.LenientDecoderIsNotStrict` | backend/victor_ai_bot/ethabi.py:173-188 | On a length of 1 with nothing behind it the lenient decoder returns [0], and nothing canonical encodes to those bytes. |
| `BalancerCodec.LenientIsStrictIff` | backend/victor_ai_bot/ethabi.py:173-188 | The lenient decoder's result is what the data canonically encodes, and the data encodes anything, if and only if it has offset 32 and exactly as many words as its length says. |
| `Withdrawal.ProvenIffReportedOnce` | backend/victor_ai_bot/external_withdrawal_settlement.py:247-270 | The verdict is ok for an effect if and only if executor and destination are addresses, the calldata asks for that effect for that destination with a positive amount, and exactly one log of the receipt is the executor's event for the destination and it reports the effect. |
| `Withdrawal.EventLogSelects` | backend/victor_ai_bot/external_withdrawal_settlement.py:86-129 | The two filters leave exactly the effect logs; the failure is 'missing' exactly when there is none. |
| `Withdrawal.ForeignLogsDoNotMatter` | backend/victor_ai_bot/external_withdrawal_settlement.py:102-111 | Removing all logs of other contracts never changes the verdict or its reason. |
| `Withdrawal.ProvenGoesToRecipient` | backend/victor_ai_bot/external_withdrawal_settlement.py:71-83 | A proven effect went to the recipient named by the calldata. |
| `Withdrawal.RecipientRoundTrip` | backend/victor_ai_bot/external_withdrawal_settlement.py:71-83 | A withdraw call and a convert-and-withdraw call built word by word name their destination back, whatever their other arguments are. |
| `Withdrawal.TransactionsBalance` | backend/victor_ai_bot/external_withdrawal_settlement.py:273-317 | The lines of every transaction sum to zero in one asset; it raises exactly for a token that is no address or an amount that is not a positive integer. |
| `Withdrawal.ProvenEffectsSettle` | backend/victor_ai_bot/external_withdrawal_settlement.py:299-317 | Every proven effect can be booked and takes exactly its output amount from the asset account. |
| `RateLimiter.Limiter.Allow` | backend/victor_ai_bot/ratelimit.py:55-73 | The in-place update of the ordered dictionary and the key's queue is one step of the value-level limiter, including the error of evicting from an empty dictionary. |
| `RateLimiter.AllowedIffFewRecent` | backend/victor_ai_bot/ratelimit.py:55-73 | Over every run with non-decreasing times a request is allowed if and only if the limiter itself allowed fewer than max_requests requests of its key in [now - window, now] since the key was last inserted. |
| `RateLimiter.BurstsAreBounded` | backend/victor_ai_bot/ratelimit.py:42-73 | Any max_requests + 1 allowed requests without an eviction span more than the window; keys and queue lengths stay bounded. |
| `RateLimiter.KeyStaysIff` | backend/victor_ai_bot/ratelimit.py:55-66 | Over every run a key is remembered if and only if it was requested and fewer than max_keys other keys were requested since: eviction is exactly least recently used. |
| `RateLimiter.AnsweredIffKeysAllowed` | backend/victor_ai_bot/ratelimit.py:57-61 | The limiter answers every request exactly when max_keys is positive. |
| `JsonSafe.Normaliser.ToJsonSafe` | backend/victor_ai_bot/jsonsafe.py:36-79 | With its one mutable set of active identities the normaliser terminates on every heap, leaves the set as it was, and returns the specified tree. |
| `JsonSafe.SafeIsNormal` | backend/victor_ai_bot/jsonsafe.py:36-79 | Every result is a normal form: no integer beyond +-(2^53-1), none under a big-integer key, no repeated object key. |
| `JsonSafe.NormalIsFixed` | backend/victor_ai_bot/jsonsafe.py:36-79 | A graph that represents a normal form is returned unchanged: texts, booleans, nulls, safe integers, finite floats, order and structure are kept. |
| `JsonSafe.DecimalReadsBack` | backend/victor_ai_bot/jsonsafe.py:73-74 | An integer written as text reads back as the same integer. |
| `JsonSafe.HexIsInjective` | backend/victor_ai_bot/jsonsafe.py:71-72 | Different byte strings are written as different texts. |
| `JsonSafe.OutputIsAccepted` | backend/victor_ai_bot/contract.py:48-63 | Whatever graph is normalised, cyclic or not, the validator accepts the result. |
| `JsonSafe.GuardIsTransparent` | backend/victor_ai_bot/jsonsafe.py:42-69 | On acyclic graphs the cycle guard changes nothing, so shared containers are written out in full. |
| `JsonSafe.NormalisingTwice` | backend/victor_ai_bot/jsonsafe.py:36-79 | Normalising any heap that represents a normalised result gives that result again. |
| `JsonSafe.WriteOut` | backend/victor_ai_bot/jsonsafe.py:36-79 | Every tree is represented by some heap of its own containers, so results can be normalised again. |

## Left out

- HTTP, sessions, environment variables, persistence, middleware, configuration and logging.
- The body of Keccak-256; nothing is assumed about it except that it is a function.
- Telemetry: diagnostic dictionaries, metrics, latencies, identity-coverage records and the list of gas price anomalies.
- Backoff sleeps between rate-limit splits; they do not change which posts are sent.
- Text handling: trimming, lower-casing, parsing of hexadecimal and decimal text; models start from bytes, normalised addresses and parsed numbers. Formatted pool keys are datatype values.
- Floating-point rounding in portfolio scores, quality ranks and the gas agreement ratio: they are real or integer arithmetic.
- Venue quote adapters other than Balancer: they appear as the oracle of `QuoteCache`.
- Provenance of candidates: building rows from opportunities, discovery, execution and profit accounting.
- Parsing of Balancer error payloads out of nested error objects; `BalancerCodec` starts from the revert body.
- The first-leg and third-leg route assembly around the wave schedulers, including the reverse-candidate prefilter, whose picks need not have distinct pools.
- Presenting plans: sorting plans by net and token before `RoundRobin` interleaves them.
- Decision engine, bankroll, circuit breaker, regime and policy modules: clamps, counters and copies, each evident from one body.
- RateLimiter.AllowedIffFewRecent: every key has one rule, as in the middleware, where the key contains the path that selects the rule.
- QuoteCache.QuoteEdgesBatch: what others write while a call waits is true for the cache's block, and nobody resets the cache meanwhile; `QuoteCache.HitsBelongToTheBlock` says what late answers do.
- QuoteWaves.QuoteEdgeJobsInBoundedWaves: jobs have distinct signatures, as both callers build them from a dictionary.
- Frontier.SelectThreeLegFrontierEdges: protocol, pool and router identities of an edge are given, not derived from its parameters.
