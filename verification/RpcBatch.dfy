/** The JSON-RPC batcher (rpc.py): chunking, matching by id, recursive splitting on rate
    limits and the permanent fallback to single calls, against an arbitrary server.

    The server is any function from the number of the post to its reply, so every
    permuted, missing, duplicated or failing behaviour is covered. Chunks that the
    program may overlap are sent one after the other here; RpcInterleaving covers
    every interleaving. */
module RpcBatch {
  import opened Outcomes

  datatype Call = Call(name: string, params: string)
  datatype Request = Request(id: nat, call: Call)

  /** How an "id" member converts to an integer. */
  datatype RespId = NoId | Parsed(id: int) | Unparseable | Overflowing

  datatype ErrorInfo = ErrorInfo(isObject: bool, code: int, mentionsLimit: bool, payload: string)
  datatype Body = HasError(error: ErrorInfo) | HasResult(value: string)
  datatype Resp = NotAnObject | Object(id: RespId, body: Body)

  datatype BatchReply =
    | TransportFailed                              // an expected transport exception
    | BodyUnreadable(status: int)                  // the HTTP client could not read the body
    | NonList(status: int)
    | List(status: int, items: seq<Resp>)
    | Unexpected                                   // any exception the client does not expect

  datatype CallReply =
    | CallFailed
    | CallUnreadable(status: int)
    | CallNotAnObject
    | CallObject(body: Body)
    | CallUnexpected

  datatype Server = Server(batch: nat -> BatchReply, single: nat -> CallReply)

  datatype Reason = Transport | HttpStatus(status: int) | MissingBatchResponse | ServerError(error: ErrorInfo)
  datatype RpcResult = Success(value: string) | Failure(reason: Reason)

  datatype Post = BatchPost(requests: seq<Request>, batchReply: BatchReply)
                | SinglePost(request: Request, callReply: CallReply)

  // ------------------------------------------------------- what a reply answers

  predicate RateLimited(e: ErrorInfo) {
    e.isObject && (e.code == 429 || e.code == -32016 || e.mentionsLimit)
  }

  /** The last object of the reply whose id converts to `id`. */
  function LastWithId(items: seq<Resp>, id: int): Option<Body> {
    if items == [] then None
    else var last := items[|items|-1];
      if last.Object? && last.id == Parsed(id) then Some(last.body)
      else LastWithId(items[..|items|-1], id)
  }

  function ResultOfBody(body: Body): RpcResult {
    match body
    case HasError(e) => Failure(ServerError(e))
    case HasResult(v) => Success(v)
  }

  /** What the reply to a batch says about request `id`; None when the client has to ask again. */
  function BatchAnswer(reply: BatchReply, id: nat): Option<RpcResult> {
    match reply
    case TransportFailed => Some(Failure(Transport))
    case BodyUnreadable(status) => Some(Failure(if status >= 400 then HttpStatus(status) else Transport))
    case NonList(status) => if status == 429 then Some(Failure(HttpStatus(429))) else None
    case List(status, items) =>
      if status == 429 then Some(Failure(HttpStatus(429)))
      else (match LastWithId(items, id)
            case None => Some(Failure(MissingBatchResponse))
            case Some(body) => Some(ResultOfBody(body)))
    case Unexpected => None
  }

  /** The failure of every call of the batch, when the reply has no list to read. */
  function BlanketFailure(reply: BatchReply): (r: Option<Reason>)
    ensures r.Some? ==> forall id: nat :: BatchAnswer(reply, id) == Some(Failure(r.value))
  {
    match reply
    case TransportFailed => Some(Transport)
    case BodyUnreadable(status) => Some(if status >= 400 then HttpStatus(status) else Transport)
    case NonList(status) => if status == 429 then Some(HttpStatus(429)) else None
    case List(status, _) => if status == 429 then Some(HttpStatus(429)) else None
    case Unexpected => None
  }

  function CallAnswer(reply: CallReply): Option<RpcResult> {
    match reply
    case CallFailed => Some(Failure(Transport))
    case CallUnreadable(status) => Some(Failure(if status >= 400 then HttpStatus(status) else Transport))
    case CallObject(body) => Some(ResultOfBody(body))
    case CallNotAnObject => None
    case CallUnexpected => None
  }

  ghost predicate HasOverflowingId(items: seq<Resp>) {
    exists i :: 0 <= i < |items| && items[i].Object? && items[i].id == Overflowing
  }

  /** The replies whose handling raises out of the client. */
  ghost predicate Escapes(p: Post) {
    match p
    case BatchPost(_, reply) =>
      reply.Unexpected? || (reply.List? && reply.status != 429 && HasOverflowingId(reply.items))
    case SinglePost(_, reply) => reply.CallUnexpected? || reply.CallNotAnObject?
  }

  ghost predicate Escaped(log: seq<Post>) { exists i :: 0 <= i < |log| && Escapes(log[i]) }

  ghost predicate AnsweredBy(p: Post, req: Request, res: RpcResult) {
    match p
    case BatchPost(reqs, reply) => req in reqs && BatchAnswer(reply, req.id) == Some(res)
    case SinglePost(r, reply) => r == req && CallAnswer(reply) == Some(res)
  }

  ghost predicate Answered(log: seq<Post>, req: Request, res: RpcResult) {
    exists i :: 0 <= i < |log| && AnsweredBy(log[i], req, res)
  }

  // ---------------------------------------------------------- ids are never reused

  ghost function IdsOf(p: Post): seq<nat> {
    match p
    case BatchPost(reqs, _) => seq(|reqs|, i requires 0 <= i < |reqs| => reqs[i].id)
    case SinglePost(r, _) => [r.id]
  }

  /** The ids of the first `n` posts. */
  ghost function FlatIds(log: seq<Post>, n: nat): seq<nat>
    requires n <= |log|
  {
    if n == 0 then [] else FlatIds(log, n - 1) + IdsOf(log[n-1])
  }

  lemma {:induction false} FlatIdsLonger(log: seq<Post>, p: Post, n: nat)
    requires n <= |log|
    ensures FlatIds(log + [p], n) == FlatIds(log, n)
  {
    if n > 0 {
      FlatIdsLonger(log, p, n - 1);
    }
  }

  ghost predicate Ascending(ids: seq<nat>) { forall i, j | 0 <= i < j < |ids| :: ids[i] < ids[j] }

  /** The reply of post number `i` is what the server says to it. */
  ghost predicate Said(server: Server, i: nat, p: Post) {
    match p
    case BatchPost(_, reply) => reply == server.batch(i)
    case SinglePost(_, reply) => reply == server.single(i)
  }

  ghost predicate FromServer(server: Server, log: seq<Post>) {
    forall i {:trigger Said(server, i, log[i])} | 0 <= i < |log| :: Said(server, i, log[i])
  }

  lemma FromServerSnoc(server: Server, log: seq<Post>, p: Post)
    requires FromServer(server, log) && Said(server, |log|, p)
    ensures FromServer(server, log + [p])
  {
    forall i | 0 <= i < |log| + 1 ensures Said(server, i, (log + [p])[i]) {
      if i < |log| {
        assert Said(server, i, log[i]);
      }
    }
  }

  datatype View = View(log: seq<Post>, lastId: nat, supported: Option<bool>)

  // ------------------------------------------------- what the posts say about batching

  /** A batch that was answered by something readable that is no list. */
  predicate Refuses(p: Post) { p.BatchPost? && p.batchReply.NonList? && p.batchReply.status != 429 }

  /** A batch that was answered by a list. */
  predicate Lists(p: Post) { p.BatchPost? && p.batchReply.List? && p.batchReply.status != 429 }

  /** What one more post says: a refusal is final, and a list only counts while nothing is known. */
  function Learn(known: Option<bool>, p: Post): Option<bool> {
    if Refuses(p) then Some(false)
    else if Lists(p) && known.None? then Some(true)
    else known
  }

  /** What a log says about batching, from the first post on. */
  ghost function Capability(log: seq<Post>): Option<bool> {
    if log == [] then None else Learn(Capability(log[..|log|-1]), log[|log|-1])
  }

  ghost predicate Refused(log: seq<Post>) { exists i :: 0 <= i < |log| && Refuses(log[i]) }

  ghost predicate Listed(log: seq<Post>) { exists i :: 0 <= i < |log| && Lists(log[i]) }

  /** Batching is known to be unsupported exactly after some refusal, and known to be supported
      exactly after some list and no refusal. */
  lemma {:induction false} CapabilityMeans(log: seq<Post>)
    ensures Capability(log) == Some(false) <==> Refused(log)
    ensures Capability(log) == Some(true) <==> Listed(log) && !Refused(log)
  {
    if log != [] {
      var init, last := log[..|log|-1], log[|log|-1];
      CapabilityMeans(init);
      RefusedSnoc(init, last, log);
      var known := Capability(init);
      if known.Some? {
        assert known == if known.value then Some(true) else Some(false);
      }
    }
  }

  lemma RefusedSnoc(init: seq<Post>, last: Post, log: seq<Post>)
    requires log == init + [last]
    ensures Refused(log) <==> Refused(init) || Refuses(last)
    ensures Listed(log) <==> Listed(init) || Lists(last)
  {
    assert log[|init|] == last;
    if i :| 0 <= i < |init| && Refuses(init[i]) {
      assert Refuses(log[i]);
    }
    if i :| 0 <= i < |init| && Lists(init[i]) {
      assert Lists(log[i]);
    }
  }

  /** No later post takes a refusal back. */
  lemma RefusedStays(log: seq<Post>, later: seq<Post>)
    requires Refused(log) && log <= later
    ensures Refused(later) && Capability(later) == Some(false)
  {
    var i :| 0 <= i < |log| && Refuses(log[i]);
    assert Refuses(later[i]);
    CapabilityMeans(later);
  }

  /** The client remembers exactly what its posts say about batching. */
  ghost predicate Capable(v: View) { v.supported == Capability(v.log) }

  lemma CapableSnoc(b: View, p: Post, a: View)
    requires Capable(b) && a.log == b.log + [p] && a.supported == Learn(b.supported, p)
    ensures Capable(a)
  {
    assert a.log[..|a.log|-1] == b.log;
  }

  ghost predicate IdsOk(v: View) {
    var ids := FlatIds(v.log, |v.log|);
    Ascending(ids) && forall i | 0 <= i < |ids| :: ids[i] <= v.lastId
  }

  ghost predicate Within(ids: seq<nat>, low: nat, high: nat) {
    forall i | 0 <= i < |ids| :: low < ids[i] <= high
  }

  lemma AscendingConcat(ids: seq<nat>, more: seq<nat>, low: nat, high: nat)
    requires Ascending(ids) && Ascending(more) && low <= high
    requires (forall i | 0 <= i < |ids| :: ids[i] <= low) && Within(more, low, high)
    ensures Ascending(ids + more) && forall i | 0 <= i < |ids + more| :: (ids + more)[i] <= high
  {
  }

  lemma IdsOkSnoc(v: View, p: Post, lastId: nat, supported: Option<bool>)
    requires IdsOk(v) && Ascending(IdsOf(p)) && v.lastId <= lastId && Within(IdsOf(p), v.lastId, lastId)
    ensures IdsOk(View(v.log + [p], lastId, supported))
  {
    FlatIdsLonger(v.log, p, |v.log|);
    AscendingConcat(FlatIds(v.log, |v.log|), IdsOf(p), v.lastId, lastId);
  }

  // ------------------------------------------------------------- delivered results

  /** result i is what the server answered to calls[i], under request number via[i]. */
  ghost predicate Aligned(log: seq<Post>, low: nat, high: nat, calls: seq<Call>, results: seq<RpcResult>,
                          via: seq<nat>) {
    && |results| == |calls| == |via|
    && Ascending(via)
    && (forall i | 0 <= i < |via| :: low < via[i] <= high)
    && (forall i | 0 <= i < |calls| :: Answered(log, Request(via[i], calls[i]), results[i]))
  }

  ghost predicate Advances(b: View, a: View) {
    && b.log <= a.log && b.lastId <= a.lastId && IdsOk(a)
    && (b.supported == Some(false) ==> a.supported == Some(false))
  }

  ghost predicate Delivered(b: View, a: View, calls: seq<Call>, out: Outcome<seq<RpcResult>>, via: seq<nat>) {
    && Advances(b, a)
    && (out.Raised? <==> Escaped(a.log[|b.log|..]))
    && (out.Returned? ==> Aligned(a.log, b.lastId, a.lastId, calls, out.value, via))
  }

  lemma AnsweredLater(log: seq<Post>, later: seq<Post>, req: Request, res: RpcResult)
    requires log <= later && Answered(log, req, res)
    ensures Answered(later, req, res)
  {
    var i :| 0 <= i < |log| && AnsweredBy(log[i], req, res);
    assert later[i] == log[i];
  }

  lemma EscapedSplit(b: seq<Post>, m: seq<Post>, a: seq<Post>)
    requires b <= m <= a
    ensures Escaped(a[|b|..]) <==> Escaped(m[|b|..]) || Escaped(a[|m|..])
  {
    var first, second, all := m[|b|..], a[|m|..], a[|b|..];
    assert all == first + second;
    if i :| 0 <= i < |first| && Escapes(first[i]) {
      assert all[i] == first[i];
    }
    if i :| 0 <= i < |second| && Escapes(second[i]) {
      assert all[|first| + i] == second[i];
    }
    if i :| 0 <= i < |all| && Escapes(all[i]) {
      assert all[i] == if i < |first| then first[i] else second[i - |first|];
    }
  }

  /** Delivering two runs of calls one after the other delivers their concatenation. */
  lemma DeliveredThen(b: View, m: View, a: View, calls1: seq<Call>, calls2: seq<Call>, r1: seq<RpcResult>,
                      out2: Outcome<seq<RpcResult>>, via1: seq<nat>, via2: seq<nat>)
    requires Delivered(b, m, calls1, Returned(r1), via1) && Delivered(m, a, calls2, out2, via2)
    ensures out2.Returned? ==> Delivered(b, a, calls1 + calls2, Returned(r1 + out2.value), via1 + via2)
    ensures out2.Raised? ==> Delivered(b, a, calls1 + calls2, Raised, [])
  {
    EscapedSplit(b.log, m.log, a.log);
    if out2.Returned? {
      AlignedThen(b, m, a, calls1, calls2, r1, out2.value, via1, via2);
    }
  }

  lemma AlignedThen(b: View, m: View, a: View, calls1: seq<Call>, calls2: seq<Call>, r1: seq<RpcResult>,
                    r2: seq<RpcResult>, via1: seq<nat>, via2: seq<nat>)
    requires m.log <= a.log && b.lastId <= m.lastId <= a.lastId
    requires Aligned(m.log, b.lastId, m.lastId, calls1, r1, via1)
        && Aligned(a.log, m.lastId, a.lastId, calls2, r2, via2)
    ensures Aligned(a.log, b.lastId, a.lastId, calls1 + calls2, r1 + r2, via1 + via2)
  {
    forall i | 0 <= i < |calls1|
      ensures Answered(a.log, Request(via1[i], calls1[i]), r1[i])
    {
      AnsweredLater(m.log, a.log, Request(via1[i], calls1[i]), r1[i]);
    }
    var calls, results, via := calls1 + calls2, r1 + r2, via1 + via2;
    forall i | 0 <= i < |calls|
      ensures Answered(a.log, Request(via[i], calls[i]), results[i])
    {
      if i >= |calls1| {
        assert Answered(a.log, Request(via2[i - |calls1|], calls2[i - |calls1|]), r2[i - |calls1|]);
      }
    }
  }

  lemma RaisedThen(b: View, m: View, calls: seq<Call>, more: seq<Call>)
    requires Delivered(b, m, calls, Raised, [])
    ensures Delivered(b, m, calls + more, Raised, [])
  {
  }

  lemma NothingYet(v: View)
    requires IdsOk(v)
    ensures Delivered(v, v, [], Returned([]), [])
  {
    assert v.log[|v.log|..] == [];
  }

  /** A post whose answers are thrown away before asking again delivers nothing yet. */
  lemma DiscardedThen(b: View, m: View, a: View, calls: seq<Call>, out: Outcome<seq<RpcResult>>, via: seq<nat>)
    requires Advances(b, m) && !Escaped(m.log[|b.log|..]) && Delivered(m, a, calls, out, via)
    ensures Delivered(b, a, calls, out, via)
  {
    EscapedSplit(b.log, m.log, a.log);
    assert out.Returned? ==> Aligned(a.log, b.lastId, a.lastId, calls, out.value, via);
  }

  lemma {:induction false} FlatIdsGrow(log: seq<Post>, i: nat, n: nat)
    requires i <= n <= |log|
    ensures |FlatIds(log, i)| <= |FlatIds(log, n)|
    decreases n
  {
    if i < n {
      FlatIdsGrow(log, i, n - 1);
    }
  }

  /** `ids` has `id` at `pos`. */
  ghost predicate IdAt(ids: seq<nat>, pos: nat, id: nat) { pos < |ids| && ids[pos] == id }

  lemma StillAt(ids: seq<nat>, more: seq<nat>, pos: nat, id: nat)
    requires IdAt(ids, pos, id)
    ensures IdAt(ids + more, pos, id)
  {
  }

  lemma ThenAt(ids: seq<nat>, more: seq<nat>, k: nat, id: nat)
    requires IdAt(more, k, id)
    ensures IdAt(ids + more, |ids| + k, id)
  {
  }

  /** Where an id stands in the flat list. */
  lemma {:induction false} FlatIdsPosition(log: seq<Post>, n: nat, i: nat, k: nat, id: nat)
    requires i < n <= |log| && IdAt(IdsOf(log[i]), k, id)
    ensures IdAt(FlatIds(log, n), |FlatIds(log, i)| + k, id)
    decreases n
  {
    if i < n - 1 {
      FlatIdsPosition(log, n - 1, i, k, id);
      StillAt(FlatIds(log, n - 1), IdsOf(log[n-1]), |FlatIds(log, i)| + k, id);
    } else {
      ThenAt(FlatIds(log, i), IdsOf(log[i]), k, id);
    }
  }

  lemma FlatIdsApart(log: seq<Post>, i: nat, k: nat, j: nat, l: nat)
    requires i < j < |log| && k < |IdsOf(log[i])|
    ensures |FlatIds(log, i)| + k < |FlatIds(log, j)| + l
  {
    FlatIdsGrow(log, i + 1, j);
  }

  lemma SameIdSamePlace(ids: seq<nat>, p: nat, q: nat)
    requires Ascending(ids) && p < |ids| && q < |ids| && ids[p] == ids[q]
    ensures p == q
  {
  }

  /** An id determines the post and the place in it. */
  lemma FlatIdsUnique(log: seq<Post>, i: nat, k: nat, j: nat, l: nat)
    requires Ascending(FlatIds(log, |log|)) && i < |log| && j < |log|
    requires k < |IdsOf(log[i])| && l < |IdsOf(log[j])| && IdsOf(log[i])[k] == IdsOf(log[j])[l]
    ensures i == j && k == l
  {
    FlatIdsPosition(log, |log|, i, k, IdsOf(log[i])[k]);
    FlatIdsPosition(log, |log|, j, l, IdsOf(log[j])[l]);
    SameIdSamePlace(FlatIds(log, |log|), |FlatIds(log, i)| + k, |FlatIds(log, j)| + l);
    if i < j {
      FlatIdsApart(log, i, k, j, l);
    } else if j < i {
      FlatIdsApart(log, j, l, i, k);
    }
  }

  /** An answer is never ambiguous: a request number belongs to one call and has one result. */
  lemma AnswersAreUnique(v: View, id: nat, c1: Call, c2: Call, r1: RpcResult, r2: RpcResult)
    requires IdsOk(v) && Answered(v.log, Request(id, c1), r1) && Answered(v.log, Request(id, c2), r2)
    ensures c1 == c2 && r1 == r2
  {
    var i :| 0 <= i < |v.log| && AnsweredBy(v.log[i], Request(id, c1), r1);
    var j :| 0 <= j < |v.log| && AnsweredBy(v.log[j], Request(id, c2), r2);
    var k := PlaceOf(v.log[i], Request(id, c1), r1);
    var l := PlaceOf(v.log[j], Request(id, c2), r2);
    FlatIdsUnique(v.log, i, k, j, l);
  }

  lemma PlaceOf(p: Post, req: Request, res: RpcResult) returns (k: nat)
    requires AnsweredBy(p, req, res)
    ensures k < |IdsOf(p)| && IdsOf(p)[k] == req.id
    ensures p.BatchPost? ==> k < |p.requests| && p.requests[k] == req
  {
    match p
    case BatchPost(reqs, _) => k :| 0 <= k < |reqs| && reqs[k] == req;
    case SinglePost(_, _) => k := 0;
  }

  // ------------------------------------------------------------ counting the posts

  ghost function BatchPosts(log: seq<Post>): nat {
    if log == [] then 0 else BatchPosts(log[..|log|-1]) + (if log[|log|-1].BatchPost? then 1 else 0)
  }

  lemma BatchPostsSnoc(log: seq<Post>, p: Post)
    ensures BatchPosts(log + [p]) == BatchPosts(log) + (if p.BatchPost? then 1 else 0)
  {
    assert (log + [p])[..|log|] == log;
  }

  function Pow2(n: nat): (r: nat)
    ensures r >= 1
  {
    if n == 0 then 1 else 2 * Pow2(n - 1)
  }

  /** The posts that a number of chunks may take. */
  function Budget(chunks: nat, each: nat): nat {
    if chunks == 0 then 0 else Budget(chunks - 1, each) + each
  }

  lemma {:induction false} BudgetIsProduct(chunks: nat, each: nat)
    ensures Budget(chunks, each) == chunks * each
  {
    if chunks > 0 {
      BudgetIsProduct(chunks - 1, each);
    }
  }

  lemma {:induction false} BudgetGrows(a: nat, b: nat, each: nat)
    requires a <= b
    ensures Budget(a, each) <= Budget(b, each)
  {
    if a < b {
      BudgetGrows(a, b - 1, each);
    }
  }

  // ------------------------------------------------------------------- chunking

  function Chunks(calls: seq<Call>, size: nat): seq<seq<Call>>
    requires size >= 1
  {
    if |calls| <= size then (if calls == [] then [] else [calls])
    else [calls[..size]] + Chunks(calls[size..], size)
  }

  function Flatten(chunks: seq<seq<Call>>): seq<Call> {
    if chunks == [] then [] else Flatten(chunks[..|chunks|-1]) + chunks[|chunks|-1]
  }

  lemma {:induction false} FlattenCons(chunk: seq<Call>, chunks: seq<seq<Call>>)
    ensures Flatten([chunk] + chunks) == chunk + Flatten(chunks)
  {
    var all := [chunk] + chunks;
    if chunks == [] {
      assert all == [chunk];
    } else {
      FlattenCons(chunk, chunks[..|chunks|-1]);
      assert all[..|all|-1] == [chunk] + chunks[..|chunks|-1];
    }
  }

  lemma FlattenOne(chunk: seq<Call>)
    ensures Flatten([chunk]) == chunk
  {
    assert [chunk][..0] == [];
    assert Flatten([]) + chunk == chunk;
  }

  lemma TakeAndDrop(calls: seq<Call>, size: nat)
    requires size <= |calls|
    ensures calls[..size] + calls[size..] == calls
  {
  }

  /** Chunking loses, duplicates and reorders nothing, ... */
  lemma {:induction false} ChunksFlatten(calls: seq<Call>, size: nat)
    requires size >= 1
    ensures Flatten(Chunks(calls, size)) == calls
    ensures calls == [] <==> Chunks(calls, size) == []
  {
    if |calls| <= size {
      if calls != [] {
        FlattenOne(calls);
      }
    } else {
      ChunksFlatten(calls[size..], size);
      FlattenCons(calls[..size], Chunks(calls[size..], size));
      TakeAndDrop(calls, size);
    }
  }

  /** ... and respects the size. */
  lemma {:induction false} ChunksAreSmall(calls: seq<Call>, size: nat)
    requires size >= 1
    ensures forall c | c in Chunks(calls, size) :: 1 <= |c| <= size
  {
    if |calls| > size {
      ChunksAreSmall(calls[size..], size);
    }
  }

  lemma FlattenSnoc(chunks: seq<seq<Call>>, n: nat)
    requires n < |chunks|
    ensures Flatten(chunks[..n+1]) == Flatten(chunks[..n]) + chunks[n]
  {
    assert chunks[..n+1][..n] == chunks[..n];
  }

  // ------------------------------------------------------------------ the client

  /** A whole run of `count` posts that were all answered from one reply. */
  lemma BatchAligned(b: View, reqs: seq<Request>, reply: BatchReply, chunk: seq<Call>, results: seq<RpcResult>,
                     supported: Option<bool>)
    requires IdsOk(b) && Numbered(reqs, b.lastId, chunk)
    requires AllAnswered(reqs, reply, results)
    requires !Escapes(BatchPost(reqs, reply)) && (b.supported == Some(false) ==> supported == Some(false))
    ensures Delivered(b, View(b.log + [BatchPost(reqs, reply)], b.lastId + |chunk|, supported), chunk,
                      Returned(results),
                      IdsOf(BatchPost(reqs, reply)))
  {
    var p := BatchPost(reqs, reply);
    var log := b.log + [p];
    IdsOkSnoc(b, p, b.lastId + |chunk|, supported);
    assert log[|b.log|..] == [p];
    forall i | 0 <= i < |chunk| ensures Answered(log, Request(IdsOf(p)[i], chunk[i]), results[i]) {
      assert reqs[i] == Request(IdsOf(p)[i], chunk[i]) && reqs[i] in reqs;
      assert log[|b.log|] == p;
    }
  }

  ghost predicate AllAnswered(reqs: seq<Request>, reply: BatchReply, results: seq<RpcResult>) {
    |results| == |reqs| && forall i | 0 <= i < |reqs| :: BatchAnswer(reply, reqs[i].id) == Some(results[i])
  }

  ghost predicate Numbered(reqs: seq<Request>, lastId: nat, chunk: seq<Call>) {
    |reqs| == |chunk| && forall i | 0 <= i < |chunk| :: reqs[i] == Request(lastId + 1 + i, chunk[i])
  }

  lemma PostAdvances(b: View, reqs: seq<Request>, reply: BatchReply, chunk: seq<Call>, supported: Option<bool>)
    requires IdsOk(b) && Numbered(reqs, b.lastId, chunk)
    requires b.supported == Some(false) ==> supported == Some(false)
    ensures Advances(b, View(b.log + [BatchPost(reqs, reply)], b.lastId + |chunk|, supported))
    ensures Escaped((b.log + [BatchPost(reqs, reply)])[|b.log|..]) <==> Escapes(BatchPost(reqs, reply))
  {
    var p := BatchPost(reqs, reply);
    IdsOkSnoc(b, p, b.lastId + |chunk|, supported);
    assert (b.log + [p])[|b.log|..] == [p];
    assert [p][0] == p;
  }

  /** The state right after a batch has been posted and its reply read. */
  ghost predicate Posted(b: View, a: View, reqs: seq<Request>, reply: BatchReply, chunk: seq<Call>) {
    && IdsOk(b) && Numbered(reqs, b.lastId, chunk)
    && a.log == b.log + [BatchPost(reqs, reply)] && a.lastId == b.lastId + |chunk|
    && (b.supported == Some(false) ==> a.supported == Some(false))
  }

  lemma PostedAdvances(b: View, a: View, reqs: seq<Request>, reply: BatchReply, chunk: seq<Call>)
    requires Posted(b, a, reqs, reply, chunk) && !Escapes(BatchPost(reqs, reply))
    ensures Advances(b, a) && !Escaped(a.log[|b.log|..])
  {
    PostAdvances(b, reqs, reply, chunk, a.supported);
  }

  lemma PostedDelivers(b: View, a: View, reqs: seq<Request>, reply: BatchReply, chunk: seq<Call>,
                       results: seq<RpcResult>)
    requires Posted(b, a, reqs, reply, chunk) && !Escapes(BatchPost(reqs, reply)) && AllAnswered(reqs, reply, results)
    ensures Delivered(b, a, chunk, Returned(results), IdsOf(BatchPost(reqs, reply)))
  {
    BatchAligned(b, reqs, reply, chunk, results, a.supported);
  }

  /** One call, answered or raised. */
  function AsBatch(one: Outcome<RpcResult>): Outcome<seq<RpcResult>> {
    if one.Returned? then Returned([one.value]) else Raised
  }

  function ViaOf(one: Outcome<RpcResult>, id: nat): seq<nat> {
    if one.Returned? then [id] else []
  }

  function OneResult(reply: CallReply): Outcome<RpcResult> {
    match CallAnswer(reply) case None => Raised case Some(r) => Returned(r)
  }

  ghost function AfterCall(b: View, call: Call, reply: CallReply): View {
    View(b.log + [SinglePost(Request(b.lastId + 1, call), reply)], b.lastId + 1, b.supported)
  }

  lemma LastEscapes(log: seq<Post>, p: Post)
    ensures Escaped((log + [p])[|log|..]) <==> Escapes(p)
  {
    assert (log + [p])[|log|..] == [p];
    assert [p][0] == p;
  }

  lemma OneId(p: Post, lastId: nat)
    requires p.SinglePost? && p.request.id == lastId + 1
    ensures Ascending(IdsOf(p)) && Within(IdsOf(p), lastId, lastId + 1)
  {
  }

  lemma CallAdvances(b: View, call: Call, reply: CallReply)
    requires IdsOk(b)
    ensures Advances(b, AfterCall(b, call, reply))
    ensures Escaped(AfterCall(b, call, reply).log[|b.log|..]) <==> OneResult(reply).Raised?
  {
    var p := SinglePost(Request(b.lastId + 1, call), reply);
    OneId(p, b.lastId);
    IdsOkSnoc(b, p, b.lastId + 1, b.supported);
    LastEscapes(b.log, p);
  }

  lemma CallAnswered(b: View, call: Call, reply: CallReply)
    requires OneResult(reply).Returned?
    ensures Aligned(AfterCall(b, call, reply).log, b.lastId, b.lastId + 1, [call], [OneResult(reply).value],
                    [b.lastId + 1])
  {
    var log := AfterCall(b, call, reply).log;
    assert AnsweredBy(log[|b.log|], Request(b.lastId + 1, call), OneResult(reply).value);
  }

  lemma CallAligned(b: View, call: Call, reply: CallReply, out: Outcome<RpcResult>)
    requires IdsOk(b) && out == OneResult(reply)
    ensures IdsOk(AfterCall(b, call, reply))
    ensures Delivered(b, AfterCall(b, call, reply), [call], AsBatch(out), ViaOf(out, b.lastId + 1))
  {
    CallAdvances(b, call, reply);
    if out.Returned? {
      CallAnswered(b, call, reply);
    }
  }

  lemma CallSent(server: Server, b: View, call: Call, reply: CallReply)
    requires IdsOk(b) && Capable(b) && FromServer(server, b.log) && reply == server.single(|b.log|)
    ensures var a, out := AfterCall(b, call, reply), OneResult(reply);
            && IdsOk(a) && Capable(a) && |a.log| == |b.log| + 1 && FromServer(server, a.log)
              && BatchPosts(a.log) == BatchPosts(b.log)
            && Delivered(b, a, [call], AsBatch(out), ViaOf(out, b.lastId + 1))
  {
    FromServerSnoc(server, b.log, SinglePost(Request(b.lastId + 1, call), reply));
    BatchPostsSnoc(b.log, SinglePost(Request(b.lastId + 1, call), reply));
    CapableSnoc(b, SinglePost(Request(b.lastId + 1, call), reply), AfterCall(b, call, reply));
    CallAligned(b, call, reply, OneResult(reply));
  }

  lemma DeliverOne(b: View, m: View, a: View, calls: seq<Call>, n: nat, results: seq<RpcResult>,
                   one: Outcome<RpcResult>, via: seq<nat>, id: nat)
    requires n < |calls| && Delivered(b, m, calls[..n], Returned(results), via)
    requires Delivered(m, a, [calls[n]], AsBatch(one), ViaOf(one, id))
    ensures one.Returned? ==> Delivered(b, a, calls[..n+1], Returned(results + [one.value]), via + [id])
    ensures one.Raised? ==> Delivered(b, a, calls, Raised, [])
  {
    DeliveredThen(b, m, a, calls[..n], [calls[n]], results, AsBatch(one), via, ViaOf(one, id));
    assert calls[..n] + [calls[n]] == calls[..n+1];
    if one.Raised? {
      RaisedThen(b, a, calls[..n+1], calls[n+1..]);
      assert calls[..n+1] + calls[n+1..] == calls;
    }
  }

  lemma Regroup(a: seq<Call>, b: seq<Call>, c: seq<Call>)
    ensures (a + b) + c == a + (b + c)
  {
  }

  lemma {:induction false} FlattenRest(chunks: seq<seq<Call>>, n: nat)
    requires n <= |chunks|
    ensures Flatten(chunks) == Flatten(chunks[..n]) + Flatten(chunks[n..])
    decreases |chunks| - n
  {
    if n == |chunks| {
      assert chunks[..n] == chunks;
    } else {
      FlattenRest(chunks, n + 1);
      FlattenSnoc(chunks, n);
      FlattenCons(chunks[n], chunks[n+1..]);
      assert [chunks[n]] + chunks[n+1..] == chunks[n..];
      Regroup(Flatten(chunks[..n]), chunks[n], Flatten(chunks[n+1..]));
    }
  }

  /** A chunk delivered after the chunks before it. */
  lemma DeliverChunk(b: View, m: View, a: View, chunks: seq<seq<Call>>, n: nat, results: seq<RpcResult>,
                     one: Outcome<seq<RpcResult>>, via: seq<nat>, v: seq<nat>)
    requires n < |chunks| && Delivered(b, m, Flatten(chunks[..n]), Returned(results), via)
    requires Delivered(m, a, chunks[n], one, v)
    ensures one.Returned? ==> Delivered(b, a, Flatten(chunks[..n+1]), Returned(results + one.value), via + v)
    ensures one.Raised? ==> Delivered(b, a, Flatten(chunks), Raised, [])
  {
    DeliveredThen(b, m, a, Flatten(chunks[..n]), chunks[n], results, one, via, v);
    FlattenSnoc(chunks, n);
    if one.Raised? {
      FlattenRest(chunks, n + 1);
      RaisedThen(b, a, Flatten(chunks[..n+1]), Flatten(chunks[n+1..]));
    }
  }

  /** The first chunk, and then all the others. */
  lemma DeliverFirst(b: View, m: View, a: View, chunks: seq<seq<Call>>, first: seq<RpcResult>,
                     rest: Outcome<seq<RpcResult>>, via1: seq<nat>, via2: seq<nat>)
    requires chunks != [] && Delivered(b, m, chunks[0], Returned(first), via1)
    requires Delivered(m, a, Flatten(chunks[1..]), rest, via2)
    ensures rest.Returned? ==> Delivered(b, a, Flatten(chunks), Returned(first + rest.value), via1 + via2)
    ensures rest.Raised? ==> Delivered(b, a, Flatten(chunks), Raised, [])
  {
    FlattenCons(chunks[0], chunks[1..]);
    assert [chunks[0]] + chunks[1..] == chunks;
    DeliveredThen(b, m, a, chunks[0], Flatten(chunks[1..]), first, rest, via1, via2);
  }

  lemma FirstRaised(b: View, a: View, chunks: seq<seq<Call>>)
    requires chunks != [] && Delivered(b, a, chunks[0], Raised, [])
    ensures Delivered(b, a, Flatten(chunks), Raised, [])
  {
    FlattenCons(chunks[0], chunks[1..]);
    assert [chunks[0]] + chunks[1..] == chunks;
    RaisedThen(b, a, chunks[0], Flatten(chunks[1..]));
  }

  // -------------------------------------------------------- when a reply is dropped

  /** A rate-limit signal: the HTTP status, or a list in which every request of the batch is
      answered by a rate-limit error. */
  ghost predicate AsksToRetry(reply: BatchReply, reqs: seq<Request>) {
    match reply
    case BodyUnreadable(status) => status == 429
    case NonList(status) => status == 429
    case List(status, items) => status == 429 || forall i | 0 <= i < |reqs| :: LimitedAnswer(items, reqs[i].id)
    case _ => false
  }

  ghost predicate LimitedAnswer(items: seq<Resp>, id: nat) {
    var body := LastWithId(items, id);
    body.Some? && body.value.HasError? && RateLimited(body.value.error)
  }

  ghost predicate Dropped(reply: BatchReply, reqs: seq<Request>, canSplit: bool) {
    (canSplit && AsksToRetry(reply, reqs)) || (reply.NonList? && reply.status != 429)
  }

  /** Where the results of a chunk come from: its own post, unless that reply is dropped
      because of a rate limit that may still be split, or because the server does not batch;
      then every result comes from a later request. */
  ghost predicate Origin(b: View, a: View, chunk: seq<Call>, canSplit: bool, via: seq<nat>) {
    && b.log <= a.log && |a.log| > |b.log| && a.log[|b.log|].BatchPost? && Capable(a)
    && var p := a.log[|b.log|];
       && Numbered(p.requests, b.lastId, chunk)
       && (if Dropped(p.batchReply, p.requests, canSplit) then forall i | 0 <= i < |via| :: via[i] > b.lastId + |chunk|
           else a.log == b.log + [p] && via == IdsOf(p))
  }

  lemma OriginLater(b: View, m: View, a: View, p: Post, chunk: seq<Call>, canSplit: bool, out: Outcome<seq<RpcResult>>,
                    via: seq<nat>)
    requires p.BatchPost? && Numbered(p.requests, b.lastId, chunk) && Dropped(p.batchReply, p.requests, canSplit)
    requires m.log == b.log + [p] && m.lastId == b.lastId + |chunk|
    requires Delivered(m, a, chunk, out, via) && out.Returned? && Capable(a)
    ensures Origin(b, a, chunk, canSplit, via)
  {
    assert m.log <= a.log && m.log[|b.log|] == p;
  }

  lemma OriginNow(b: View, a: View, p: Post, chunk: seq<Call>, canSplit: bool)
    requires p.BatchPost? && Numbered(p.requests, b.lastId, chunk) && !Dropped(p.batchReply, p.requests, canSplit)
    requires a.log == b.log + [p] && Capable(a)
    ensures Origin(b, a, chunk, canSplit, IdsOf(p))
  {
  }

  // ------------------------------------------------------------ chunk after chunk

  /** Each chunk, in order, has the origin of its results, and `via` lists the numbers they
      came under. */
  ghost predicate SentAs(b: View, a: View, chunks: seq<seq<Call>>, minRetry: nat, splits: nat, via: seq<nat>)
    decreases |chunks|
  {
    if chunks == [] then b == a && via == []
    else
      var n := |chunks| - 1;
      exists m: View, v1: seq<nat>, v2: seq<nat> ::
        && SentAs(b, m, chunks[..n], minRetry, splits, v1)
        && Origin(m, a, chunks[n], |chunks[n]| > minRetry && splits > 0, v2)
        && via == v1 + v2
  }

  lemma SentAsSnoc(b: View, m: View, a: View, chunks: seq<seq<Call>>, n: nat, minRetry: nat, splits: nat, v1: seq<nat>,
                   v2: seq<nat>)
    requires n < |chunks| && SentAs(b, m, chunks[..n], minRetry, splits, v1)
    requires Origin(m, a, chunks[n], |chunks[n]| > minRetry && splits > 0, v2)
    ensures SentAs(b, a, chunks[..n+1], minRetry, splits, v1 + v2)
  {
    assert chunks[..n+1][..n] == chunks[..n];
  }

  /** What a whole batch sends: nothing but single calls once the server is known not to batch;
      every chunk if it is known to batch; and otherwise the first chunk finds out. */
  ghost predicate Traced(b: View, a: View, chunks: seq<seq<Call>>, minRetry: nat, splits: nat, via: seq<nat>) {
    match b.supported
    case Some(true) => SentAs(b, a, chunks, minRetry, splits, via)
    case Some(false) => BatchPosts(a.log) == BatchPosts(b.log)
    case None => chunks != [] && exists m: View, v1: seq<nat>, v2: seq<nat> ::
        && Origin(b, m, chunks[0], |chunks[0]| > minRetry && splits > 0, v1)
        && Remaining(m, a, chunks[1..], minRetry, splits, v2)
        && via == v1 + v2
  }

  lemma TracedFirst(b: View, m: View, a: View, chunks: seq<seq<Call>>, minRetry: nat, splits: nat, v1: seq<nat>,
                    v2: seq<nat>)
    requires b.supported.None? && chunks != []
    requires Origin(b, m, chunks[0], |chunks[0]| > minRetry && splits > 0, v1)
    requires Remaining(m, a, chunks[1..], minRetry, splits, v2)
    ensures Traced(b, a, chunks, minRetry, splits, v1 + v2)
  {
  }

  ghost predicate Remaining(m: View, a: View, chunks: seq<seq<Call>>, minRetry: nat, splits: nat, via: seq<nat>) {
    if m.supported == Some(false) then m.log <= a.log && BatchPosts(a.log) == BatchPosts(m.log)
    else SentAs(m, a, chunks, minRetry, splits, via)
  }

  /** The results of the first `n` chunks. */
  ghost predicate SentSoFar(b: View, a: View, chunks: seq<seq<Call>>, n: nat, minRetry: nat, splits: nat,
                            results: seq<RpcResult>, via: seq<nat>)
    requires n <= |chunks|
  {
    && Delivered(b, a, Flatten(chunks[..n]), Returned(results), via)
    && SentAs(b, a, chunks[..n], minRetry, splits, via)
    && BatchPosts(a.log) <= BatchPosts(b.log) + Budget(n, Pow2(splits + 1) - 1)
  }

  /** The outcome of all chunks. */
  ghost predicate SentAll(b: View, a: View, chunks: seq<seq<Call>>, minRetry: nat, splits: nat,
                          out: Outcome<seq<RpcResult>>, via: seq<nat>)
  {
    && Delivered(b, a, Flatten(chunks), out, via)
    && (out.Returned? ==> SentAs(b, a, chunks, minRetry, splits, via))
    && BatchPosts(a.log) <= BatchPosts(b.log) + Budget(|chunks|, Pow2(splits + 1) - 1)
  }

  lemma AllSent(b: View, a: View, chunks: seq<seq<Call>>, minRetry: nat, splits: nat, results: seq<RpcResult>,
                via: seq<nat>)
    requires SentSoFar(b, a, chunks, |chunks|, minRetry, splits, results, via)
    ensures SentAll(b, a, chunks, minRetry, splits, Returned(results), via)
  {
    assert chunks[..|chunks|] == chunks;
  }

  lemma NothingSent(v: View, chunks: seq<seq<Call>>, minRetry: nat, splits: nat)
    requires IdsOk(v)
    ensures SentSoFar(v, v, chunks, 0, minRetry, splits, [], [])
  {
    NothingYet(v);
    assert chunks[..0] == [];
  }

  lemma PostsStep(before: nat, middle: nat, after: nat, n: nat, all: nat, each: nat)
    requires n < all && middle <= before + Budget(n, each) && after <= middle + each
    ensures after <= before + Budget(n + 1, each) && after <= before + Budget(all, each)
  {
    BudgetGrows(n + 1, all, each);
  }

  /** One more chunk. */
  lemma SentStep(b: View, m: View, a: View, chunks: seq<seq<Call>>, n: nat, minRetry: nat, splits: nat,
                 results: seq<RpcResult>, one: Outcome<seq<RpcResult>>, via: seq<nat>, v: seq<nat>)
    requires n < |chunks| && SentSoFar(b, m, chunks, n, minRetry, splits, results, via)
    requires Delivered(m, a, chunks[n], one, v)
    requires one.Returned? ==> Origin(m, a, chunks[n], |chunks[n]| > minRetry && splits > 0, v)
    requires BatchPosts(a.log) <= BatchPosts(m.log) + Pow2(splits + 1) - 1
    ensures one.Returned? ==> SentSoFar(b, a, chunks, n + 1, minRetry, splits, results + one.value, via + v)
    ensures one.Raised? ==> SentAll(b, a, chunks, minRetry, splits, Raised, [])
  {
    DeliverChunk(b, m, a, chunks, n, results, one, via, v);
    PostsStep(BatchPosts(b.log), BatchPosts(m.log), BatchPosts(a.log), n, |chunks|, Pow2(splits + 1) - 1);
    if one.Returned? {
      SentAsSnoc(b, m, a, chunks, n, minRetry, splits, via, v);
    }
  }

  /** The client's count of rate-limit errors is complete exactly when the list asks to retry. */
  lemma CountMeansAsking(reqs: seq<Request>, status: int, items: seq<Resp>, results: seq<RpcResult>)
    requires status != 429 && AllAnswered(reqs, List(status, items), results)
    ensures AsksToRetry(List(status, items), reqs) <==>
            forall i | 0 <= i < |reqs| :: results[i].Failure? && results[i].reason.ServerError?
                && RateLimited(results[i].reason.error)
  {
    forall i | 0 <= i < |reqs|
      ensures LimitedAnswer(items, reqs[i].id) <==>
              results[i].Failure? && results[i].reason.ServerError? && RateLimited(results[i].reason.error)
    {
      assert BatchAnswer(List(status, items), reqs[i].id) == Some(results[i]);
    }
  }

  class JsonRpcClient {
    const server: Server
    const maxBatch: int
    const minRetryBatch: nat
    const maxSplits: nat
    var lastId: nat
    var batchSupported: Option<bool>
    var postCount: nat
    ghost var log: seq<Post>

    /** The two retry settings are clipped as the program clips its environment values. */
    constructor (server: Server, maxBatch: int, minRetryBatch: int, maxSplits: int)
      ensures Valid() && State() == View([], 0, None)
      ensures this.server == server && this.maxBatch == maxBatch
      ensures this.minRetryBatch == (if minRetryBatch >= 1 then minRetryBatch else 1)
      ensures this.maxSplits == if maxSplits <= 0 then 0 else if maxSplits <= 6 then maxSplits else 6
    {
      this.server, this.maxBatch := server, maxBatch;
      this.minRetryBatch := if minRetryBatch >= 1 then minRetryBatch else 1;
      this.maxSplits := if maxSplits <= 0 then 0 else if maxSplits <= 6 then maxSplits else 6;
      lastId, batchSupported, postCount, log := 0, None, 0, [];
    }

    ghost function State(): View
      reads this
    {
      View(log, lastId, batchSupported)
    }

    /** Every post so far is logged, with a number of its own and the reply of the server. */
    ghost predicate Logged()
      reads this
    {
      minRetryBatch >= 1 && IdsOk(State()) && postCount == |log| && FromServer(server, log)
    }

    ghost predicate Valid()
      reads this
    {
      Logged() && Capable(State())
    }

    predicate CanSplit(chunk: seq<Call>, depth: nat) { |chunk| > minRetryBatch && depth < maxSplits }

    function ChunkSize(): (size: nat)
      ensures size >= 1
    {
      if maxBatch >= 1 then maxBatch else 1
    }

    method NextId() returns (id: nat)
      modifies this`lastId
      ensures id == lastId == old(lastId) + 1
    {
      lastId := lastId + 1;
      id := lastId;
    }

    /** One call, one post, one result, unless the reply is not a JSON object. */
    method CallOne(call: Call) returns (out: Outcome<RpcResult>, ghost via: nat)
      requires Valid()
      modifies this`lastId, this`postCount, this`log
      ensures Valid() && Delivered(old(State()), State(), [call], AsBatch(out), ViaOf(out, via))
      ensures out == OneResult(server.single(old(postCount)))
          && State() == AfterCall(old(State()), call, server.single(old(postCount)))
      ensures BatchPosts(log) == BatchPosts(old(log))
    {
      ghost var before := State();
      var id := NextId();
      via := id;
      var reply := server.single(postCount);
      postCount := postCount + 1;
      log := log + [SinglePost(Request(id, call), reply)];
      match CallAnswer(reply) {
        case None => out := Raised;
        case Some(result) => out := Returned(result);
      }
      CallSent(server, before, call, reply);
      assert State() == AfterCall(before, call, reply);
    }

    /** Calling one by one, in order. */
    method CallEach(calls: seq<Call>) returns (out: Outcome<seq<RpcResult>>, ghost via: seq<nat>)
      requires Valid()
      modifies this`lastId, this`postCount, this`log
      ensures Valid() && Delivered(old(State()), State(), calls, out, via)
      ensures BatchPosts(log) == BatchPosts(old(log))
    {
      ghost var before := State();
      var results: seq<RpcResult> := [];
      via := [];
      NothingYet(before);
      for n := 0 to |calls|
        invariant Valid() && Delivered(before, State(), calls[..n], Returned(results), via)
        invariant BatchPosts(log) == BatchPosts(before.log)
      {
        ghost var middle := State();
        var one, id := CallOne(calls[n]);
        DeliverOne(before, middle, State(), calls, n, results, one, via, id);
        if one.Raised? {
          return Raised, [];
        }
        results := results + [one.value];
        via := via + [id];
      }
      assert calls[..|calls|] == calls;
      out := Returned(results);
    }

    method BuildRequests(chunk: seq<Call>) returns (reqs: seq<Request>)
      modifies this`lastId
      ensures lastId == old(lastId) + |chunk|
      ensures Numbered(reqs, old(lastId), chunk)
    {
      reqs := [];
      for n := 0 to |chunk|
        invariant lastId == old(lastId) + n
        invariant Numbered(reqs, old(lastId), chunk[..n])
      {
        var id := NextId();
        reqs := reqs + [Request(id, chunk[n])];
      }
      assert chunk[..|chunk|] == chunk;
    }

    static method IndexById(items: seq<Resp>) returns (r: Outcome<map<int, Body>>)
      ensures r.Raised? <==> HasOverflowingId(items)
      ensures r.Returned? ==>
                forall id: int ::
                  && (id in r.value <==> LastWithId(items, id).Some?)
                  && (id in r.value ==> LastWithId(items, id) == Some(r.value[id]))
    {
      var byId: map<int, Body> := map[];
      for n := 0 to |items|
        invariant !HasOverflowingId(items[..n])
        invariant forall id: int ::
                    && (id in byId <==> LastWithId(items[..n], id).Some?)
                    && (id in byId ==> LastWithId(items[..n], id) == Some(byId[id]))
      {
        assert items[..n+1][..n] == items[..n];
        var resp := items[n];
        if resp.Object? {
          match resp.id {
            case Overflowing => return Raised;
            case Parsed(id) => byId := byId[id := resp.body];
            case NoId =>
            case Unparseable =>
          }
        }
      }
      assert items[..|items|] == items;
      return Returned(byId);
    }

    static lemma MatchedById(reqs: seq<Request>, status: int, items: seq<Resp>, byId: map<int, Body>,
                             results: seq<RpcResult>)
      requires status != 429 && |results| == |reqs|
      requires forall id: int ::
                 && (id in byId <==> LastWithId(items, id).Some?)
                 && (id in byId ==> LastWithId(items, id) == Some(byId[id]))
      requires forall i | 0 <= i < |reqs| ::
                 results[i] == if reqs[i].id in byId then ResultOfBody(byId[reqs[i].id])
                               else Failure(MissingBatchResponse)
      ensures AllAnswered(reqs, List(status, items), results)
    {
    }

    static method CollectResults(reqs: seq<Request>, byId: map<int, Body>)
      returns (results: seq<RpcResult>, limited: nat)
      ensures |results| == |reqs|
      ensures forall i | 0 <= i < |reqs| ::
                results[i] == if reqs[i].id in byId then ResultOfBody(byId[reqs[i].id])
                  else Failure(MissingBatchResponse)
      ensures limited <= |reqs|
      ensures limited == |reqs| <==> forall i | 0 <= i < |reqs| ::
                results[i].Failure? && results[i].reason.ServerError? && RateLimited(results[i].reason.error)
    {
      results, limited := [], 0;
      for n := 0 to |reqs|
        invariant |results| == n && limited <= n
        invariant forall i | 0 <= i < n ::
                    results[i] == if reqs[i].id in byId then ResultOfBody(byId[reqs[i].id])
                      else Failure(MissingBatchResponse)
        invariant limited == n <==> forall i | 0 <= i < n ::
                    results[i].Failure? && results[i].reason.ServerError? && RateLimited(results[i].reason.error)
      {
        var id := reqs[n].id;
        if id !in byId {
          results := results + [Failure(MissingBatchResponse)];
        } else {
          match byId[id] {
            case HasError(e) =>
              if RateLimited(e) {
                limited := limited + 1;
              }
              results := results + [Failure(ServerError(e))];
            case HasResult(v) => results := results + [Success(v)];
          }
        }
      }
    }

    /** Asks again in two smaller batches; None when the chunk may not be split further. */
    method RateLimitRetry(chunk: seq<Call>, depth: nat)
      returns (retry: Option<Outcome<seq<RpcResult>>>, ghost via: seq<nat>)
      requires Valid() && depth <= maxSplits
      modifies this`lastId, this`postCount, this`log, this`batchSupported
      ensures Valid()
      ensures retry.None? <==> !CanSplit(chunk, depth)
      ensures retry.None? ==> State() == old(State())
      ensures retry.Some? ==> Delivered(old(State()), State(), chunk, retry.value, via)
      ensures retry.Some? ==> BatchPosts(log) <= BatchPosts(old(log)) + 2 * (Pow2(maxSplits - depth) - 1)
      decreases maxSplits - depth, 0
    {
      if |chunk| <= minRetryBatch || depth >= maxSplits {
        return None, [];
      }
      // The chunk is longer than either bound, so the program's last adjustment of an
      // over-long midpoint never applies.
      var midpoint := if minRetryBatch >= |chunk| / 2 then minRetryBatch else |chunk| / 2;
      var both, all := SendHalves(chunk, midpoint, depth + 1);
      return Some(both), all;
    }

    method SendHalves(chunk: seq<Call>, midpoint: nat, depth: nat)
      returns (out: Outcome<seq<RpcResult>>, ghost via: seq<nat>)
      requires Valid() && depth <= maxSplits && midpoint <= |chunk|
      modifies this`lastId, this`postCount, this`log, this`batchSupported
      ensures Valid() && Delivered(old(State()), State(), chunk, out, via)
      ensures BatchPosts(log) <= BatchPosts(old(log)) + 2 * (Pow2(maxSplits - depth + 1) - 1)
      decreases maxSplits - depth, 6
    {
      ghost var before := State();
      TakeAndDrop(chunk, midpoint);
      var left, via1 := SendChunk(chunk[..midpoint], depth);
      if left.Raised? {
        RaisedThen(before, State(), chunk[..midpoint], chunk[midpoint..]);
        return Raised, [];
      }
      out, via := SendSecondHalf(before, chunk, midpoint, depth, left.value, via1);
    }

    /** The second half of a split chunk, after the results of the first. */
    method SendSecondHalf(ghost before: View, chunk: seq<Call>, midpoint: nat, depth: nat, left: seq<RpcResult>,
                          ghost via1: seq<nat>) returns (out: Outcome<seq<RpcResult>>, ghost via: seq<nat>)
      requires Valid() && depth <= maxSplits && midpoint <= |chunk|
      requires Delivered(before, State(), chunk[..midpoint], Returned(left), via1)
      modifies this`lastId, this`postCount, this`log, this`batchSupported
      ensures Valid() && Delivered(before, State(), chunk, out, via)
      ensures BatchPosts(log) <= BatchPosts(old(log)) + Pow2(maxSplits - depth + 1) - 1
      decreases maxSplits - depth, 5
    {
      ghost var middle := State();
      TakeAndDrop(chunk, midpoint);
      var right, via2 := SendChunk(chunk[midpoint..], depth);
      DeliveredThen(before, middle, State(), chunk[..midpoint], chunk[midpoint..], left, right, via1, via2);
      if right.Raised? {
        return Raised, [];
      }
      return Returned(left + right.value), via1 + via2;
    }

    method PostBatch(chunk: seq<Call>) returns (reqs: seq<Request>, reply: BatchReply)
      requires Valid()
      modifies this`lastId, this`postCount, this`log
      ensures Logged() && Posted(old(State()), State(), reqs, reply, chunk)
      ensures Learn(old(batchSupported), BatchPost(reqs, reply)) == old(batchSupported) ==> Valid()
      ensures State() == View(old(log) + [BatchPost(reqs, reply)], old(lastId) + |chunk|, old(batchSupported))
      ensures reply.Unexpected? ==> Delivered(old(State()), State(), chunk, Raised, [])
      ensures BatchPosts(log) == BatchPosts(old(log)) + 1
    {
      ghost var before := State();
      reqs := BuildRequests(chunk);
      reply := server.batch(postCount);
      postCount := postCount + 1;
      BatchPostsSnoc(log, BatchPost(reqs, reply));
      FromServerSnoc(server, log, BatchPost(reqs, reply));
      log := log + [BatchPost(reqs, reply)];
      PostAdvances(before, reqs, reply, chunk, batchSupported);
      if Learn(before.supported, BatchPost(reqs, reply)) == before.supported {
        CapableSnoc(before, BatchPost(reqs, reply), State());
      }
    }

    /** One result per call of the chunk, in order, whatever the server does, with at most
        2^(splits left + 1) - 1 batch posts. */
    method SendChunk(chunk: seq<Call>, depth: nat) returns (out: Outcome<seq<RpcResult>>, ghost via: seq<nat>)
      requires Valid() && depth <= maxSplits
      modifies this`lastId, this`postCount, this`log, this`batchSupported
      ensures Valid() && Delivered(old(State()), State(), chunk, out, via)
      ensures batchSupported == Capability(log)
      ensures out.Returned? ==> Origin(old(State()), State(), chunk, CanSplit(chunk, depth), via)
      ensures BatchPosts(log) <= BatchPosts(old(log)) + Pow2(maxSplits - depth + 1) - 1
      decreases maxSplits - depth, 4
    {
      ghost var before := State();
      var reqs, reply := PostBatch(chunk);
      match reply {
        case Unexpected => return Raised, [];
        case TransportFailed =>
          out, via := RetryOrFail(before, reqs, reply, chunk, depth, false, Transport);
        case BodyUnreadable(status) =>
          out, via := RetryOrFail(before, reqs, reply, chunk, depth, status == 429,
                                  if status >= 400 then HttpStatus(status) else Transport);
        case NonList(status) =>
          if status == 429 {
            out, via := RetryOrFail(before, reqs, reply, chunk, depth, true, HttpStatus(429));
          } else {
            out, via := FallBack(before, reqs, status, chunk, CanSplit(chunk, depth));
          }
        case List(status, items) =>
          if status == 429 {
            out, via := RetryOrFail(before, reqs, reply, chunk, depth, true, HttpStatus(429));
          } else {
            out, via := ReadList(before, reqs, status, items, chunk, depth);
          }
      }
    }

    /** The server does not batch: remember it and call one by one. */
    method FallBack(ghost before: View, reqs: seq<Request>, status: int, chunk: seq<Call>, ghost canSplit: bool)
      returns (out: Outcome<seq<RpcResult>>, ghost via: seq<nat>)
      requires Logged() && status != 429 && IdsOk(before) && Capable(before) && Numbered(reqs, before.lastId, chunk)
      requires State()
          == View(before.log + [BatchPost(reqs, NonList(status))], before.lastId + |chunk|, before.supported)
      modifies this`lastId, this`postCount, this`log, this`batchSupported
      ensures Valid() && Delivered(before, State(), chunk, out, via)
      ensures out.Returned? ==> Origin(before, State(), chunk, canSplit, via)
      ensures batchSupported == Some(false)
      ensures BatchPosts(log) == BatchPosts(old(log))
    {
      batchSupported := Some(false);
      CapableSnoc(before, BatchPost(reqs, NonList(status)), State());
      PostAdvances(before, reqs, NonList(status), chunk, batchSupported);
      ghost var posted := State();
      out, via := CallEach(chunk);
      DiscardedThen(before, posted, State(), chunk, out, via);
      if out.Returned? {
        OriginLater(before, posted, State(), BatchPost(reqs, NonList(status)), chunk, canSplit, out, via);
      }
    }

    /** Asks again after a post whose reply is dropped. */
    method RetryAfter(ghost before: View, chunk: seq<Call>, depth: nat)
      returns (retry: Option<Outcome<seq<RpcResult>>>, ghost via: seq<nat>)
      requires Valid() && depth <= maxSplits
      requires Advances(before, State()) && !Escaped(State().log[|before.log|..])
      modifies this`lastId, this`postCount, this`log, this`batchSupported
      ensures Valid()
      ensures retry.None? <==> !CanSplit(chunk, depth)
      ensures retry.None? ==> State() == old(State())
      ensures retry.Some? ==> Delivered(old(State()), State(), chunk, retry.value, via)
      ensures retry.Some? ==> Delivered(before, State(), chunk, retry.value, via)
      ensures BatchPosts(log) <= BatchPosts(old(log)) + 2 * (Pow2(maxSplits - depth) - 1)
      decreases maxSplits - depth, 1
    {
      ghost var posted := State();
      retry, via := RateLimitRetry(chunk, depth);
      if retry.Some? {
        DiscardedThen(before, posted, State(), chunk, retry.value, via);
      }
    }

    /** Splits further if the reply was a rate limit and splitting is still allowed;
        otherwise the results are the reply's own. */
    method Settle(ghost before: View, ghost reqs: seq<Request>, ghost reply: BatchReply, chunk: seq<Call>, depth: nat,
                  limited: bool, results: seq<RpcResult>)
      returns (out: Outcome<seq<RpcResult>>, ghost via: seq<nat>)
      requires Valid() && depth <= maxSplits && Posted(before, State(), reqs, reply, chunk)
      requires !Escapes(BatchPost(reqs, reply)) && AllAnswered(reqs, reply, results)
      requires (limited ==> AsksToRetry(reply, reqs)) && (Dropped(reply, reqs, CanSplit(chunk, depth)) ==> limited)
      modifies this`lastId, this`postCount, this`log, this`batchSupported
      ensures Valid() && Delivered(before, State(), chunk, out, via)
      ensures out.Returned? ==> Origin(before, State(), chunk, CanSplit(chunk, depth), via)
      ensures BatchPosts(log) <= BatchPosts(old(log)) + 2 * (Pow2(maxSplits - depth) - 1)
      decreases maxSplits - depth, 2
    {
      if limited {
        PostedAdvances(before, State(), reqs, reply, chunk);
        ghost var posted := State();
        var retry, v := RetryAfter(before, chunk, depth);
        if retry.Some? {
          if retry.value.Returned? {
            OriginLater(before, posted, State(), BatchPost(reqs, reply), chunk, true, retry.value, v);
          }
          return retry.value, v;
        }
      }
      PostedDelivers(before, State(), reqs, reply, chunk, results);
      OriginNow(before, State(), BatchPost(reqs, reply), chunk, CanSplit(chunk, depth));
      out, via := Returned(results), IdsOf(BatchPost(reqs, reply));
    }

    /** Every call of the chunk gets the same failure, unless the chunk may be split. */
    method RetryOrFail(ghost before: View, reqs: seq<Request>, reply: BatchReply, chunk: seq<Call>, depth: nat,
                       limited: bool, reason: Reason)
      returns (out: Outcome<seq<RpcResult>>, ghost via: seq<nat>)
      requires Valid() && depth <= maxSplits && Posted(before, State(), reqs, reply, chunk)
      requires !Escapes(BatchPost(reqs, reply)) && BlanketFailure(reply) == Some(reason)
      requires limited <==> AsksToRetry(reply, reqs)
      modifies this`lastId, this`postCount, this`log, this`batchSupported
      ensures Valid() && Delivered(before, State(), chunk, out, via)
      ensures out.Returned? ==> Origin(before, State(), chunk, CanSplit(chunk, depth), via)
      ensures BatchPosts(log) <= BatchPosts(old(log)) + 2 * (Pow2(maxSplits - depth) - 1)
      decreases maxSplits - depth, 3
    {
      out, via := Settle(before, reqs, reply, chunk, depth, limited, seq(|chunk|, _ => Failure(reason)));
    }

    /** Matching a list reply by id, with one more split when every response was rate limited. */
    method ReadList(ghost before: View, reqs: seq<Request>, status: int, items: seq<Resp>, chunk: seq<Call>, depth: nat)
      returns (out: Outcome<seq<RpcResult>>, ghost via: seq<nat>)
      requires Logged() && depth <= maxSplits && status != 429
      requires Capable(before) && batchSupported == before.supported
          && Posted(before, State(), reqs, List(status, items), chunk)
      modifies this`lastId, this`postCount, this`log, this`batchSupported
      ensures Valid() && Delivered(before, State(), chunk, out, via)
      ensures batchSupported == Capability(log)
      ensures out.Returned? ==> Origin(before, State(), chunk, CanSplit(chunk, depth), via)
      ensures BatchPosts(log) <= BatchPosts(old(log)) + 2 * (Pow2(maxSplits - depth) - 1)
      decreases maxSplits - depth, 3
    {
      ghost var reply := List(status, items);
      if batchSupported.None? {
        batchSupported := Some(true);
      }
      CapableSnoc(before, BatchPost(reqs, reply), State());
      PostAdvances(before, reqs, reply, chunk, batchSupported);
      var byId := IndexById(items);
      if byId.Raised? {
        return Raised, [];
      }
      var results, limited := CollectResults(reqs, byId.value);
      MatchedById(reqs, status, items, byId.value, results);
      CountMeansAsking(reqs, status, items, results);
      out, via := Settle(before, reqs, reply, chunk, depth, limited == |chunk| && |chunk| > minRetryBatch, results);
    }

    /** Sends the next chunk after the results so far. */
    method SendNext(ghost before: View, chunks: seq<seq<Call>>, n: nat, results: seq<RpcResult>, ghost via: seq<nat>)
      returns (out: Outcome<seq<RpcResult>>, ghost all: seq<nat>)
      requires Valid() && n < |chunks|
      requires SentSoFar(before, State(), chunks, n, minRetryBatch, maxSplits, results, via)
      modifies this`lastId, this`postCount, this`log, this`batchSupported
      ensures Valid()
      ensures out.Returned? ==> SentSoFar(before, State(), chunks, n + 1, minRetryBatch, maxSplits, out.value, all)
      ensures out.Raised? ==> SentAll(before, State(), chunks, minRetryBatch, maxSplits, Raised, [])
    {
      ghost var middle := State();
      var one, v := SendChunk(chunks[n], 0);
      SentStep(before, middle, State(), chunks, n, minRetryBatch, maxSplits, results, one, via, v);
      if one.Raised? {
        return Raised, [];
      }
      out, all := Returned(results + one.value), via + v;
    }

    /** Sends the given chunks one after the other. */
    method SendChunks(chunks: seq<seq<Call>>) returns (out: Outcome<seq<RpcResult>>, ghost via: seq<nat>)
      requires Valid()
      modifies this`lastId, this`postCount, this`log, this`batchSupported
      ensures Valid() && SentAll(old(State()), State(), chunks, minRetryBatch, maxSplits, out, via)
    {
      ghost var before := State();
      var results: seq<RpcResult> := [];
      via := [];
      NothingSent(before, chunks, minRetryBatch, maxSplits);
      for n := 0 to |chunks|
        invariant Valid() && SentSoFar(before, State(), chunks, n, minRetryBatch, maxSplits, results, via)
      {
        var sent, all := SendNext(before, chunks, n, results, via);
        if sent.Raised? {
          return Raised, [];
        }
        results, via := sent.value, all;
      }
      AllSent(before, State(), chunks, minRetryBatch, maxSplits, results, via);
      out := Returned(results);
    }

    /** All chunks but the first, after the results of the first. */
    method SendOthers(ghost before: View, chunks: seq<seq<Call>>, first: seq<RpcResult>, ghost via1: seq<nat>)
      returns (out: Outcome<seq<RpcResult>>, ghost via: seq<nat>)
      requires Valid() && chunks != [] && Delivered(before, State(), chunks[0], Returned(first), via1)
      requires before.supported.None? && Origin(before, State(), chunks[0], CanSplit(chunks[0], 0), via1)
      modifies this`lastId, this`postCount, this`log, this`batchSupported
      ensures Valid() && Delivered(before, State(), Flatten(chunks), out, via)
      ensures out.Returned? ==> Traced(before, State(), chunks, minRetryBatch, maxSplits, via)
      ensures BatchPosts(log) <= BatchPosts(old(log)) + Budget(|chunks| - 1, Pow2(maxSplits + 1) - 1)
    {
      ghost var middle := State();
      var rest, via2 := SendRest(chunks[1..]);
      DeliverFirst(before, middle, State(), chunks, first, rest, via1, via2);
      if rest.Raised? {
        return Raised, [];
      }
      TracedFirst(before, middle, State(), chunks, minRetryBatch, maxSplits, via1, via2);
      return Returned(first + rest.value), via1 + via2;
    }

    /** The first chunk finds out whether the server batches at all. */
    method ProbeThenSend(chunks: seq<seq<Call>>) returns (out: Outcome<seq<RpcResult>>, ghost via: seq<nat>)
      requires Valid() && chunks != [] && batchSupported.None?
      modifies this`lastId, this`postCount, this`log, this`batchSupported
      ensures Valid() && Delivered(old(State()), State(), Flatten(chunks), out, via)
      ensures out.Returned? ==> Traced(old(State()), State(), chunks, minRetryBatch, maxSplits, via)
      ensures BatchPosts(log) <= BatchPosts(old(log)) + Budget(|chunks|, Pow2(maxSplits + 1) - 1)
    {
      ghost var before := State();
      var first, via1 := SendChunk(chunks[0], 0);
      if first.Raised? {
        FirstRaised(before, State(), chunks);
        return Raised, [];
      }
      out, via := SendOthers(before, chunks, first.value, via1);
    }

    method SendRest(chunks: seq<seq<Call>>) returns (out: Outcome<seq<RpcResult>>, ghost via: seq<nat>)
      requires Valid()
      modifies this`lastId, this`postCount, this`log, this`batchSupported
      ensures Valid() && Delivered(old(State()), State(), Flatten(chunks), out, via)
      ensures out.Returned? ==> Remaining(old(State()), State(), chunks, minRetryBatch, maxSplits, via)
      ensures BatchPosts(log) <= BatchPosts(old(log)) + Budget(|chunks|, Pow2(maxSplits + 1) - 1)
    {
      if batchSupported == Some(false) {
        out, via := CallEach(Flatten(chunks));
      } else {
        out, via := SendChunks(chunks);
      }
    }

    /** Exactly one result per call, in input order, each taken from the response that
        carries the call's own request number; the only exception is a reply that the
        client does not handle, and then the whole batch raises. */
    method Batch(calls: seq<Call>) returns (out: Outcome<seq<RpcResult>>, ghost via: seq<nat>)
      requires Valid()
      modifies this`lastId, this`postCount, this`log, this`batchSupported
      ensures Valid() && Delivered(old(State()), State(), calls, out, via)
      ensures calls == [] ==> out == Returned([]) && State() == old(State())
      ensures calls != [] && out.Returned? ==>
                Traced(old(State()), State(), Chunks(calls, ChunkSize()), minRetryBatch, maxSplits, via)
      ensures BatchPosts(log) <= BatchPosts(old(log)) + |Chunks(calls, ChunkSize())| * (Pow2(maxSplits + 1) - 1)
      ensures batchSupported == Capability(log)
      ensures Refused(old(log)) ==> BatchPosts(log) == BatchPosts(old(log))
    {
      CapabilityMeans(log);
      if calls == [] {
        NothingYet(State());
        return Returned([]), [];
      }
      var chunks := Chunks(calls, ChunkSize());
      ChunksFlatten(calls, ChunkSize());
      BudgetIsProduct(|chunks|, Pow2(maxSplits + 1) - 1);
      if batchSupported == Some(false) {
        out, via := CallEach(calls);
      } else if batchSupported.None? {
        out, via := ProbeThenSend(chunks);
      } else {
        out, via := SendChunks(chunks);
      }
    }
  }

  /** A success is never made up: the server put that value in a reply, and under the
      request number of the call it is handed to. */
  lemma SuccessComesFromServer(server: Server, v: View, low: nat, calls: seq<Call>, results: seq<RpcResult>,
                               via: seq<nat>, k: nat)
    requires FromServer(server, v.log) && Aligned(v.log, low, v.lastId, calls, results, via)
    requires k < |calls| && results[k].Success?
    ensures exists i: nat :: i < |v.log| &&
              match v.log[i]
              case BatchPost(reqs, _) =>
                && Request(via[k], calls[k]) in reqs && server.batch(i).List?
                && LastWithId(server.batch(i).items, via[k]) == Some(HasResult(results[k].value))
              case SinglePost(req, _) =>
                req == Request(via[k], calls[k]) && server.single(i) == CallObject(HasResult(results[k].value))
  {
    var req := Request(via[k], calls[k]);
    assert Answered(v.log, req, results[k]);
    var i :| 0 <= i < |v.log| && AnsweredBy(v.log[i], req, results[k]);
    assert Said(server, i, v.log[i]);
    if v.log[i].BatchPost? {
      assert server.batch(i).List?;
    }
  }

  /** The first reply carries an id that does not convert to an integer with an expected error. */
  function OverflowingServer(): Server {
    var items := [Object(Parsed(1), HasResult("0x1")), Object(Overflowing, HasResult("0x2"))];
    Server(_ => List(200, items), _ => CallFailed)
  }

  /** Not every server behaviour yields results: with that reply the whole batch raises,
      although the other response of the same reply is in order. */
  method OverflowingIdRaises(calls: seq<Call>, maxBatch: int, minRetryBatch: int, maxSplits: int)
    returns (out: Outcome<seq<RpcResult>>)
    requires calls != []
    ensures out.Raised?
    ensures BatchAnswer(OverflowingServer().batch(0), 1) == Some(Success("0x1"))
  {
    var client := new JsonRpcClient(OverflowingServer(), maxBatch, minRetryBatch, maxSplits);
    ghost var via;
    out, via := client.Batch(calls);
    OverflowingReply();
    assert client.log[0..] == client.log;
    if out.Returned? {
      OverflowingEscapes(client.State(), Chunks(calls, client.ChunkSize()), client.minRetryBatch, client.maxSplits,
                         via);
      assert false;
    }
  }

  lemma {:induction false} SentAsGrows(b: View, a: View, chunks: seq<seq<Call>>, minRetry: nat, splits: nat,
                                       via: seq<nat>)
    requires SentAs(b, a, chunks, minRetry, splits, via)
    ensures b.log <= a.log
    decreases |chunks|
  {
    if chunks != [] {
      var n := |chunks| - 1;
      var m, v1, v2 :| && SentAs(b, m, chunks[..n], minRetry, splits, v1)
                       && Origin(m, a, chunks[n], |chunks[n]| > minRetry && splits > 0, v2);
      SentAsGrows(b, m, chunks[..n], minRetry, splits, v1);
      assert Origin(m, a, chunks[n], |chunks[n]| > minRetry && splits > 0, v2);
    }
  }

  lemma SentGrows(m: View, a: View, chunks: seq<seq<Call>>, minRetry: nat, splits: nat, via: seq<nat>)
    requires Remaining(m, a, chunks, minRetry, splits, via)
    ensures m.log <= a.log
  {
    if m.supported != Some(false) {
      SentAsGrows(m, a, chunks, minRetry, splits, via);
    }
  }

  lemma OverflowingReply()
    ensures var reply := OverflowingServer().batch(0);
            reply.List? && reply.status == 200 && HasOverflowingId(reply.items)
              && BatchAnswer(reply, 1) == Some(Success("0x1"))
  {
    var items := [Object(Parsed(1), HasResult("0x1")), Object(Overflowing, HasResult("0x2"))];
    assert OverflowingServer().batch(0) == List(200, items);
    assert items[1].id == Overflowing;
    assert items[..1] == [Object(Parsed(1), HasResult("0x1"))];
    assert LastWithId(items[..1], 1) == Some(HasResult("0x1"));
  }

  lemma OverflowingEscapes(a: View, chunks: seq<seq<Call>>, minRetry: nat, splits: nat, via: seq<nat>)
    requires FromServer(OverflowingServer(), a.log)
    requires Traced(View([], 0, None), a, chunks, minRetry, splits, via)
    ensures Escaped(a.log)
  {
    var b := View([], 0, None);
    var m, v1, v2 :| && Origin(b, m, chunks[0], |chunks[0]| > minRetry && splits > 0, v1)
                     && Remaining(m, a, chunks[1..], minRetry, splits, v2);
    assert Origin(b, m, chunks[0], |chunks[0]| > minRetry && splits > 0, v1);
    SentGrows(m, a, chunks[1..], minRetry, splits, v2);
    OverflowingReply();
    assert Said(OverflowingServer(), 0, a.log[0]);
    assert Escapes(a.log[0]);
  }
}
