/**
 Every interleaving of queryGet calls, server work, arriving responses,
 invalidations and server-side changes, over the client state of `QueryClient`.

 `history[t]` is the server's content after t events, so "the request was issued
 after that invalidation" and "the server held this payload then" are
 statements about positions in one sequence.
 */
module QueryRuns {
  import opened Wrappers
  import opened QueryClient

  type CallId = nat
  type Server = map<Key, Payload>

  datatype Served = Served(payload: Payload, at: nat)
  datatype Outcome = Waiting | Resolved | Rejected

  /** A request on the wire, with the generation its continuation captured. */
  datatype Request = Request(
    query: Query, call: CallId, issuedAt: nat, generation: nat, served: Option<Served>, outcome: Outcome)

  datatype Phase = Joining(request: RequestId) | Owning(request: RequestId) | Returned(payload: Payload) | Failed

  /** One call as its caller sees it, retries included: `generation` is that of the current attempt. */
  datatype Call = Call(query: Query, generation: nat, firstGeneration: nat, requests: nat, phase: Phase)

  datatype Invalidation = Invalidation(match_: Match, at: nat)

  /** Where a cache entry came from. */
  datatype Origin = Origin(request: RequestId, storedAt: int)

  datatype World = World(
    client: Client,
    requests: seq<Request>,
    calls: seq<Call>,
    origins: map<Key, Origin>,
    invalidations: seq<Invalidation>,
    history: seq<Server>)

  datatype Event =
    | Begin(query: Query, now: int)
    | Serve(request: RequestId)
    | Resolve(request: RequestId, now: int)
    | Reject(request: RequestId)
    | Continue(call: CallId, now: int)
    | Invalidate(match_: Match)
    | Mutate(mutation: Mutation)
    | ServerChange(key: Key, payload: Payload)

  function Initial(server: Server): World {
    World(Client(map[], map[], map[], 0), [], [], map[], [], [server])
  }

  function Now(w: World): nat
    requires |w.history| > 0
  {
    |w.history| - 1
  }

  /** One attempt of the given call: the code of queryGet before its first suspension. */
  function Attempt(w: World, id: CallId, q: Query, now: int): World
    requires id < |w.calls| && |w.history| > 0
  {
    var started := w.calls[id].(query := q, generation := w.client.generation);
    var client := AfterStart(w.client, q, now, |w.requests|);
    match StartOf(w.client, q, now)
    case Cached(v) => w.(calls := w.calls[id := started.(phase := Returned(v))])
    case Joined(r) => w.(calls := w.calls[id := started.(phase := Joining(r))])
    case Issued(_) =>
      var request := Request(q, id, Now(w), w.client.generation, None, Waiting);
      w.(client := client,
         requests := w.requests + [request],
         calls := w.calls[id := started.(requests := started.requests + 1, phase := Owning(|w.requests|))])
  }

  function Forced(q: Query): Query {
    q.(force := true, join := false)
  }

  function Settle(w: World, id: CallId, phase: Phase): World
    requires id < |w.calls|
  {
    w.(calls := w.calls[id := w.calls[id].(phase := phase)])
  }

  function Finalize(w: World, q: Query, r: RequestId): World {
    w.(client := AfterFinish(w.client, q.scope, q.key, r))
  }

  /** The code of queryGet after the promise it waits for has settled. */
  function Resume(w: World, id: CallId, now: int): World
    requires id < |w.calls| && |w.history| > 0
  {
    var call := w.calls[id];
    match call.phase
    case Joining(r) =>
      if r >= |w.requests| || w.requests[r].outcome == Waiting then w
      else if w.requests[r].outcome == Rejected || w.requests[r].served == None then Settle(w, id, Failed)
      else if call.generation != w.client.generation then Attempt(w, id, Forced(call.query), now)
      else Settle(w, id, Returned(w.requests[r].served.value.payload))
    case Owning(r) =>
      if r >= |w.requests| || w.requests[r].outcome == Waiting then w
      else if w.requests[r].outcome == Rejected || w.requests[r].served == None then
        Finalize(Settle(w, id, Failed), call.query, r)
      else if call.query.ttl > 0 && call.generation != w.client.generation then
        Finalize(Attempt(w, id, Forced(call.query), now), call.query, r)
      else Finalize(Settle(w, id, Returned(w.requests[r].served.value.payload)), call.query, r)
    case _ => w
  }

  function ServeRequest(w: World, r: RequestId): World
    requires |w.history| > 0
  {
    var server := w.history[Now(w)];
    if r < |w.requests| && w.requests[r].outcome == Waiting && w.requests[r].query.key in server then
      w.(requests := w.requests[r := w.requests[r].(served := Some(Served(server[w.requests[r].query.key], Now(w))))])
    else w
  }

  function ResolveRequest(w: World, r: RequestId, now: int): World {
    if r < |w.requests| && w.requests[r].outcome == Waiting && w.requests[r].served.Some? then
      var rq := w.requests[r];
      w.(requests := w.requests[r := rq.(outcome := Resolved)],
         client := AfterPayload(w.client, rq.query, rq.generation, rq.served.value.payload, now),
         origins := if Stores(w.client, rq.query, rq.generation) then w.origins[rq.query.key := Origin(r, now)]
                    else w.origins)
    else w
  }

  function RejectRequest(w: World, r: RequestId): World {
    if r < |w.requests| && w.requests[r].outcome == Waiting then
      w.(requests := w.requests[r := w.requests[r].(outcome := Rejected)])
    else w
  }

  function DropCovered(w: World, m: Match): World
    requires |w.history| > 0
  {
    w.(client := AfterInvalidate(w.client, m), invalidations := w.invalidations + [Invalidation(m, Now(w))])
  }

  function Apply(w: World, e: Event): World
    requires |w.history| > 0
  {
    match e
    case Begin(q, now) =>
      Attempt(w.(calls := w.calls + [Call(q, w.client.generation, w.client.generation, 0, Failed)]), |w.calls|, q, now)
    case Serve(r) => ServeRequest(w, r)
    case Resolve(r, now) => ResolveRequest(w, r, now)
    case Reject(r) => RejectRequest(w, r)
    case Continue(id, now) => if id < |w.calls| then Resume(w, id, now) else w
    case Invalidate(m) => DropCovered(w, m)
    case Mutate(mu) => if InvalidatesCache(mu) then DropCovered(w, NoMatch) else w
    case ServerChange(_, _) => w
  }

  /** The clock ticks, and with it the server changes if that is the event. */
  function Tick(w: World, e: Event): World
    requires |w.history| > 0
  {
    var server := w.history[Now(w)];
    w.(history := w.history + [if e.ServerChange? then server[e.key := e.payload] else server])
  }

  /** One event; an event that is not possible in this state changes nothing but the clock. */
  function Step(w: World, e: Event): (next: World)
    requires |w.history| > 0
    ensures |next.history| == |w.history| + 1
  {
    Apply(Tick(w, e), e)
  }

  function Run(server: Server, events: seq<Event>): (w: World)
    ensures |w.history| == |events| + 1
  {
    if events == [] then Initial(server) else Step(Run(server, events[..|events| - 1]), events[|events| - 1])
  }

  /** The time of the last invalidation that covers the key, or 0 when there was none. */
  function LastCover(invalidations: seq<Invalidation>, key: Key): nat {
    if invalidations == [] then 0
    else
      var last := invalidations[|invalidations| - 1];
      if Covers(last.match_, key) then last.at else LastCover(invalidations[..|invalidations| - 1], key)
  }

  // ---- The invariant ----

  /** The request is for this key and was issued after the last invalidation covering it. */
  predicate Follows(rq: Request, invalidations: seq<Invalidation>, key: Key) {
    rq.query.key == key && rq.issuedAt > LastCover(invalidations, key)
  }

  predicate IsOwned(requests: seq<Request>, calls: seq<Call>, r: RequestId) {
    && r < |requests|
    && requests[r].call < |calls|
    && calls[requests[r].call].phase == Owning(r)
  }

  predicate ServedHonestly(history: seq<Server>, rq: Request) {
    rq.served.Some? ==>
      && rq.issuedAt <= rq.served.value.at < |history|
      && rq.query.key in history[rq.served.value.at]
      && history[rq.served.value.at][rq.query.key] == rq.served.value.payload
  }

  predicate RequestOk(history: seq<Server>, invalidations: seq<Invalidation>, rq: Request) {
    && 0 < rq.issuedAt < |history|
    && rq.generation <= |invalidations|
    && (forall i | 0 <= i < rq.generation :: invalidations[i].at < rq.issuedAt)
    && (rq.outcome == Resolved ==> rq.served.Some?)
    && ServedHonestly(history, rq)
  }

  predicate CallOk(requests: seq<Request>, invalidations: seq<Invalidation>, id: CallId, c: Call) {
    && c.firstGeneration <= c.generation <= |invalidations|
    && c.requests <= 1 + c.generation - c.firstGeneration
    && (c.phase.Owning? ==>
          && c.phase.request < |requests|
          && requests[c.phase.request].call == id
          && requests[c.phase.request].query == c.query
          && requests[c.phase.request].generation == c.generation)
    && (c.phase.Joining? ==>
          && c.query.ttl > 0
          && c.requests == 0
          && c.phase.request < |requests|
          && requests[c.phase.request].query.key == c.query.key
          && (c.generation == |invalidations| ==> Follows(requests[c.phase.request], invalidations, c.query.key)))
  }

  predicate EntryOk(requests: seq<Request>, invalidations: seq<Invalidation>, origins: map<Key, Origin>, key: Key,
                    entry: CacheEntry)
  {
    && key in origins
    && var o := origins[key];
    && o.request < |requests|
    && var rq := requests[o.request];
    && Follows(rq, invalidations, key)
    && rq.outcome == Resolved
    && rq.served.Some?
    && entry == CacheEntry(o.storedAt + rq.query.ttl, rq.served.value.payload)
  }

  predicate RequestsOk(w: World) {
    && w.client.generation == |w.invalidations|
    && (forall i | 0 <= i < |w.invalidations| :: w.invalidations[i].at < |w.history|)
    && (forall r | 0 <= r < |w.requests| :: RequestOk(w.history, w.invalidations, w.requests[r]))
  }

  predicate CallsOk(w: World) {
    forall id | 0 <= id < |w.calls| :: CallOk(w.requests, w.invalidations, id, w.calls[id])
  }

  predicate CacheOk(w: World) {
    forall key | key in w.client.cache ::
      EntryOk(w.requests, w.invalidations, w.origins, key, w.client.cache[key])
  }

  predicate Registered(w: World, r: RequestId, leaving: Option<RequestId>) {
    r < |w.requests| && (IsOwned(w.requests, w.calls, r) || leaving == Some(r))
  }

  predicate PendingOk(w: World, leaving: Option<RequestId>) {
    forall key | key in w.client.pending ::
      && Registered(w, w.client.pending[key], leaving)
      && Follows(w.requests[w.client.pending[key]], w.invalidations, key)
  }

  predicate InflightOk(w: World, leaving: Option<RequestId>) {
    forall scope | scope in w.client.inflight ::
      && Registered(w, w.client.inflight[scope], leaving)
      && w.requests[w.client.inflight[scope]].query.scope == scope
  }

  /** `leaving` is the request of a call that has moved on but has not run its finalizer yet. */
  predicate InvExcept(w: World, leaving: Option<RequestId>) {
    |w.history| > 0 && RequestsOk(w) && CallsOk(w) && CacheOk(w) && PendingOk(w, leaving) && InflightOk(w, leaving)
  }

  predicate Inv(w: World) {
    InvExcept(w, None)
  }

  // ---- Preservation ----

  lemma {:induction false} CoverBound(invalidations: seq<Invalidation>, key: Key, bound: nat)
    requires forall i | 0 <= i < |invalidations| :: invalidations[i].at < bound
    requires 0 < bound
    ensures LastCover(invalidations, key) < bound
  {
    if invalidations != [] {
      CoverBound(invalidations[..|invalidations| - 1], key, bound);
    }
  }

  lemma InitialInv(server: Server)
    ensures Inv(Initial(server))
  {}

  lemma TickKeeps(w: World, e: Event)
    requires Inv(w)
    ensures Inv(Tick(w, e))
    ensures forall i | 0 <= i < |w.invalidations| :: w.invalidations[i].at < Now(Tick(w, e))
  {}

  /** No invalidation has happened in the present instant. */
  predicate Quiet(w: World)
    requires |w.history| > 0
  {
    0 < Now(w) && forall i | 0 <= i < |w.invalidations| :: w.invalidations[i].at < Now(w)
  }

  /** The call may start another attempt: its request budget is not used up. */
  predicate Attemptable(w: World, c: Call, q: Query) {
    && c.firstGeneration <= w.client.generation
    && c.requests <= w.client.generation - c.firstGeneration
    && (Reuses(q) ==> c.requests == 0)
  }

  function Held(c: Call): Option<RequestId> {
    if c.phase.Owning? then Some(c.phase.request) else None
  }

  /** A call may leave its request behind as long as that request counts as leaving. */
  lemma MoveKeeps(w: World, id: CallId, c: Call)
    requires Inv(w) && id < |w.calls| && !c.phase.Owning?
    requires CallOk(w.requests, w.invalidations, id, c)
    ensures InvExcept(w.(calls := w.calls[id := c]), Held(w.calls[id]))
  {}

  lemma IssueKeeps(w: World, id: CallId, q: Query, now: int)
    requires Inv(w) && Quiet(w) && id < |w.calls| && Attemptable(w, w.calls[id], q)
    requires StartOf(w.client, q, now).Issued?
    ensures InvExcept(Attempt(w, id, q, now), Held(w.calls[id]))
  {
    var next := Attempt(w, id, q, now);
    CoverBound(w.invalidations, q.key, Now(w));
    assert RequestsOk(next);
    assert CallsOk(next) by {
      forall i | 0 <= i < |next.calls|
        ensures CallOk(next.requests, next.invalidations, i, next.calls[i])
      {
        assert i != id ==> CallOk(w.requests, w.invalidations, i, w.calls[i]);
      }
    }
    assert CacheOk(next) by {
      forall key | key in next.client.cache
        ensures EntryOk(next.requests, next.invalidations, next.origins, key, next.client.cache[key])
      {
        assert EntryOk(w.requests, w.invalidations, w.origins, key, w.client.cache[key]);
      }
    }
    assert IsOwned(next.requests, next.calls, |w.requests|);
    forall r | 0 <= r < |w.requests| && Registered(w, r, None)
      ensures Registered(next, r, Held(w.calls[id]))
    {}
  }

  lemma AttemptKeeps(w: World, id: CallId, q: Query, now: int)
    requires Inv(w) && Quiet(w) && id < |w.calls| && Attemptable(w, w.calls[id], q)
    ensures InvExcept(Attempt(w, id, q, now), Held(w.calls[id]))
  {
    var started := w.calls[id].(query := q, generation := w.client.generation);
    match StartOf(w.client, q, now)
    case Cached(v) => MoveKeeps(w, id, started.(phase := Returned(v)));
    case Joined(r) => MoveKeeps(w, id, started.(phase := Joining(r)));
    case Issued(_) => IssueKeeps(w, id, q, now);
  }

  lemma FinalizeKeeps(w: World, q: Query, r: RequestId)
    requires InvExcept(w, Some(r)) && r < |w.requests|
    requires w.requests[r].query.key == q.key && w.requests[r].query.scope == q.scope
    ensures Inv(Finalize(w, q, r))
  {}

  lemma SettleKeeps(w: World, id: CallId, phase: Phase)
    requires Inv(w) && id < |w.calls| && (phase.Returned? || phase.Failed?)
    ensures InvExcept(Settle(w, id, phase), Held(w.calls[id]))
  {
    assert CallOk(w.requests, w.invalidations, id, w.calls[id]);
    MoveKeeps(w, id, w.calls[id].(phase := phase));
  }

  lemma ResumeJoinedKeeps(w: World, id: CallId, now: int)
    requires Inv(w) && Quiet(w) && id < |w.calls| && w.calls[id].phase.Joining?
    ensures Inv(Resume(w, id, now))
  {
    var call := w.calls[id];
    assert CallOk(w.requests, w.invalidations, id, call);
    var rq := w.requests[call.phase.request];
    if rq.outcome != Waiting {
      if rq.outcome == Rejected || rq.served == None {
        SettleKeeps(w, id, Failed);
      } else if call.generation != w.client.generation {
        AttemptKeeps(w, id, Forced(call.query), now);
      } else {
        SettleKeeps(w, id, Returned(rq.served.value.payload));
      }
    }
  }

  lemma ResumeOwnerKeeps(w: World, id: CallId, now: int)
    requires Inv(w) && Quiet(w) && id < |w.calls| && w.calls[id].phase.Owning?
    ensures Inv(Resume(w, id, now))
  {
    var call := w.calls[id];
    assert CallOk(w.requests, w.invalidations, id, call);
    var r := call.phase.request;
    var rq := w.requests[r];
    if rq.outcome != Waiting {
      if rq.outcome == Rejected || rq.served == None {
        SettleKeeps(w, id, Failed);
        FinalizeKeeps(Settle(w, id, Failed), call.query, r);
      } else if call.query.ttl > 0 && call.generation != w.client.generation {
        AttemptKeeps(w, id, Forced(call.query), now);
        FinalizeKeeps(Attempt(w, id, Forced(call.query), now), call.query, r);
      } else {
        SettleKeeps(w, id, Returned(rq.served.value.payload));
        FinalizeKeeps(Settle(w, id, Returned(rq.served.value.payload)), call.query, r);
      }
    }
  }

  lemma ResumeKeeps(w: World, id: CallId, now: int)
    requires Inv(w) && Quiet(w) && id < |w.calls|
    ensures Inv(Resume(w, id, now))
  {
    match w.calls[id].phase
    case Joining(_) => ResumeJoinedKeeps(w, id, now);
    case Owning(_) => ResumeOwnerKeeps(w, id, now);
    case _ =>
  }

  lemma BeginKeeps(w: World, q: Query, now: int)
    requires Inv(w) && Quiet(w)
    ensures Inv(Apply(w, Begin(q, now)))
  {
    var first := Call(q, w.client.generation, w.client.generation, 0, Failed);
    var admitted := w.(calls := w.calls + [first]);
    assert Inv(admitted);
    AttemptKeeps(admitted, |w.calls|, q, now);
  }

  predicate SameRequest(a: Request, b: Request) {
    a.query == b.query && a.call == b.call && a.issuedAt == b.issuedAt && a.generation == b.generation
  }

  lemma UpdateKeepsCalls(w: World, r: RequestId, rq: Request)
    requires Inv(w) && r < |w.requests| && SameRequest(w.requests[r], rq)
    ensures CallsOk(w.(requests := w.requests[r := rq]))
  {
    var requests := w.requests[r := rq];
    forall id | 0 <= id < |w.calls| ensures CallOk(requests, w.invalidations, id, w.calls[id]) {
      assert CallOk(w.requests, w.invalidations, id, w.calls[id]);
    }
  }

  /** The cache holds nothing from a request that is still waiting. */
  lemma UpdateKeepsCache(w: World, r: RequestId, rq: Request)
    requires Inv(w) && r < |w.requests| && w.requests[r].outcome == Waiting
    ensures CacheOk(w.(requests := w.requests[r := rq]))
  {
    var requests := w.requests[r := rq];
    forall key | key in w.client.cache
      ensures EntryOk(requests, w.invalidations, w.origins, key, w.client.cache[key])
    {
      assert EntryOk(w.requests, w.invalidations, w.origins, key, w.client.cache[key]);
    }
  }

  lemma UpdateKeepsMaps(w: World, r: RequestId, rq: Request)
    requires Inv(w) && r < |w.requests| && SameRequest(w.requests[r], rq)
    ensures PendingOk(w.(requests := w.requests[r := rq]), None)
    ensures InflightOk(w.(requests := w.requests[r := rq]), None)
  {
    var next := w.(requests := w.requests[r := rq]);
    forall key | key in w.client.pending
      ensures Registered(next, w.client.pending[key], None)
      ensures Follows(next.requests[w.client.pending[key]], w.invalidations, key)
    {
      assert Registered(w, w.client.pending[key], None);
    }
    forall scope | scope in w.client.inflight
      ensures Registered(next, w.client.inflight[scope], None)
      ensures next.requests[w.client.inflight[scope]].query.scope == scope
    {
      assert Registered(w, w.client.inflight[scope], None);
    }
  }

  /** A waiting request may be served or settled. */
  lemma UpdateKeeps(w: World, r: RequestId, rq: Request)
    requires Inv(w) && r < |w.requests| && w.requests[r].outcome == Waiting
    requires SameRequest(w.requests[r], rq) && RequestOk(w.history, w.invalidations, rq)
    ensures Inv(w.(requests := w.requests[r := rq]))
  {
    UpdateKeepsCalls(w, r, rq);
    UpdateKeepsCache(w, r, rq);
    UpdateKeepsMaps(w, r, rq);
  }

  lemma ServeKeeps(w: World, r: RequestId)
    requires Inv(w) && Quiet(w)
    ensures Inv(ServeRequest(w, r))
  {
    if ServeRequest(w, r) != w {
      assert RequestOk(w.history, w.invalidations, w.requests[r]);
      UpdateKeeps(w, r, ServeRequest(w, r).requests[r]);
    }
  }

  /** A resolved request of the current generation may fill the cache. */
  lemma StoreKeeps(w: World, r: RequestId, now: int)
    requires Inv(w) && r < |w.requests| && w.requests[r].outcome == Resolved && w.requests[r].served.Some?
    requires Stores(w.client, w.requests[r].query, w.requests[r].generation)
    ensures var rq := w.requests[r];
            Inv(w.(client := AfterPayload(w.client, rq.query, rq.generation, rq.served.value.payload, now),
                   origins := w.origins[rq.query.key := Origin(r, now)]))
  {
    var rq := w.requests[r];
    var next := w.(client := AfterPayload(w.client, rq.query, rq.generation, rq.served.value.payload, now),
                   origins := w.origins[rq.query.key := Origin(r, now)]);
    assert RequestOk(w.history, w.invalidations, rq);
    CoverBound(w.invalidations, rq.query.key, rq.issuedAt);
    assert CallsOk(next);
    forall key | key in next.client.cache
      ensures EntryOk(next.requests, next.invalidations, next.origins, key, next.client.cache[key])
    {
      if key != rq.query.key {
        assert EntryOk(w.requests, w.invalidations, w.origins, key, w.client.cache[key]);
      }
    }
    MapsUntouched(w, next);
  }

  lemma MapsUntouched(w: World, next: World)
    requires PendingOk(w, None) && InflightOk(w, None)
    requires next.client.pending == w.client.pending && next.client.inflight == w.client.inflight
    requires next.requests == w.requests && next.calls == w.calls && next.invalidations == w.invalidations
    ensures PendingOk(next, None) && InflightOk(next, None)
  {
    forall key | key in w.client.pending ensures Registered(next, w.client.pending[key], None) {
      assert Registered(w, w.client.pending[key], None);
    }
    forall scope | scope in w.client.inflight ensures Registered(next, w.client.inflight[scope], None) {
      assert Registered(w, w.client.inflight[scope], None);
    }
  }

  lemma ResolveKeeps(w: World, r: RequestId, now: int)
    requires Inv(w) && Quiet(w)
    ensures Inv(ResolveRequest(w, r, now))
  {
    if r < |w.requests| && w.requests[r].outcome == Waiting && w.requests[r].served.Some? {
      assert RequestOk(w.history, w.invalidations, w.requests[r]);
      var rq := w.requests[r].(outcome := Resolved);
      UpdateKeeps(w, r, rq);
      if Stores(w.client, rq.query, rq.generation) {
        StoreKeeps(w.(requests := w.requests[r := rq]), r, now);
      }
    }
  }

  lemma RejectKeeps(w: World, r: RequestId)
    requires Inv(w)
    ensures Inv(RejectRequest(w, r))
  {
    if RejectRequest(w, r) != w {
      assert RequestOk(w.history, w.invalidations, w.requests[r]);
      UpdateKeeps(w, r, w.requests[r].(outcome := Rejected));
    }
  }

  lemma DropKeeps(w: World, m: Match)
    requires Inv(w) && Quiet(w)
    ensures Inv(DropCovered(w, m))
  {
    var next := DropCovered(w, m);
    assert next.invalidations[..|w.invalidations|] == w.invalidations;
  }

  lemma StepKeeps(w: World, e: Event)
    requires Inv(w)
    ensures Inv(Step(w, e))
  {
    TickKeeps(w, e);
    var ticked := Tick(w, e);
    match e
    case Begin(q, now) => BeginKeeps(ticked, q, now);
    case Serve(r) => ServeKeeps(ticked, r);
    case Resolve(r, now) => ResolveKeeps(ticked, r, now);
    case Reject(r) => RejectKeeps(ticked, r);
    case Continue(id, now) => if id < |ticked.calls| { ResumeKeeps(ticked, id, now); }
    case Invalidate(m) => DropKeeps(ticked, m);
    case Mutate(mu) => if InvalidatesCache(mu) { DropKeeps(ticked, NoMatch); }
    case ServerChange(_, _) =>
  }

  lemma {:induction false} RunInv(server: Server, events: seq<Event>)
    ensures Inv(Run(server, events))
  {
    if events == [] {
      InitialInv(server);
    } else {
      RunInv(server, events[..|events| - 1]);
      StepKeeps(Run(server, events[..|events| - 1]), events[|events| - 1]);
    }
  }

  // ---- What holds in every run ----

  /** Whatever is cached or can be joined comes from a request issued after the last invalidation covering its key. */
  lemma EntriesFollowInvalidations(server: Server, events: seq<Event>, key: Key)
    ensures
      var w := Run(server, events);
      && (key in w.client.cache ==>
            && key in w.origins
            && w.origins[key].request < |w.requests|
            && Follows(w.requests[w.origins[key].request], w.invalidations, key))
      && (key in w.client.pending ==>
            && w.client.pending[key] < |w.requests|
            && Follows(w.requests[w.client.pending[key]], w.invalidations, key))
  {
    RunInv(server, events);
    var w := Run(server, events);
    if key in w.client.cache {
      assert EntryOk(w.requests, w.invalidations, w.origins, key, w.client.cache[key]);
    }
  }

  /** The server held this payload under this key at some moment after the last covering invalidation. */
  ghost predicate HeldSince(w: World, key: Key, payload: Payload) {
    exists i | LastCover(w.invalidations, key) < i < |w.history| ::
      key in w.history[i] && w.history[i][key] == payload
  }

  lemma ServedHeld(w: World, r: RequestId, key: Key)
    requires Inv(w) && r < |w.requests| && w.requests[r].served.Some?
    requires Follows(w.requests[r], w.invalidations, key)
    ensures HeldSince(w, key, w.requests[r].served.value.payload)
  {
    assert RequestOk(w.history, w.invalidations, w.requests[r]);
    var i := w.requests[r].served.value.at;
    assert key in w.history[i];
  }

  /** Does the call hand this payload to its caller in this event? */
  predicate Returns(w: World, e: Event, id: CallId, payload: Payload)
    requires |w.history| > 0
  {
    var next := Step(w, e);
    && id < |next.calls|
    && next.calls[id].phase == Returned(payload)
    && (id < |w.calls| ==> !w.calls[id].phase.Returned?)
  }

  lemma AttemptFresh(w: World, id: CallId, q: Query, now: int)
    requires Inv(w) && id < |w.calls|
    ensures var phase := Attempt(w, id, q, now).calls[id].phase;
            phase.Returned? ==> HeldSince(w, q.key, phase.payload)
  {
    if StartOf(w.client, q, now).Cached? {
      assert EntryOk(w.requests, w.invalidations, w.origins, q.key, w.client.cache[q.key]);
      ServedHeld(w, w.origins[q.key].request, q.key);
    }
  }

  lemma ResumeFresh(w: World, id: CallId, now: int)
    requires Inv(w) && id < |w.calls| && !w.calls[id].phase.Returned?
    requires w.calls[id].query.ttl > 0
    ensures var call := Resume(w, id, now).calls[id];
            call.phase.Returned? ==> HeldSince(w, w.calls[id].query.key, call.phase.payload)
  {
    var call := w.calls[id];
    assert CallOk(w.requests, w.invalidations, id, call);
    if call.phase.Joining? || call.phase.Owning? {
      var rq := w.requests[call.phase.request];
      assert RequestOk(w.history, w.invalidations, rq);
      if rq.outcome == Resolved {
        if call.generation == w.client.generation {
          if call.phase.Owning? {
            CoverBound(w.invalidations, rq.query.key, rq.issuedAt);
          }
          ServedHeld(w, call.phase.request, call.query.key);
        } else {
          AttemptFresh(w, id, Forced(call.query), now);
        }
      }
    }
  }

  lemma CallsKeepKey(w: World, e: Event, id: CallId)
    requires |w.history| > 0 && id < |w.calls|
    ensures id < |Step(w, e).calls|
    ensures var was, is_ := w.calls[id].query, Step(w, e).calls[id].query;
            was.key == is_.key && was.ttl == is_.ttl
  {}

  /** What has come in with the tick is all that the attempt of a new call stands on. */
  lemma BegunInv(w: World, q: Query, now: int)
    requires Inv(w)
    ensures var ticked := Tick(w, Begin(q, now));
            var first := Call(q, w.client.generation, w.client.generation, 0, Failed);
            Inv(ticked.(calls := ticked.calls + [first]))
  {
    TickKeeps(w, Begin(q, now));
  }

  lemma BeginFresh(w: World, q: Query, now: int, id: CallId, payload: Payload)
    requires Inv(w) && Returns(w, Begin(q, now), id, payload)
    ensures HeldSince(Step(w, Begin(q, now)), Step(w, Begin(q, now)).calls[id].query.key, payload)
  {
    var ticked := Tick(w, Begin(q, now));
    var first := Call(q, w.client.generation, w.client.generation, 0, Failed);
    var begun := ticked.(calls := ticked.calls + [first]);
    BegunInv(w, q, now);
    AttemptFresh(begun, |ticked.calls|, q, now);
  }

  lemma ContinueFresh(w: World, now: int, id: CallId, payload: Payload)
    requires Inv(w) && id < |w.calls| && Returns(w, Continue(id, now), id, payload)
    requires Step(w, Continue(id, now)).calls[id].query.ttl > 0
    ensures HeldSince(Step(w, Continue(id, now)), Step(w, Continue(id, now)).calls[id].query.key, payload)
  {
    TickKeeps(w, Continue(id, now));
    CallsKeepKey(w, Continue(id, now), id);
    ResumeFresh(Tick(w, Continue(id, now)), id, now);
  }

  /** Only starting or resuming a call makes it return. */
  lemma OnlyItsOwnStep(w: World, e: Event, id: CallId)
    requires |w.history| > 0 && id < |w.calls| && e != Continue(id, if e.Continue? then e.now else 0)
    ensures id < |Step(w, e).calls| && Step(w, e).calls[id] == w.calls[id]
  {}

  lemma StepFresh(w: World, e: Event, id: CallId, payload: Payload)
    requires Inv(w) && Returns(w, e, id, payload)
    requires Step(w, e).calls[id].query.ttl > 0
    ensures HeldSince(Step(w, e), Step(w, e).calls[id].query.key, payload)
  {
    if e.Begin? {
      BeginFresh(w, e.query, e.now, id, payload);
    } else if e.Continue? && e.call == id && id < |w.calls| {
      ContinueFresh(w, e.now, id, payload);
    } else if id < |w.calls| {
      OnlyItsOwnStep(w, e, id);
    }
  }

  /**
   In every interleaving, what a positive-TTL call hands back is something the
   server held under its key after the last invalidation covering that key.
   */
  lemma NeverStale(server: Server, events: seq<Event>, e: Event, id: CallId, payload: Payload)
    requires Returns(Run(server, events), e, id, payload)
    requires Step(Run(server, events), e).calls[id].query.ttl > 0
    ensures var next := Step(Run(server, events), e);
            HeldSince(next, next.calls[id].query.key, payload)
  {
    RunInv(server, events);
    StepFresh(Run(server, events), e, id, payload);
  }

  predicate SameFor(a: Server, b: Server, key: Key) {
    (key in a <==> key in b) && (key in a ==> a[key] == b[key])
  }

  /** Nobody changed the key on the server after the last invalidation covering it. */
  predicate Announced(w: World, key: Key)
    requires |w.history| > 0
  {
    forall i | LastCover(w.invalidations, key) < i < |w.history| :: SameFor(w.history[i], w.history[Now(w)], key)
  }

  /** If every change is followed by a covering invalidation, the cache is invisible. */
  lemma AgreesWithServer(server: Server, events: seq<Event>, e: Event, id: CallId, payload: Payload)
    requires Returns(Run(server, events), e, id, payload)
    requires Step(Run(server, events), e).calls[id].query.ttl > 0
    requires Announced(Step(Run(server, events), e), Step(Run(server, events), e).calls[id].query.key)
    ensures var next := Step(Run(server, events), e);
            var key := next.calls[id].query.key;
            key in next.history[Now(next)] && next.history[Now(next)][key] == payload
  {
    NeverStale(server, events, e, id, payload);
  }

  /** A request answered from the cache carries a payload younger than the TTL it was stored with. */
  lemma CacheHonoursTtl(server: Server, events: seq<Event>, q: Query, now: int)
    requires StartOf(Run(server, events).client, q, now).Cached?
    ensures var w := Run(server, events);
            && q.key in w.origins
            && w.origins[q.key].request < |w.requests|
            && now < w.origins[q.key].storedAt + w.requests[w.origins[q.key].request].query.ttl
  {
    RunInv(server, events);
    var w := Run(server, events);
    assert EntryOk(w.requests, w.invalidations, w.origins, q.key, w.client.cache[q.key]);
  }

  /**
   One call issues at most one request more than there were invalidations since it began,
   the ones after it finished not counted: `generation` is that of its last attempt.
   */
  lemma RequestBound(server: Server, events: seq<Event>, id: CallId)
    requires id < |Run(server, events).calls|
    ensures var w := Run(server, events);
            w.calls[id].requests <= 1 + w.calls[id].generation - w.calls[id].firstGeneration
    ensures Run(server, events).calls[id].generation <= |Run(server, events).invalidations|
  {
    RunInv(server, events);
    var w := Run(server, events);
    assert CallOk(w.requests, w.invalidations, id, w.calls[id]);
  }

  predicate Active(c: Call) {
    c.phase.Joining? || c.phase.Owning?
  }

  lemma ForcedIsIssued(c: Client, q: Query, now: int)
    ensures StartOf(c, Forced(q), now).Issued?
  {}

  lemma EndsOrRetries(w: World, id: CallId, now: int)
    requires Inv(w) && id < |w.calls| && Active(w.calls[id])
    requires w.calls[id].phase.request < |w.requests| && w.requests[w.calls[id].phase.request].outcome != Waiting
    ensures
      var was, is_ := w.calls[id], Resume(w, id, now).calls[id];
      if w.requests[was.phase.request].outcome == Resolved && was.query.ttl > 0 && was.generation != |w.invalidations|
      then is_.phase == Owning(|w.requests|) && is_.generation == |w.invalidations| && is_.requests == was.requests + 1
      else !Active(is_) && is_.requests == was.requests
  {
    var was := w.calls[id];
    assert CallOk(w.requests, w.invalidations, id, was);
    assert RequestOk(w.history, w.invalidations, w.requests[was.phase.request]);
    ForcedIsIssued(w.client, was.query, now);
  }

  /**
   Once its promise has settled, a call ends at its next continuation unless an invalidation
   came after its attempt began; in that case it owns a new request of the current generation.
   */
  lemma EndsWhenInvalidationsStop(server: Server, events: seq<Event>, id: CallId, now: int)
    requires id < |Run(server, events).calls| && Active(Run(server, events).calls[id])
    ensures Run(server, events).calls[id].phase.request < |Run(server, events).requests|
    ensures
      var w := Run(server, events);
      var was, is_ := w.calls[id], Step(w, Continue(id, now)).calls[id];
      w.requests[was.phase.request].outcome != Waiting ==>
        if w.requests[was.phase.request].outcome == Resolved && was.query.ttl > 0 && was.generation != |w.invalidations|
        then is_.phase == Owning(|w.requests|) && is_.generation == |w.invalidations|
             && is_.requests == was.requests + 1
        else !Active(is_) && is_.requests == was.requests
  {
    RunInv(server, events);
    var w := Run(server, events);
    assert CallOk(w.requests, w.invalidations, id, w.calls[id]);
    TickKeeps(w, Continue(id, now));
    if w.requests[w.calls[id].phase.request].outcome != Waiting {
      EndsOrRetries(Tick(w, Continue(id, now)), id, now);
    }
  }

  /** When no call is active, nothing is left registered. */
  lemma NothingLeaks(server: Server, events: seq<Event>)
    requires forall id | 0 <= id < |Run(server, events).calls| :: !Active(Run(server, events).calls[id])
    ensures Run(server, events).client.pending == map[]
    ensures Run(server, events).client.inflight == map[]
  {
    RunInv(server, events);
  }

  function Minus<X>(m: map<X, RequestId>, own: Option<RequestId>): map<X, RequestId> {
    map x | x in m && own != Some(m[x]) :: m[x]
  }

  lemma WithoutIsMinus<X>(m: map<X, RequestId>, x: X, r: RequestId)
    requires forall k | k in m :: m[k] == r ==> k == x
    ensures Without(m, x, r) == Minus(m, Some(r))
  {}

  lemma FinishIsExact(w: World, q: Query, r: RequestId)
    requires Inv(w) && r < |w.requests| && w.requests[r].query == q
    ensures AfterFinish(w.client, q.scope, q.key, r).pending == Minus(w.client.pending, Some(r))
    ensures AfterFinish(w.client, q.scope, q.key, r).inflight == Minus(w.client.inflight, Some(r))
  {
    WithoutIsMinus(w.client.pending, q.key, r);
    WithoutIsMinus(w.client.inflight, q.scope, r);
  }

  lemma EndedClient(w: World, id: CallId, now: int)
    requires Inv(w) && id < |w.calls|
    requires !Active(Resume(w, id, now).calls[id])
    ensures var call := w.calls[id];
            Resume(w, id, now).client ==
            if call.phase.Owning? then AfterFinish(w.client, call.query.scope, call.query.key, call.phase.request)
            else w.client
  {
    assert CallOk(w.requests, w.invalidations, id, w.calls[id]);
  }

  lemma NothingHeld<X>(m: map<X, RequestId>)
    ensures Minus(m, None) == m
  {}

  lemma EndedRemovesOwn(w: World, id: CallId, now: int)
    requires Inv(w) && id < |w.calls| && !Active(Resume(w, id, now).calls[id])
    ensures var c := Resume(w, id, now).client;
            && c.pending == Minus(w.client.pending, Held(w.calls[id]))
            && c.inflight == Minus(w.client.inflight, Held(w.calls[id]))
  {
    var call := w.calls[id];
    assert CallOk(w.requests, w.invalidations, id, call);
    EndedClient(w, id, now);
    if call.phase.Owning? {
      FinishIsExact(w, call.query, call.phase.request);
    } else {
      NothingHeld(w.client.pending);
      NothingHeld(w.client.inflight);
    }
  }

  lemma ContinuedRemovesOwn(w: World, id: CallId, now: int, next: World)
    requires Inv(w) && id < |w.calls| && next == Step(w, Continue(id, now)) && !Active(next.calls[id])
    ensures next.client.pending == Minus(w.client.pending, Held(w.calls[id]))
    ensures next.client.inflight == Minus(w.client.inflight, Held(w.calls[id]))
  {
    var ticked := Tick(w, Continue(id, now));
    TickKeeps(w, Continue(id, now));
    assert next == Resume(ticked, id, now);
    EndedRemovesOwn(ticked, id, now);
  }

  /** A call that ends takes out exactly what its own last request registered. */
  lemma FinalizersRemoveOwn(server: Server, events: seq<Event>, id: CallId, now: int)
    requires id < |Run(server, events).calls| && !Active(Step(Run(server, events), Continue(id, now)).calls[id])
    ensures
      var w := Run(server, events);
      var c := Step(w, Continue(id, now)).client;
      && c.pending == Minus(w.client.pending, Held(w.calls[id]))
      && c.inflight == Minus(w.client.inflight, Held(w.calls[id]))
  {
    RunInv(server, events);
    var w := Run(server, events);
    var next := Step(w, Continue(id, now));
    ContinuedRemovesOwn(w, id, now, next);
  }

  /** Single flight: a plain call that finds a joinable request waits for it and issues none. */
  lemma JoinsPending(server: Server, events: seq<Event>, q: Query, now: int)
    requires q.ttl > 0 && !q.force && q.join && q.key in Run(server, events).client.pending
    requires var cache := Run(server, events).client.cache; q.key in cache ==> cache[q.key].expiresAt <= now
    ensures
      var w := Run(server, events);
      var next := Step(w, Begin(q, now));
      var r := w.client.pending[q.key];
      && next.requests == w.requests
      && next.calls[|w.calls|].phase == Joining(r)
      && r < |w.requests|
      && (exists id | 0 <= id < |w.calls| :: w.calls[id].phase == Owning(r))
      && Follows(w.requests[r], w.invalidations, q.key)
  {
    RunInv(server, events);
    var w := Run(server, events);
    assert Registered(w, w.client.pending[q.key], None);
    assert w.calls[w.requests[w.client.pending[q.key]].call].phase == Owning(w.client.pending[q.key]);
  }

  /**
   Single flight, seen from the first call: a plain call for the same key shares its request or finds a fresh
   entry.
   */
  lemma SecondCallSharesRequest(server: Server, events: seq<Event>, q: Query, again: Query, now: int, later: int)
    requires q.ttl > 0 && !q.force && again.ttl > 0 && !again.force && again.join && again.key == q.key
    requires StartOf(Run(server, events).client, q, now).Issued?
    ensures
      var w := Run(server, events);
      var first := Step(w, Begin(q, now));
      var second := Step(first, Begin(again, later));
      && |first.requests| == |w.requests| + 1
      && second.requests == first.requests
      && |second.calls| == |w.calls| + 2
      && var phase := second.calls[|w.calls| + 1].phase;
         phase == Joining(|w.requests|) || phase.Returned?
  {}

  /**
   A payload that arrives in the generation it was asked for answers every plain call within its TTL, at no
   request.
   */
  lemma FilledCacheAnswers(server: Server, events: seq<Event>, r: RequestId, now: int, q: Query, later: int)
    requires r < |Run(server, events).requests|
    requires var rq := Run(server, events).requests[r];
             && rq.outcome == Waiting && rq.served.Some? && rq.query.ttl > 0
             && rq.generation == |Run(server, events).invalidations|
             && q.key == rq.query.key && q.ttl > 0 && !q.force && later < now + rq.query.ttl
    ensures
      var w := Run(server, events);
      var filled := Step(w, Resolve(r, now));
      var next := Step(filled, Begin(q, later));
      && next.requests == filled.requests
      && |next.calls| == |w.calls| + 1
      && next.calls[|w.calls|].phase == Returned(w.requests[r].served.value.payload)
  {
    RunInv(server, events);
  }
}
