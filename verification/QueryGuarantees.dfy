/**
 What the options of a call and the argument of an invalidation mean, in every run of `QueryRuns`, said without
 the functions that decide it.
 */
module QueryGuarantees {
  import opened Wrappers
  import opened QueryClient
  import opened QueryRuns
  import opened Text

  // ---- Requests are counted honestly ----

  /** How many requests the call has issued. */
  function Own(requests: seq<Request>, id: CallId): nat {
    if requests == [] then 0
    else
      Own(requests[..|requests| - 1], id) + if requests[|requests| - 1].call == id then 1 else 0
  }

  lemma OwnSnoc(requests: seq<Request>, rq: Request, id: CallId)
    ensures Own(requests + [rq], id) == Own(requests, id) + if rq.call == id then 1 else 0
  {
    assert (requests + [rq])[..|requests|] == requests;
  }

  lemma {:induction false} OwnUpdate(requests: seq<Request>, r: RequestId, rq: Request, id: CallId)
    requires r < |requests| && rq.call == requests[r].call
    ensures Own(requests[r := rq], id) == Own(requests, id)
  {
    var n := |requests| - 1;
    var updated := requests[r := rq];
    if r < n {
      OwnUpdate(requests[..n], r, rq, id);
      assert updated[..n] == requests[..n][r := rq] && updated[n] == requests[n];
    } else {
      assert updated[..n] == requests[..n];
    }
  }

  predicate Counts(w: World) {
    && (forall id | 0 <= id < |w.calls| :: w.calls[id].requests == Own(w.requests, id))
    && (forall r | 0 <= r < |w.requests| :: w.requests[r].call < |w.calls|)
  }

  lemma {:induction false} OwnNone(requests: seq<Request>, id: CallId)
    requires forall r | 0 <= r < |requests| :: requests[r].call != id
    ensures Own(requests, id) == 0
  {
    if requests != [] {
      OwnNone(requests[..|requests| - 1], id);
    }
  }

  lemma AttemptCounts(w: World, id: CallId, q: Query, now: int)
    requires Counts(w) && id < |w.calls| && |w.history| > 0
    ensures Counts(Attempt(w, id, q, now))
  {
    var next := Attempt(w, id, q, now);
    if StartOf(w.client, q, now).Issued? {
      forall i | 0 <= i < |next.calls| ensures next.calls[i].requests == Own(next.requests, i) {
        OwnSnoc(w.requests, next.requests[|w.requests|], i);
      }
    }
  }

  lemma UpdateCounts(w: World, r: RequestId, rq: Request)
    requires Counts(w) && r < |w.requests| && rq.call == w.requests[r].call
    ensures Counts(w.(requests := w.requests[r := rq]))
  {
    forall id | 0 <= id < |w.calls| ensures w.calls[id].requests == Own(w.requests[r := rq], id) {
      OwnUpdate(w.requests, r, rq, id);
    }
  }

  lemma BeginCounts(w: World, q: Query, now: int)
    requires Counts(w) && |w.history| > 0
    ensures Counts(Apply(w, Begin(q, now)))
  {
    var admitted := w.(calls := w.calls + [Call(q, w.client.generation, w.client.generation, 0, Failed)]);
    OwnNone(w.requests, |w.calls|);
    AttemptCounts(admitted, |w.calls|, q, now);
  }

  lemma ResumeCounts(w: World, id: CallId, now: int)
    requires Counts(w) && id < |w.calls| && |w.history| > 0
    ensures Counts(Resume(w, id, now))
  {
    AttemptCounts(w, id, Forced(w.calls[id].query), now);
  }

  lemma StepCounts(w: World, e: Event)
    requires Counts(w) && |w.history| > 0
    ensures Counts(Step(w, e))
  {
    var ticked := Tick(w, e);
    match e
    case Begin(q, now) => BeginCounts(ticked, q, now);
    case Serve(r) =>
      if ServeRequest(ticked, r) != ticked { UpdateCounts(ticked, r, ServeRequest(ticked, r).requests[r]); }
    case Resolve(r, now) =>
      if ResolveRequest(ticked, r, now) != ticked {
        UpdateCounts(ticked, r, ticked.requests[r].(outcome := Resolved));
      }
    case Reject(r) =>
      if RejectRequest(ticked, r) != ticked { UpdateCounts(ticked, r, ticked.requests[r].(outcome := Rejected)); }
    case Continue(id, now) => if id < |ticked.calls| { ResumeCounts(ticked, id, now); }
    case _ =>
  }

  /** In every run the number of requests that `RequestBound` speaks of is that of the requests on the wire. */
  lemma {:induction false} RequestsAreCounted(server: Server, events: seq<Event>)
    ensures Counts(Run(server, events))
  {
    if events != [] {
      RequestsAreCounted(server, events[..|events| - 1]);
      StepCounts(Run(server, events[..|events| - 1]), events[|events| - 1]);
    }
  }

  // ---- Calls that must ask the server ----

  /** The server held this payload under this key at this moment or a later one. */
  ghost predicate HeldFrom(w: World, key: Key, payload: Payload, since: nat) {
    exists i | since <= i < |w.history| :: key in w.history[i] && w.history[i][key] == payload
  }

  /** The call has asked the server since then, waits for nobody else, and hands back nothing older. */
  ghost predicate Asked(w: World, id: CallId, key: Key, since: nat) {
    && id < |w.calls|
    && var c := w.calls[id];
    && c.query.key == key && (c.query.force || c.query.ttl <= 0)
    && c.requests >= 1
    && !c.phase.Joining?
    && (c.phase.Owning? ==> AskedBy(w, c.phase.request, key, since))
    && (c.phase.Returned? ==> HeldFrom(w, key, c.phase.payload, since))
  }

  predicate AskedBy(w: World, r: RequestId, key: Key, since: nat) {
    r < |w.requests| && w.requests[r].query.key == key && w.requests[r].issuedAt >= since
  }

  lemma AskedLater(w: World, next: World, id: CallId, key: Key, since: nat)
    requires Asked(w, id, key, since) && w.history <= next.history
    requires |w.requests| <= |next.requests| && id < |next.calls| && next.calls[id] == w.calls[id]
    requires forall r | 0 <= r < |w.requests| :: SameRequest(w.requests[r], next.requests[r])
    ensures Asked(next, id, key, since)
  {
    var c := w.calls[id];
    if c.phase.Returned? {
      var i :| since <= i < |w.history| && key in w.history[i] && w.history[i][key] == c.phase.payload;
      assert next.history[i] == w.history[i];
    }
  }

  lemma AnswerHeld(w: World, r: RequestId, key: Key, since: nat)
    requires Inv(w) && AskedBy(w, r, key, since) && w.requests[r].served.Some?
    ensures HeldFrom(w, key, w.requests[r].served.value.payload, since)
  {
    assert RequestOk(w.history, w.invalidations, w.requests[r]);
    assert key in w.history[w.requests[r].served.value.at];
  }

  lemma AskedAgain(w: World, id: CallId, q: Query, now: int, key: Key, since: nat)
    requires id < |w.calls| && q == Forced(w.calls[id].query) && q.key == key && since < |w.history|
    ensures Asked(Attempt(w, id, q, now), id, key, since)
  {
    ForcedIsIssued(w.client, w.calls[id].query, now);
  }

  lemma AskedSettled(w: World, id: CallId, phase: Phase, key: Key, since: nat)
    requires Asked(w, id, key, since) && (phase.Failed? || phase.Returned?)
    requires phase.Returned? ==> HeldFrom(w, key, phase.payload, since)
    ensures Asked(Settle(w, id, phase), id, key, since)
  {}

  lemma AskedFinalized(w: World, q: Query, r: RequestId, id: CallId, key: Key, since: nat)
    requires Asked(w, id, key, since)
    ensures Asked(Finalize(w, q, r), id, key, since)
  {}

  lemma AskedResumes(w: World, id: CallId, now: int, key: Key, since: nat)
    requires Inv(w) && Asked(w, id, key, since) && since < |w.history|
    ensures Asked(Resume(w, id, now), id, key, since)
  {
    var c := w.calls[id];
    if c.phase.Owning? {
      var r, q := c.phase.request, Forced(c.query);
      if w.requests[r].outcome == Rejected || w.requests[r].served.None? {
        AskedSettled(w, id, Failed, key, since);
        AskedFinalized(Settle(w, id, Failed), c.query, r, id, key, since);
      } else if w.requests[r].outcome == Resolved {
        var answer := Returned(w.requests[r].served.value.payload);
        AnswerHeld(w, r, key, since);
        AskedSettled(w, id, answer, key, since);
        AskedFinalized(Settle(w, id, answer), c.query, r, id, key, since);
        AskedAgain(w, id, q, now, key, since);
        AskedFinalized(Attempt(w, id, q, now), c.query, r, id, key, since);
      }
    }
  }

  lemma RequestsStay(w: World, e: Event)
    requires |w.history| > 0
    ensures var next := Step(w, e);
            && w.history <= next.history && |w.requests| <= |next.requests|
            && forall r | 0 <= r < |w.requests| :: SameRequest(w.requests[r], next.requests[r])
  {}

  lemma AskedStep(w: World, e: Event, id: CallId, key: Key, since: nat)
    requires Inv(w) && Asked(w, id, key, since) && since < |w.history|
    ensures Asked(Step(w, e), id, key, since)
  {
    TickKeeps(w, e);
    var ticked := Tick(w, e);
    AskedLater(w, ticked, id, key, since);
    if e.Continue? && e.call == id {
      AskedResumes(ticked, id, e.now, key, since);
    } else {
      OnlyItsOwnStep(w, e, id);
      RequestsStay(w, e);
      AskedLater(w, Step(w, e), id, key, since);
    }
  }

  lemma RunSnoc(server: Server, events: seq<Event>, e: Event)
    ensures Run(server, events + [e]) == Step(Run(server, events), e)
  {
    assert (events + [e])[..|events|] == events;
  }

  lemma AskedSnoc(server: Server, events: seq<Event>, e: Event, id: CallId, key: Key, since: nat)
    requires Asked(Run(server, events), id, key, since) && since <= |events|
    ensures Asked(Run(server, events + [e]), id, key, since)
  {
    RunInv(server, events);
    RunSnoc(server, events, e);
    AskedStep(Run(server, events), e, id, key, since);
  }

  lemma {:induction false} AskedRun(server: Server, before: seq<Event>, after: seq<Event>, id: CallId, key: Key,
                                    since: nat)
    requires since <= |before| && Asked(Run(server, before), id, key, since)
    ensures Asked(Run(server, before + after), id, key, since)
  {
    if after == [] {
      assert before + after == before;
    } else {
      var front, last := after[..|after| - 1], after[|after| - 1];
      AskedRun(server, before, front, id, key, since);
      AskedSnoc(server, before + front, last, id, key, since);
      assert before + after == before + front + [last];
    }
  }

  /**
   A call that is forced, or whose answers are not to be kept, issues a request of its own as it begins,
   whatever is cached or under way.
   */
  lemma ForcedCallIssues(server: Server, events: seq<Event>, q: Query, now: int)
    requires q.force || q.ttl <= 0
    ensures var w := Run(server, events);
            var next := Step(w, Begin(q, now));
            var id := |w.calls|;
            && |next.calls| == id + 1
            && |next.requests| == |w.requests| + 1
            && next.requests[|w.requests|].query == q && next.requests[|w.requests|].call == id
            && next.calls[id].phase == Owning(|w.requests|)
            && Own(next.requests, id) == 1
            && Asked(next, id, q.key, |events| + 1)
  {
    RunInv(server, events);
    RunSnoc(server, events, Begin(q, now));
    RequestsAreCounted(server, events + [Begin(q, now)]);
  }

  /**
   Through every run such a call joins no request of another call, has issued one request and at most one more for
   each invalidation since, and what it hands back was on the server at a moment not before the call began.
   */
  lemma ForcedCallAsksServer(server: Server, before: seq<Event>, q: Query, now: int, after: seq<Event>)
    requires q.force || q.ttl <= 0
    ensures var id := |Run(server, before).calls|;
            var w := Run(server, before + [Begin(q, now)] + after);
            && id < |w.calls|
            && !w.calls[id].phase.Joining?
            && 1 <= Own(w.requests, id) <= 1 + w.calls[id].generation - w.calls[id].firstGeneration
            && (w.calls[id].phase.Returned? ==> HeldFrom(w, q.key, w.calls[id].phase.payload, |before| + 1))
  {
    var begun := before + [Begin(q, now)];
    var id := |Run(server, before).calls|;
    ForcedCallIssues(server, before, q, now);
    RunSnoc(server, before, Begin(q, now));
    AskedRun(server, begun, after, id, q.key, |begun|);
    RequestsAreCounted(server, begun + after);
    RequestBound(server, begun + after, id);
  }

  /**
   A fresh entry answers exactly the calls that are neither forced nor without a TTL; a request that can be joined
   is joined by exactly those of them that find no fresh entry and may join; every other call issues.
   */
  lemma HowCallsStart(server: Server, events: seq<Event>, q: Query, now: int)
    ensures var w := Run(server, events);
            var next := Step(w, Begin(q, now));
            var phase := next.calls[|w.calls|].phase;
            var usable := q.ttl > 0 && !q.force;
            var valid := q.key in w.client.cache && w.client.cache[q.key].expiresAt > now;
            && (phase.Returned? <==> usable && valid)
            && (phase.Joining? <==> usable && !valid && q.join && q.key in w.client.pending)
            && (phase.Owning? <==> |next.requests| == |w.requests| + 1)
            && (!phase.Owning? ==> next.requests == w.requests && next.client == w.client)
            && (phase.Owning? ==>
                  (q.key in next.client.pending && next.client.pending[q.key] == |w.requests| <==> usable))
  {
    RunInv(server, events);
    var w := Run(server, events);
    if q.key in w.client.pending {
      assert Registered(w, w.client.pending[q.key], None);
    }
  }

  // ---- Aborting the previous request ----

  /** The newest request of the scope. */
  predicate IsNewest(requests: seq<Request>, scope: Scope, r: RequestId) {
    && r < |requests| && requests[r].query.scope == scope
    && forall other | r < other < |requests| :: requests[other].query.scope != scope
  }

  ghost predicate NewestAt(w: World, scope: Scope) {
    && (scope in w.client.inflight ==> IsNewest(w.requests, scope, w.client.inflight[scope]))
    && (forall r | IsNewest(w.requests, scope, r) && IsOwned(w.requests, w.calls, r) ::
          scope in w.client.inflight && w.client.inflight[scope] == r)
  }

  lemma AttemptNewest(w: World, id: CallId, q: Query, now: int, scope: Scope)
    requires NewestAt(w, scope) && id < |w.calls| && |w.history| > 0 && Counts(w)
    ensures NewestAt(Attempt(w, id, q, now), scope)
  {
    var next := Attempt(w, id, q, now);
    if StartOf(w.client, q, now).Issued? {
      assert next.requests[..|w.requests|] == w.requests;
      forall r: RequestId | IsNewest(next.requests, scope, r) && IsOwned(next.requests, next.calls, r)
        ensures scope in next.client.inflight && next.client.inflight[scope] == r
      {
        if r < |w.requests| {
          assert next.requests[|w.requests|].query.scope != scope;
          assert forall i | 0 <= i < |w.requests| :: next.requests[i] == w.requests[i];
          assert IsNewest(w.requests, scope, r);
          assert IsOwned(w.requests, w.calls, r);
        }
      }
    }
  }

  /** A request that no call waits for any more may be taken out. */
  lemma FinalizeNewest(w: World, q: Query, r: RequestId, scope: Scope)
    requires NewestAt(w, scope) && !IsOwned(w.requests, w.calls, r)
    ensures NewestAt(Finalize(w, q, r), scope)
  {}

  lemma SettleNewest(w: World, id: CallId, phase: Phase, scope: Scope)
    requires NewestAt(w, scope) && id < |w.calls| && !phase.Owning?
    ensures NewestAt(Settle(w, id, phase), scope)
  {}

  lemma UpdateNewest(w: World, r: RequestId, rq: Request, scope: Scope)
    requires NewestAt(w, scope) && r < |w.requests| && SameRequest(w.requests[r], rq)
    ensures NewestAt(w.(requests := w.requests[r := rq]), scope)
  {
    var next := w.(requests := w.requests[r := rq]);
    forall other
      ensures IsNewest(next.requests, scope, other) <==> IsNewest(w.requests, scope, other)
      ensures IsOwned(next.requests, next.calls, other) <==> IsOwned(w.requests, w.calls, other)
    {
      assert forall i | 0 <= i < |w.requests| :: next.requests[i].query == w.requests[i].query;
    }
  }

  lemma ResumeNewest(w: World, id: CallId, now: int, scope: Scope)
    requires NewestAt(w, scope) && id < |w.calls| && Inv(w) && Counts(w)
    ensures NewestAt(Resume(w, id, now), scope)
  {
    var c := w.calls[id];
    assert CallOk(w.requests, w.invalidations, id, c);
    AttemptNewest(w, id, Forced(c.query), now, scope);
    SettleNewest(w, id, Failed, scope);
    if c.phase.Joining? || c.phase.Owning? {
      var r := c.phase.request;
      if w.requests[r].served.Some? {
        SettleNewest(w, id, Returned(w.requests[r].served.value.payload), scope);
        if c.phase.Owning? {
          LeftRequest(w, id, now);
          FinalizeNewest(Settle(w, id, Returned(w.requests[r].served.value.payload)), c.query, r, scope);
          FinalizeNewest(Attempt(w, id, Forced(c.query), now), c.query, r, scope);
        }
      }
      if c.phase.Owning? {
        FinalizeNewest(Settle(w, id, Failed), c.query, r, scope);
      }
    }
  }

  /** A call that retries owns another request. */
  lemma LeftRequest(w: World, id: CallId, now: int)
    requires Inv(w) && id < |w.calls| && w.calls[id].phase.Owning?
    ensures var r := w.calls[id].phase.request;
            var next := Attempt(w, id, Forced(w.calls[id].query), now);
            !IsOwned(next.requests, next.calls, r)
  {
    assert CallOk(w.requests, w.invalidations, id, w.calls[id]);
    ForcedIsIssued(w.client, w.calls[id].query, now);
  }

  lemma ResolveNewest(w: World, r: RequestId, now: int, scope: Scope)
    requires NewestAt(w, scope)
    ensures NewestAt(ResolveRequest(w, r, now), scope)
  {
    if ResolveRequest(w, r, now) != w {
      UpdateNewest(w, r, w.requests[r].(outcome := Resolved), scope);
    }
  }

  lemma BeginNewest(w: World, q: Query, now: int, scope: Scope)
    requires NewestAt(w, scope) && |w.history| > 0 && Counts(w)
    ensures NewestAt(Apply(w, Begin(q, now)), scope)
  {
    var admitted := w.(calls := w.calls + [Call(q, w.client.generation, w.client.generation, 0, Failed)]);
    OwnNone(w.requests, |w.calls|);
    assert Counts(admitted);
    assert NewestAt(admitted, scope);
    AttemptNewest(admitted, |w.calls|, q, now, scope);
  }

  lemma StepNewest(w: World, e: Event, scope: Scope)
    requires NewestAt(w, scope) && Inv(w) && Counts(w)
    ensures NewestAt(Step(w, e), scope)
  {
    TickKeeps(w, e);
    var ticked := Tick(w, e);
    match e
    case Begin(q, now) => BeginNewest(ticked, q, now, scope);
    case Serve(r) =>
      if ServeRequest(ticked, r) != ticked { UpdateNewest(ticked, r, ServeRequest(ticked, r).requests[r], scope); }
    case Resolve(r, now) => ResolveNewest(ticked, r, now, scope);
    case Reject(r) =>
      if RejectRequest(ticked, r) != ticked {
        UpdateNewest(ticked, r, ticked.requests[r].(outcome := Rejected), scope);
      }
    case Continue(id, now) => if id < |ticked.calls| { ResumeNewest(ticked, id, now, scope); }
    case _ =>
  }

  lemma {:induction false} NewestRun(server: Server, events: seq<Event>, scope: Scope)
    ensures NewestAt(Run(server, events), scope)
  {
    if events != [] {
      var before := events[..|events| - 1];
      NewestRun(server, before, scope);
      RunInv(server, before);
      RequestsAreCounted(server, before);
      StepNewest(Run(server, before), events[|events| - 1], scope);
    }
  }

  /**
   In every run a call that issues aborts the newest request of its scope, if its call still waits for that one and
   aborting is not switched off, and nothing else.
   */
  lemma AbortsNewestIff(server: Server, events: seq<Event>, q: Query, now: int, r: RequestId)
    requires StartOf(Run(server, events).client, q, now).Issued?
    ensures var w := Run(server, events);
            StartOf(w.client, q, now) == Issued(Some(r))
            <==> q.cancelPrevious && IsNewest(w.requests, q.scope, r)
                 && w.requests[r].call < |w.calls| && w.calls[w.requests[r].call].phase == Owning(r)
  {
    RunInv(server, events);
    NewestRun(server, events, q.scope);
  }

  // ---- What an invalidation drops ----

  /** The pattern stands somewhere in the key. */
  ghost predicate Occurs(pattern: string, key: Key) {
    exists a: string, b: string :: key == a + pattern + b
  }

  lemma OccursIsMatch(pattern: string, key: Key)
    ensures MatchesKey(key, pattern) <==> Occurs(pattern, key)
  {
    if MatchesKey(key, pattern) {
      var i :| 0 <= i <= |key| && pattern <= key[i..];
      assert key == key[..i] + pattern + key[i + |pattern|..];
    }
    if Occurs(pattern, key) {
      var a, b :| key == a + pattern + b;
      assert key[|a|..] == pattern + b;
      assert pattern <= key[|a|..];
    }
  }

  /** Is the key meant by this argument: no argument or "" means every key, a list those with one of its patterns? */
  ghost predicate Means(m: Match, key: Key) {
    match m
    case NoMatch => true
    case OneMatch(pattern) => Occurs(pattern, key)
    case ManyMatch(patterns) => exists i | 0 <= i < |patterns| :: Occurs(patterns[i], key)
  }

  /** An invalidation covers the keys that a pattern of it occurs in, the empty pattern every key. */
  lemma CoversIff(m: Match, key: Key)
    ensures Covers(m, key) <==> Means(m, key)
  {
    match m
    case NoMatch =>
    case OneMatch(pattern) =>
      assert PatternList(m)[0] == pattern;
      OccursIsMatch(pattern, key);
      if pattern == "" {
        assert key == "" + pattern + key;
      }
    case ManyMatch(patterns) =>
      forall i | 0 <= i < |patterns| ensures MatchesKey(key, patterns[i]) <==> Occurs(patterns[i], key) {
        OccursIsMatch(patterns[i], key);
      }
      assert forall p | p in patterns :: exists i | 0 <= i < |patterns| :: patterns[i] == p;
  }

  /**
   In every run an invalidation drops exactly what is cached or can be joined under the keys it means, keeps the
   rest as it is, and makes each call under way that keeps its answer ask again.
   */
  lemma InvalidationDropsExactly(server: Server, events: seq<Event>, m: Match, key: Key)
    ensures var (c, next) := (Run(server, events).client, Step(Run(server, events), Invalidate(m)).client);
            && (key in next.cache <==> key in c.cache && !Means(m, key))
            && (key in next.pending <==> key in c.pending && !Means(m, key))
            && (key in next.cache ==> next.cache[key] == c.cache[key])
            && (key in next.pending ==> next.pending[key] == c.pending[key])
            && next.inflight == c.inflight && next.generation == c.generation + 1
  {
    CoversIff(m, key);
  }

  // ---- Which mutations clear the cache ----

  /** Does the method only read?  Without one it is GET. */
  predicate Reads(httpMethod: string) {
    httpMethod == "" || Spells(httpMethod, "GET") || Spells(httpMethod, "HEAD") || Spells(httpMethod, "OPTIONS")
  }

  predicate Previews(path: string) {
    || path == "/api/config/import-preview" || path == "/api/inhibition-rules/test"
    || path == "/api/policy-simulate" || path == "/api/render-preview"
  }

  lemma UpperSpells(s: string, word: string)
    requires forall i | 0 <= i < |word| :: 'A' <= word[i] <= 'Z'
    ensures Upper(s) == word <==> Spells(s, word)
  {
    assert |Upper(s)| == |s|;
    if Spells(s, word) {
      assert forall i | 0 <= i < |s| :: Upper(s)[i] == word[i];
    }
    if Upper(s) == word {
      forall i | 0 <= i < |s| ensures SameLetter(s[i], word[i]) {
        assert Upper(s)[i] == word[i];
      }
    }
  }

  lemma ClearsIff(mu: Mutation)
    ensures InvalidatesCache(mu) <==> !mu.skip && !Reads(mu.httpMethod) && !Previews(mu.path)
  {
    UpperSpells(mu.httpMethod, "GET");
    UpperSpells(mu.httpMethod, "HEAD");
    UpperSpells(mu.httpMethod, "OPTIONS");
    assert Upper("GET") == "GET";
  }

  /**
   In every run a successful request that writes, does not ask to be skipped and is none of the four previews
   leaves nothing cached and nothing to join, and every other one leaves everything as it is.
   */
  lemma MutationClearsIff(server: Server, events: seq<Event>, mu: Mutation)
    ensures var (w, next) := (Run(server, events), Step(Run(server, events), Mutate(mu)));
            if mu.skip || Reads(mu.httpMethod) || Previews(mu.path)
            then next.client == w.client && next.invalidations == w.invalidations
            else next.client.cache == map[] && next.client.pending == map[]
                 && next.client.generation == w.client.generation + 1
                 && forall key :: LastCover(next.invalidations, key) == |events| + 1
  {
    ClearsIff(mu);
    RunInv(server, events);
  }
}
