/**
 The module-level state of static/app-query.js: the value cache, the map of
 in-flight controllers, the map of joinable requests and the generation.

 The functions on `Client` say what each piece of code between two suspension
 points does; class `QueryCache` is that code, proved against them.  One fresh
 number per request names both its AbortController and its promise.
 */
module QueryClient {
  import opened Wrappers

  type Key = string
  type Scope = string
  type Payload = string
  type RequestId = nat

  datatype CacheEntry = CacheEntry(expiresAt: int, value: Payload)

  datatype Client = Client(
    cache: map<Key, CacheEntry>,
    inflight: map<Scope, RequestId>,
    pending: map<Key, RequestId>,
    generation: nat)

  /** The arguments of one queryGet attempt, with the URL already turned into its key and TTL. */
  datatype Query = Query(scope: Scope, key: Key, ttl: int, force: bool, join: bool, cancelPrevious: bool)

  /** How the part of queryGet before its first suspension ends. */
  datatype Start = Cached(value: Payload) | Joined(request: RequestId) | Issued(aborted: Option<RequestId>)

  /** The argument of invalidateQueryCache; an absent one and "" are both falsy. */
  datatype Match = NoMatch | OneMatch(pattern: string) | ManyMatch(patterns: seq<string>)

  predicate Includes(s: string, part: string) {
    exists i | 0 <= i <= |s| :: part <= s[i..]
  }

  predicate MatchesKey(key: Key, pattern: string) {
    pattern <= key || Includes(key, pattern)
  }

  predicate ClearsAll(m: Match) {
    m.NoMatch? || (m.OneMatch? && m.pattern == "")
  }

  function PatternList(m: Match): seq<string> {
    match m
    case NoMatch => []
    case OneMatch(p) => [p]
    case ManyMatch(ps) => ps
  }

  /** Does an invalidation with this argument drop what is stored under the key? */
  predicate Covers(m: Match, key: Key) {
    ClearsAll(m) || exists p | p in PatternList(m) :: MatchesKey(key, p)
  }

  predicate Reuses(q: Query) {
    q.ttl > 0 && !q.force
  }

  predicate Fresh(c: Client, key: Key, now: int) {
    key in c.cache && c.cache[key].expiresAt > now
  }

  function StartOf(c: Client, q: Query, now: int): Start {
    if Reuses(q) && Fresh(c, q.key, now) then Cached(c.cache[q.key].value)
    else if Reuses(q) && q.key in c.pending && q.join then Joined(c.pending[q.key])
    else Issued(if q.cancelPrevious && q.scope in c.inflight then Some(c.inflight[q.scope]) else None)
  }

  function AfterStart(c: Client, q: Query, now: int, id: RequestId): Client {
    if StartOf(c, q, now).Issued? then
      c.(inflight := c.inflight[q.scope := id],
         pending := if Reuses(q) then c.pending[q.key := id] else c.pending)
    else c
  }

  predicate Stores(c: Client, q: Query, startedAt: nat) {
    q.ttl > 0 && startedAt == c.generation
  }

  function AfterPayload(c: Client, q: Query, startedAt: nat, payload: Payload, now: int): Client {
    if Stores(c, q, startedAt) then
      c.(cache := c.cache[q.key := CacheEntry(now + q.ttl, payload)])
    else c
  }

  function Without<X, Y(==)>(m: map<X, Y>, x: X, y: Y): map<X, Y> {
    if x in m && m[x] == y then m - {x} else m
  }

  function AfterFinish(c: Client, scope: Scope, key: Key, id: RequestId): Client {
    c.(inflight := Without(c.inflight, scope, id), pending := Without(c.pending, key, id))
  }

  function Uncovered<V>(m: Match, entries: map<Key, V>): map<Key, V> {
    map k | k in entries && !Covers(m, k) :: entries[k]
  }

  function AfterInvalidate(c: Client, m: Match): Client {
    Client(Uncovered(m, c.cache), c.inflight, Uncovered(m, c.pending), c.generation + 1)
  }

  /** `rest` is what is left of `was` when all keys but these have been dropped or kept. */
  predicate DroppedBut<V(==)>(m: Match, was: map<Key, V>, rest: map<Key, V>, keys: set<Key>) {
    && keys <= rest.Keys <= was.Keys
    && (forall k | k in rest :: rest[k] == was[k])
    && (forall k | k in was && k !in keys :: k in rest <==> !Covers(m, k))
  }

  lemma DroppedAll<V>(m: Match, was: map<Key, V>, rest: map<Key, V>)
    requires DroppedBut(m, was, rest, {})
    ensures rest == Uncovered(m, was)
  {}

  datatype Mutation = Mutation(httpMethod: string, path: string, skip: bool)

  const SAFE_METHODS: set<string> := {"GET", "HEAD", "OPTIONS"}
  const BYPASS_PATHS: set<string> := {
    "/api/config/import-preview", "/api/inhibition-rules/test", "/api/policy-simulate", "/api/render-preview"}

  function Upper(s: string): string {
    seq(|s|, i requires 0 <= i < |s| => if 'a' <= s[i] <= 'z' then s[i] - 'a' + 'A' else s[i])
  }

  predicate InvalidatesCache(mu: Mutation) {
    && !mu.skip
    && Upper(if mu.httpMethod == "" then "GET" else mu.httpMethod) !in SAFE_METHODS
    && mu.path !in BYPASS_PATHS
  }

  class QueryCache {
    var cache: map<Key, CacheEntry>
    var inflight: map<Scope, RequestId>
    var pending: map<Key, RequestId>
    var generation: nat

    ghost function State(): Client
      reads this
    {
      Client(cache, inflight, pending, generation)
    }

    constructor ()
      ensures State() == Client(map[], map[], map[], 0)
    {
      cache, inflight, pending, generation := map[], map[], map[], 0;
    }

    /** queryGet up to its first suspension; `id` names the request it may create. */
    method Start(q: Query, now: int, id: RequestId) returns (start: Start)
      modifies this
      ensures start == StartOf(old(State()), q, now)
      ensures State() == AfterStart(old(State()), q, now, id)
    {
      if q.ttl > 0 && !q.force {
        if q.key in cache && cache[q.key].expiresAt > now {
          return Cached(cache[q.key].value);
        }
        if q.key in pending && q.join {
          return Joined(pending[q.key]);
        }
      }
      start := Issued(None);
      if q.cancelPrevious {
        if q.scope in inflight {
          start := Issued(Some(inflight[q.scope]));
        }
      }
      inflight := inflight[q.scope := id];
      if q.ttl > 0 && !q.force {
        pending := pending[q.key := id];
      }
    }

    /** The continuation attached to the request: it fills the cache. */
    method OnPayload(q: Query, startedAt: nat, payload: Payload, now: int)
      modifies this
      ensures State() == AfterPayload(old(State()), q, startedAt, payload, now)
    {
      if q.ttl > 0 && startedAt == generation {
        cache := cache[q.key := CacheEntry(now + q.ttl, payload)];
      }
    }

    /** The finally block. */
    method Finish(scope: Scope, key: Key, id: RequestId)
      modifies this
      ensures State() == AfterFinish(old(State()), scope, key, id)
    {
      if scope in inflight && inflight[scope] == id {
        inflight := inflight - {scope};
      }
      if key in pending && pending[key] == id {
        pending := pending - {key};
      }
    }

    method Invalidate(m: Match)
      modifies this
      ensures State() == AfterInvalidate(old(State()), m)
    {
      generation := generation + 1;
      if ClearsAll(m) {
        cache, pending := map[], map[];
        return;
      }
      var patterns := PatternList(m);
      var keys := cache.Keys;
      while keys != {}
        invariant DroppedBut(m, old(cache), cache, keys)
        invariant inflight == old(inflight) && pending == old(pending) && generation == old(generation) + 1
        decreases keys
      {
        var key :| key in keys;
        keys := keys - {key};
        if exists p | p in patterns :: MatchesKey(key, p) {
          cache := cache - {key};
        }
      }
      DroppedAll(m, old(cache), cache);
      keys := pending.Keys;
      while keys != {}
        invariant DroppedBut(m, old(pending), pending, keys)
        invariant inflight == old(inflight) && generation == old(generation) + 1
        invariant cache == Uncovered(m, old(cache))
        decreases keys
      {
        var key :| key in keys;
        keys := keys - {key};
        if exists p | p in patterns :: MatchesKey(key, p) {
          pending := pending - {key};
        }
      }
      DroppedAll(m, old(pending), pending);
    }

    /** The hook registered with onApiMutationSuccess. */
    method OnMutationSuccess(mu: Mutation)
      modifies this
      ensures State() == if InvalidatesCache(mu) then AfterInvalidate(old(State()), NoMatch) else old(State())
    {
      if InvalidatesCache(mu) {
        Invalidate(NoMatch);
      }
    }
  }
}
