/**
 The prepared OIDC provider of src/auth/oidc_client.rs: a cached client with the
 configuration it was discovered from and the configuration generation it was
 stored under, filled on demand and refreshed in the background.
 */
module OidcCache {
  import opened Wrappers

  type Client = nat
  type CallId = nat

  /** The runtime configuration; `publicUrl` is None when it is not an HTTP origin. */
  datatype Setting = Setting(oidc: string, publicUrl: Option<string>)

  /** What a request asks for: without a public URL the callback is derived from the request's own host. */
  datatype Config = Config(oidc: string, base: string)

  function ConfigFor(setting: Setting, host: string): Config {
    Config(setting.oidc, if setting.publicUrl.Some? then setting.publicUrl.value else host)
  }

  datatype Provider = Provider(generation: nat, config: Config, client: Client)

  datatype Lookup = Hit(client: Client) | Mismatch | NeedsDiscovery

  datatype Refusal = OtherConfiguration | DiscoveryFailed

  function LookUp(cached: Option<Provider>, generation: nat, config: Config): Lookup {
    if cached.None? || cached.value.generation != generation then NeedsDiscovery
    else if cached.value.config == config then Hit(cached.value.client)
    else Mismatch
  }

  /** client_for as a whole; `discovered` is what discovery would give, None when it fails. */
  function ClientForAfter(cached: Option<Provider>, generation: nat, config: Config, discovered: Option<Client>)
    : (Option<Provider>, Result<Client, Refusal>)
  {
    match LookUp(cached, generation, config)
    case Hit(client) => (cached, Ok(client))
    case Mismatch => (cached, Err(OtherConfiguration))
    case NeedsDiscovery =>
      if discovered.None? then (cached, Err(DiscoveryFailed))
      else (Some(Provider(generation, config, discovered.value)), Ok(discovered.value))
  }

  function LookUpCached(cached: Option<Provider>, generation: nat, config: Config): Option<Client> {
    if cached.Some? && cached.value.generation == generation && cached.value.config == config
    then Some(cached.value.client)
    else None
  }

  function AfterRefresh(cached: Option<Provider>, generation: nat, config: Config, live: nat, client: Client)
    : Option<Provider>
  {
    if cached.Some? && cached.value.generation == generation && cached.value.config == config && live == generation
    then Some(Provider(generation, config, client))
    else cached
  }

  /** What the lock protects; each method runs while its caller holds the lock. */
  class ProviderCell {
    var cached: Option<Provider>

    constructor ()
      ensures cached == None
    {
      cached := None;
    }

    /** What is returned is what the cell then serves for this configuration; a refusal leaves the cell alone. */
    method ClientFor(generation: nat, config: Config, discovered: Option<Client>) returns (r: Result<Client, Refusal>)
      modifies this
      ensures (cached, r) == ClientForAfter(old(cached), generation, config, discovered)
      ensures r.Ok? ==> LookUpCached(cached, generation, config) == Some(r.value)
      ensures r.Err? ==> cached == old(cached)
    {
      if cached.Some? && cached.value.generation == generation {
        if cached.value.config == config {
          return Ok(cached.value.client);
        }
        return Err(OtherConfiguration);
      }
      if discovered.None? {
        return Err(DiscoveryFailed);
      }
      cached := Some(Provider(generation, config, discovered.value));
      return Ok(discovered.value);
    }

    method CachedClientFor(generation: nat, config: Config) returns (r: Option<Client>)
      ensures r == LookUpCached(cached, generation, config)
    {
      if cached.None? {
        return None;
      }
      if cached.value.generation != generation || cached.value.config != config {
        return None;
      }
      return Some(cached.value.client);
    }

    method StoreRefreshed(generation: nat, config: Config, live: nat, client: Client)
      modifies this
      ensures cached == AfterRefresh(old(cached), generation, config, live, client)
    {
      if cached.Some? && cached.value.generation == generation && cached.value.config == config {
        if live == generation {
          cached := Some(Provider(generation, config, client));
        }
      }
    }
  }

  // ---- Interleavings ----

  /**
   A client remembers what it was discovered from, the generation its finder had loaded, and
   the call whose request led to it: the finder, or for a refresh the call that filled the entry.
   */
  datatype Discovery = Discovery(config: Config, generation: nat, origin: CallId)

  datatype Kind = Prepare | CachedOnly | Refresh

  datatype Phase =
    | Starting
    | Loaded(generation: nat)
    | Discovering(generation: nat)
    | Refreshing(generation: nat, config: Config, origin: CallId)
    | Refreshed(generation: nat, config: Config, client: Client)
    | Done(answer: Option<Client>)

  /**
   `version` says how many settings had been replaced when the call read its own, `startedAt` is the
   generation then.
   */
  datatype Call = Call(kind: Kind, host: string, config: Config, version: nat, startedAt: nat, phase: Phase)

  /** `settings` lists what the live setting has been; the last one is live. */
  datatype World = World(
    settings: seq<Setting>,
    generation: nat,
    bumpDue: bool,
    cached: Option<Provider>,
    lock: Option<CallId>,
    calls: seq<Call>,
    discoveries: seq<Discovery>)

  /** WriteConfig replaces the runtime configuration; the generation follows as a step of its own. */
  datatype Event =
    | WriteConfig(setting: Setting, touched: bool)
    | Bump
    | Begin(kind: Kind, host: string)
    | Load(id: CallId)
    | Acquire(id: CallId)
    | Found(id: CallId)
    | NotFound(id: CallId)

  function Initial(setting: Setting): World {
    World([setting], 0, false, None, None, [], [])
  }

  function Version(w: World): nat
    requires w.settings != []
  {
    |w.settings| - 1
  }

  function Live(w: World): Setting
    requires w.settings != []
  {
    w.settings[Version(w)]
  }

  function Put(w: World, id: CallId, phase: Phase): World
    requires id < |w.calls|
  {
    w.(calls := w.calls[id := w.calls[id].(phase := phase)])
  }

  /** The call gets the lock and runs until it gives it back or waits for discovery. */
  function Enter(w: World, id: CallId): World
    requires id < |w.calls|
  {
    var c := w.calls[id];
    match c.phase
    case Loaded(g) =>
      if c.kind.CachedOnly? then Put(w, id, Done(LookUpCached(w.cached, g, c.config)))
      else
        (match LookUp(w.cached, g, c.config)
         case Hit(client) => Put(w, id, Done(Some(client)))
         case Mismatch => Put(w, id, Done(None))
         case NeedsDiscovery => Put(w.(lock := Some(id)), id, Discovering(g)))
    case Starting =>
      if !c.kind.Refresh? then w
      else if w.cached.None? || w.cached.value.client >= |w.discoveries| then Put(w, id, Done(None))
      else
        var p := w.cached.value;
        Put(w, id, Refreshing(p.generation, p.config, w.discoveries[p.client].origin))
    case Refreshed(g, config, client) =>
      Put(w.(cached := AfterRefresh(w.cached, g, config, w.generation, client)), id, Done(None))
    case _ => w
  }

  function Discover(w: World, id: CallId): World
    requires id < |w.calls|
  {
    var c := w.calls[id];
    var client := |w.discoveries|;
    match c.phase
    case Discovering(g) =>
      Put(w.(discoveries := w.discoveries + [Discovery(c.config, g, id)],
             cached := Some(Provider(g, c.config, client)), lock := None), id, Done(Some(client)))
    case Refreshing(g, config, origin) =>
      Put(w.(discoveries := w.discoveries + [Discovery(config, g, origin)]), id, Refreshed(g, config, client))
    case _ => w
  }

  function Fail(w: World, id: CallId): World
    requires id < |w.calls|
  {
    match w.calls[id].phase
    case Discovering(_) => Put(w.(lock := None), id, Done(None))
    case Refreshing(_, _, _) => Put(w, id, Done(None))
    case _ => w
  }

  /** One configuration is written at a time: the next write waits for the bump of the last one. */
  function Write(w: World, setting: Setting, touched: bool): World
    requires w.settings != []
  {
    if w.bumpDue || (!touched && setting == Live(w)) then w
    else w.(settings := w.settings + [setting], bumpDue := true)
  }

  function Step(w: World, e: Event): (next: World)
    requires w.settings != []
    ensures next.settings != []
  {
    match e
    case WriteConfig(setting, touched) => Write(w, setting, touched)
    case Bump => if w.bumpDue then w.(generation := w.generation + 1, bumpDue := false) else w
    case Begin(kind, host) =>
      w.(calls := w.calls + [Call(kind, host, ConfigFor(Live(w), host), Version(w), w.generation, Starting)])
    case Load(id) =>
      if id < |w.calls| && w.calls[id].phase.Starting? && !w.calls[id].kind.Refresh?
      then Put(w, id, Loaded(w.generation)) else w
    case Acquire(id) => if id < |w.calls| && w.lock.None? then Enter(w, id) else w
    case Found(id) => if id < |w.calls| then Discover(w, id) else w
    case NotFound(id) => if id < |w.calls| then Fail(w, id) else w
  }

  function Run(start: World, events: seq<Event>): (w: World)
    requires start.settings != []
    ensures w.settings != []
  {
    if events == [] then start else Step(Run(start, events[..|events| - 1]), events[|events| - 1])
  }

  // ---- The invariant ----

  predicate PhaseOk(w: World, id: CallId, c: Call) {
    match c.phase
    case Starting => true
    case Loaded(g) => !c.kind.Refresh? && c.startedAt <= g <= w.generation
    case Discovering(g) => c.kind.Prepare? && c.startedAt <= g <= w.generation && w.lock == Some(id)
    case Refreshing(g, config, origin) => g <= w.generation && OriginOk(w, g, config, origin)
    case Refreshed(g, config, client) => g <= w.generation && ClientOk(w, g, config, client)
    case Done(answer) =>
      answer.Some? ==>
        && answer.value < |w.discoveries|
        && var d := w.discoveries[answer.value]; d.config == c.config && c.startedAt <= d.generation <= w.generation
  }

  predicate CallOk(w: World, id: CallId, c: Call) {
    && c.startedAt <= w.generation
    && c.version < |w.settings|
    && c.startedAt <= c.version <= c.startedAt + 1
    && c.config == ConfigFor(w.settings[c.version], c.host)
    && PhaseOk(w, id, c)
  }

  /** The origin asked for this configuration, and read it no later than one write after this generation. */
  predicate OriginOk(w: World, g: nat, config: Config, origin: CallId) {
    && origin < |w.calls|
    && w.calls[origin].kind.Prepare?
    && w.calls[origin].config == config
    && w.calls[origin].startedAt <= g
  }

  predicate ClientOk(w: World, g: nat, config: Config, client: Client) {
    && client < |w.discoveries|
    && w.discoveries[client].config == config
    && w.discoveries[client].generation == g
    && OriginOk(w, g, config, w.discoveries[client].origin)
  }

  predicate CacheOk(w: World) {
    w.cached.Some? ==>
      var p := w.cached.value; p.generation <= w.generation && ClientOk(w, p.generation, p.config, p.client)
  }

  predicate Inv(w: World) {
    && w.settings != []
    && w.generation + (if w.bumpDue then 1 else 0) == Version(w)
    && CacheOk(w)
    && (w.lock.Some? ==> w.lock.value < |w.calls| && w.calls[w.lock.value].phase.Discovering?)
    && (forall id | 0 <= id < |w.calls| :: CallOk(w, id, w.calls[id]))
  }

  /** Nothing that calls and entries rely on has been taken back. */
  predicate Extends(w: World, next: World) {
    && w.settings <= next.settings
    && w.generation <= next.generation
    && w.discoveries <= next.discoveries
    && |w.calls| <= |next.calls|
    && forall id | 0 <= id < |w.calls| ::
         next.calls[id] == w.calls[id].(phase := next.calls[id].phase)
  }

  lemma OriginStays(w: World, next: World, g: nat, config: Config, origin: CallId)
    requires Extends(w, next) && OriginOk(w, g, config, origin)
    ensures OriginOk(next, g, config, origin)
  {
    assert next.calls[origin] == w.calls[origin].(phase := next.calls[origin].phase);
  }

  lemma ClientStays(w: World, next: World, g: nat, config: Config, client: Client)
    requires Extends(w, next) && ClientOk(w, g, config, client)
    ensures ClientOk(next, g, config, client)
  {
    OriginStays(w, next, g, config, w.discoveries[client].origin);
  }

  /** A call that does not move stays in order, if it does not hold the lock that is given up. */
  lemma CallStays(w: World, next: World, id: CallId)
    requires Extends(w, next) && id < |w.calls| && CallOk(w, id, w.calls[id]) && next.calls[id] == w.calls[id]
    requires w.calls[id].phase.Discovering? ==> next.lock == Some(id)
    ensures CallOk(next, id, next.calls[id])
  {
    match w.calls[id].phase
    case Refreshing(g, config, origin) => OriginStays(w, next, g, config, origin);
    case Refreshed(g, config, client) => ClientStays(w, next, g, config, client);
    case _ =>
  }

  /** One call moves: the invariant stays if its new phase, the entry and the lock are in order. */
  lemma MoveKeeps(w: World, next: World, id: CallId)
    requires Inv(w) && Extends(w, next) && id < |w.calls|
    requires next.settings == w.settings && next.generation == w.generation && next.bumpDue == w.bumpDue
    requires |next.calls| == |w.calls| && (forall i | 0 <= i < |w.calls| && i != id :: next.calls[i] == w.calls[i])
    requires w.lock.None? || w.lock == Some(id) || next.lock == w.lock
    requires PhaseOk(next, id, next.calls[id]) && CacheOk(next)
    requires next.lock.Some? ==> next.lock.value < |next.calls| && next.calls[next.lock.value].phase.Discovering?
    ensures Inv(next)
  {
    forall i | 0 <= i < |next.calls| ensures CallOk(next, i, next.calls[i]) {
      assert CallOk(w, i, w.calls[i]);
      if i != id {
        CallStays(w, next, i);
      }
    }
  }

  /** A call that moves on while entry, lock and clients stay. */
  lemma PutKeeps(w: World, id: CallId, phase: Phase)
    requires Inv(w) && id < |w.calls| && w.lock.None? && PhaseOk(w, id, w.calls[id].(phase := phase))
    ensures Inv(Put(w, id, phase))
  {
    var next := Put(w, id, phase);
    assert Extends(w, next);
    CachedStays(w, next);
    PhaseStays(w, next, id, phase);
    MoveKeeps(w, next, id);
  }

  lemma PhaseStays(w: World, next: World, id: CallId, phase: Phase)
    requires Extends(w, next) && id < |w.calls| && next.lock == w.lock
    requires PhaseOk(w, id, w.calls[id].(phase := phase))
    ensures PhaseOk(next, id, next.calls[id].(phase := phase))
  {
    match phase
    case Refreshing(g, config, origin) => OriginStays(w, next, g, config, origin);
    case Refreshed(g, config, client) => ClientStays(w, next, g, config, client);
    case _ =>
  }

  lemma CachedStays(w: World, next: World)
    requires Extends(w, next) && CacheOk(w)
    ensures w.cached == next.cached ==> CacheOk(next)
  {
    if w.cached.Some? {
      ClientStays(w, next, w.cached.value.generation, w.cached.value.config, w.cached.value.client);
    }
  }

  lemma LockKeeps(w: World, id: CallId, g: nat)
    requires Inv(w) && id < |w.calls| && w.lock.None? && w.calls[id].phase == Loaded(g) && w.calls[id].kind.Prepare?
    ensures Inv(Put(w.(lock := Some(id)), id, Discovering(g)))
  {
    var next := Put(w.(lock := Some(id)), id, Discovering(g));
    assert CallOk(w, id, w.calls[id]);
    assert Extends(w, next);
    CachedStays(w, next);
    MoveKeeps(w, next, id);
  }

  lemma RefreshedKeeps(w: World, id: CallId, next: World)
    requires Inv(w) && id < |w.calls| && w.lock.None? && w.calls[id].phase.Refreshed? && next == Enter(w, id)
    ensures Inv(next)
  {
    var p := w.calls[id].phase;
    assert CallOk(w, id, w.calls[id]);
    assert Extends(w, next);
    CachedStays(w, next);
    ClientStays(w, next, p.generation, p.config, p.client);
    MoveKeeps(w, next, id);
  }

  /** A call with a generation is answered from the entry, refused, or waits for discovery. */
  lemma LoadedPhase(w: World, id: CallId)
    requires Inv(w) && id < |w.calls| && w.lock.None? && w.calls[id].phase.Loaded?
    ensures var next := Enter(w, id);
            if next.lock.Some? then
              w.calls[id].kind.Prepare?
              && next == Put(w.(lock := Some(id)), id, Discovering(w.calls[id].phase.generation))
            else
              next == Put(w, id, next.calls[id].phase)
              && PhaseOk(w, id, w.calls[id].(phase := next.calls[id].phase))
  {
    assert CallOk(w, id, w.calls[id]);
  }

  lemma LoadedKeeps(w: World, id: CallId, next: World)
    requires Inv(w) && id < |w.calls| && w.lock.None? && w.calls[id].phase.Loaded? && next == Enter(w, id)
    ensures Inv(next)
  {
    LoadedPhase(w, id);
    if next.lock.Some? {
      LockKeeps(w, id, w.calls[id].phase.generation);
    } else {
      PutKeeps(w, id, next.calls[id].phase);
    }
  }

  lemma RefreshKeeps(w: World, id: CallId, next: World)
    requires Inv(w) && id < |w.calls| && w.lock.None? && w.calls[id].phase.Starting? && next == Enter(w, id)
    ensures Inv(next)
  {
    assert CallOk(w, id, w.calls[id]);
    if next != w {
      PutKeeps(w, id, next.calls[id].phase);
    }
  }

  lemma EnterKeeps(w: World, id: CallId, next: World)
    requires Inv(w) && id < |w.calls| && w.lock.None? && next == Enter(w, id)
    ensures Inv(next)
  {
    match w.calls[id].phase
    case Loaded(_) => LoadedKeeps(w, id, next);
    case Starting => RefreshKeeps(w, id, next);
    case Refreshed(_, _, _) => RefreshedKeeps(w, id, next);
    case _ =>
  }

  lemma DiscoverKeeps(w: World, id: CallId, next: World)
    requires Inv(w) && id < |w.calls| && next == Discover(w, id)
    ensures Inv(next)
  {
    var c := w.calls[id];
    assert CallOk(w, id, c);
    if c.phase.Discovering? || c.phase.Refreshing? {
      assert Extends(w, next);
      if w.cached.Some? {
        ClientStays(w, next, w.cached.value.generation, w.cached.value.config, w.cached.value.client);
      }
      if c.phase.Refreshing? {
        OriginStays(w, next, c.phase.generation, c.phase.config, c.phase.origin);
      }
      assert next.calls[id].config == c.config;
      MoveKeeps(w, next, id);
    }
  }

  lemma FailKeeps(w: World, id: CallId, next: World)
    requires Inv(w) && id < |w.calls| && next == Fail(w, id)
    ensures Inv(next)
  {
    assert CallOk(w, id, w.calls[id]);
    if next != w {
      assert Extends(w, next);
      if w.cached.Some? {
        ClientStays(w, next, w.cached.value.generation, w.cached.value.config, w.cached.value.client);
      }
      MoveKeeps(w, next, id);
    }
  }

  lemma QuietKeeps(w: World, e: Event, next: World)
    requires Inv(w) && next == Step(w, e) && (e.WriteConfig? || e.Bump? || e.Begin?)
    ensures Inv(next)
  {
    assert Extends(w, next);
    if w.cached.Some? {
      ClientStays(w, next, w.cached.value.generation, w.cached.value.config, w.cached.value.client);
    }
    forall i | 0 <= i < |next.calls| ensures CallOk(next, i, next.calls[i]) {
      if i < |w.calls| {
        assert CallOk(w, i, w.calls[i]);
        CallStays(w, next, i);
      }
    }
  }

  lemma LoadKeeps(w: World, id: CallId, next: World)
    requires Inv(w) && next == Step(w, Load(id))
    ensures Inv(next)
  {
    if next != w {
      assert CallOk(w, id, w.calls[id]);
      assert Extends(w, next);
      if w.cached.Some? {
        ClientStays(w, next, w.cached.value.generation, w.cached.value.config, w.cached.value.client);
      }
      MoveKeeps(w, next, id);
    }
  }

  lemma StepKeeps(w: World, e: Event, next: World)
    requires Inv(w) && next == Step(w, e)
    ensures Inv(next)
  {
    match e
    case Load(id) => LoadKeeps(w, id, next);
    case Acquire(id) => if id < |w.calls| && w.lock.None? { EnterKeeps(w, id, next); }
    case Found(id) => if id < |w.calls| { DiscoverKeeps(w, id, next); }
    case NotFound(id) => if id < |w.calls| { FailKeeps(w, id, next); }
    case _ => QuietKeeps(w, e, next);
  }

  lemma {:induction false} RunInv(setting: Setting, events: seq<Event>)
    ensures Inv(Run(Initial(setting), events))
  {
    if events != [] {
      var before := Run(Initial(setting), events[..|events| - 1]);
      RunInv(setting, events[..|events| - 1]);
      StepKeeps(before, events[|events| - 1], Run(Initial(setting), events));
    }
  }

  // ---- The steps are those of client_for ----

  /** While a call waits for discovery under the lock, only its own discovery changes the cell. */
  lemma LockedCellStays(w: World, e: Event)
    requires Inv(w) && w.lock.Some? && e != Found(w.lock.value)
    ensures Step(w, e).cached == w.cached
  {
    if e.Found? && e.id < |w.calls| {
      assert CallOk(w, e.id, w.calls[e.id]);
    }
  }

  function AnswerOf(r: Result<Client, Refusal>): Option<Client> {
    if r.Ok? then Some(r.value) else None
  }

  /** Entering, and discovering if the call has to, leave the cell and the answer that client_for gives. */
  lemma StepsAreClientFor(w: World, id: CallId, g: nat)
    requires id < |w.calls| && w.lock.None? && w.calls[id].kind.Prepare? && w.calls[id].phase == Loaded(g)
    ensures var (entry, r) := ClientForAfter(w.cached, g, w.calls[id].config, Some(|w.discoveries|));
            var entered := Enter(w, id);
            var last := if entered.lock.None? then entered else Discover(entered, id);
            last.cached == entry && last.lock.None? && last.calls[id].phase == Done(AnswerOf(r))
    ensures var (entry, r) := ClientForAfter(w.cached, g, w.calls[id].config, None);
            var entered := Enter(w, id);
            var last := if entered.lock.None? then entered else Fail(entered, id);
            last.cached == entry && last.lock.None? && last.calls[id].phase == Done(AnswerOf(r))
  {}

  // ---- Safety ----

  /**
   In every interleaving, a client that a call returns was discovered from exactly the
   configuration the call asked for, and by a finder whose generation was current at some
   moment between the call's beginning and its return.
   */
  lemma ReturnedClientFits(setting: Setting, events: seq<Event>, id: CallId)
    requires id < |Run(Initial(setting), events).calls|
    requires var p := Run(Initial(setting), events).calls[id].phase; p.Done? && p.answer.Some?
    ensures var w := Run(Initial(setting), events);
            var c := w.calls[id];
            && c.phase.answer.value < |w.discoveries|
            && c.version < |w.settings|
            && c.config == ConfigFor(w.settings[c.version], c.host)
            && var d := w.discoveries[c.phase.answer.value];
               d.config == c.config && c.startedAt <= d.generation <= w.generation
  {
    RunInv(setting, events);
    var w := Run(Initial(setting), events);
    assert CallOk(w, id, w.calls[id]);
  }

  /** A request prepares a client. */
  function PrepareOnce(w: World, host: string): World
    requires w.settings != []
  {
    Step(Step(Step(Step(w, Begin(Prepare, host)), Load(|w.calls|)), Acquire(|w.calls|)), Found(|w.calls|))
  }

  lemma PreparesClient(w: World, host: string)
    requires w.settings != [] && w.lock.None? && (w.cached.None? || w.cached.value.generation != w.generation)
    ensures var config := ConfigFor(Live(w), host);
            PrepareOnce(w, host) ==
            w.(calls := w.calls + [Call(Prepare, host, config, Version(w), w.generation, Done(Some(|w.discoveries|)))],
               discoveries := w.discoveries + [Discovery(config, w.generation, |w.calls|)],
               cached := Some(Provider(w.generation, config, |w.discoveries|)))
  {
    var id := |w.calls|;
    var config := ConfigFor(Live(w), host);
    var s1 := Step(w, Begin(Prepare, host));
    var s2 := Step(s1, Load(id));
    assert s2 == w.(calls := w.calls + [Call(Prepare, host, config, Version(w), w.generation, Loaded(w.generation))]);
    var s3 := Step(s2, Acquire(id));
    var waiting := Call(Prepare, host, config, Version(w), w.generation, Discovering(w.generation));
    assert s3 == w.(calls := w.calls + [waiting], lock := Some(id));
  }

  /** From an idle cache without an entry of this generation: a request is prepared, then asked for from the cache. */
  function PrepareThenAsk(w: World, host: string): World
    requires w.settings != []
  {
    Step(Step(Step(PrepareOnce(w, host), Begin(CachedOnly, host)), Load(|w.calls| + 1)), Acquire(|w.calls| + 1))
  }

  lemma PreparedClientIsServed(w: World, host: string)
    requires w.settings != [] && w.lock.None? && (w.cached.None? || w.cached.value.generation != w.generation)
    ensures var last := PrepareThenAsk(w, host);
            && |last.calls| == |w.calls| + 2
            && last.calls[|w.calls|].phase == Done(Some(|w.discoveries|))
            && last.calls[|w.calls| + 1].phase == Done(Some(|w.discoveries|))
            && last.discoveries == w.discoveries + [Discovery(ConfigFor(Live(w), host), w.generation, |w.calls|)]
  {
    var id := |w.calls| + 1;
    var config := ConfigFor(Live(w), host);
    PreparesClient(w, host);
    var s4 := PrepareOnce(w, host);
    var s5 := Step(s4, Begin(CachedOnly, host));
    var s6 := Step(s5, Load(id));
    assert s6.calls[id] == Call(CachedOnly, host, config, Version(w), w.generation, Loaded(w.generation));
  }

  // ---- When a request is refused although discovery would succeed ----

  /** The call whose request the entry goes back to. */
  function OriginOf(w: World): Call
    requires CacheOk(w) && w.cached.Some?
  {
    w.calls[w.discoveries[w.cached.value.client].origin]
  }

  /**
   In every interleaving, a prepare call that has its generation and gets the lock is refused if and only
   if the entry of that generation goes back to a call that asked for another configuration.
   */
  lemma RefusedIff(setting: Setting, events: seq<Event>, id: CallId)
    requires id < |Run(Initial(setting), events).calls| && Run(Initial(setting), events).lock.None?
    requires var c := Run(Initial(setting), events).calls[id]; c.kind.Prepare? && c.phase.Loaded?
    ensures CacheOk(Run(Initial(setting), events))
    ensures var w := Run(Initial(setting), events);
            var c := w.calls[id];
            Step(w, Acquire(id)).calls[id].phase == Done(None)
            <==> w.cached.Some? && w.cached.value.generation == c.phase.generation && OriginOf(w).config != c.config
  {
    RunInv(setting, events);
  }

  /** The entry goes back to a request that read an earlier setting, one that asks for something else. */
  predicate FromOlderSetting(w: World, c: Call)
    requires CacheOk(w) && w.cached.Some?
  {
    OriginOf(w).version < c.version && OriginOf(w).config != c.config
  }

  /** The entry goes back to a request under the same setting, which has no public URL, for another host. */
  predicate FromOtherHost(w: World, c: Call)
    requires CacheOk(w) && w.cached.Some? && w.settings != []
  {
    OriginOf(w).version == c.version && Live(w).publicUrl.None? && OriginOf(w).host != c.host
  }

  /**
   A prepare call for the live setting is refused exactly in these cases: the entry of its generation
   goes back to an older setting, or there is no public URL and it goes back to another host.
   */
  lemma LiveCallRefusedIff(setting: Setting, events: seq<Event>, id: CallId)
    requires id < |Run(Initial(setting), events).calls| && Run(Initial(setting), events).lock.None?
    requires var w := Run(Initial(setting), events);
             var c := w.calls[id];
             c.kind.Prepare? && c.phase.Loaded? && c.version == Version(w)
    ensures CacheOk(Run(Initial(setting), events))
    ensures var w := Run(Initial(setting), events);
            var c := w.calls[id];
            Step(w, Acquire(id)).calls[id].phase == Done(None)
            <==> w.cached.Some? && w.cached.value.generation == c.phase.generation
                 && (FromOlderSetting(w, c) || FromOtherHost(w, c))
  {
    RefusedIff(setting, events, id);
    RunInv(setting, events);
    var w := Run(Initial(setting), events);
    assert CallOk(w, id, w.calls[id]);
    if w.cached.Some? {
      var origin := w.discoveries[w.cached.value.client].origin;
      assert CallOk(w, origin, w.calls[origin]);
    }
  }

  /**
   Where such an entry comes from.  Either the call has loaded the generation of its setting: then the older
   request read its setting before the change and its generation, or what it found, was stored after the bump.
   Or the call has loaded the generation before, in the window between the write and the bump: then the
   entry may be in perfect order, and the refusal ends with the bump.
   */
  lemma OlderSettingCases(setting: Setting, events: seq<Event>, id: CallId)
    requires id < |Run(Initial(setting), events).calls|
    requires var w := Run(Initial(setting), events);
             var c := w.calls[id];
             c.kind.Prepare? && c.phase.Loaded? && c.version == Version(w) && w.cached.Some?
             && w.cached.value.generation == c.phase.generation
    ensures CacheOk(Run(Initial(setting), events))
    ensures var w := Run(Initial(setting), events);
            var g := w.calls[id].phase.generation;
            && (g == Version(w) || g + 1 == Version(w))
            && (FromOlderSetting(w, w.calls[id]) && g == Version(w) ==>
                  OriginOf(w).startedAt < g && OriginOf(w).version <= g - 1)
            && (g + 1 == Version(w) ==> w.calls[id].startedAt == g)
  {
    RunInv(setting, events);
    var w := Run(Initial(setting), events);
    assert CallOk(w, id, w.calls[id]);
    var origin := w.discoveries[w.cached.value.client].origin;
    assert CallOk(w, origin, w.calls[origin]);
  }

  // ---- How long a refusal lasts ----

  predicate NoBump(events: seq<Event>) {
    forall i | 0 <= i < |events| :: !events[i].Bump?
  }

  /** The entry of the current generation is for another configuration than this one. */
  predicate Blocked(w: World, config: Config) {
    w.lock.None? && w.cached.Some? && w.cached.value.generation == w.generation && w.cached.value.config != config
  }

  /** The call has loaded an earlier generation, so it will find no entry and replace the one there is. */
  predicate Evicts(w: World, c: Call) {
    !c.kind.CachedOnly? && c.phase.Loaded? && c.phase.generation != w.generation
  }

  predicate CanEvict(w: World) {
    exists id | 0 <= id < |w.calls| :: Evicts(w, w.calls[id])
  }

  /** No call for the configuration that began after this start has been answered. */
  predicate Unanswered(start: World, w: World, config: Config) {
    forall id | |start.calls| <= id < |w.calls| ::
      w.calls[id].config == config && w.calls[id].phase.Done? ==> w.calls[id].phase.answer.None?
  }

  predicate Settled(w: World, c: Call) {
    !Evicts(w, c) && !c.phase.Discovering?
  }

  predicate StaysBlocked(start: World, w: World, config: Config) {
    && Blocked(w, config)
    && |start.calls| <= |w.calls|
    && (forall id | 0 <= id < |w.calls| :: Settled(w, w.calls[id]))
    && Unanswered(start, w, config)
  }

  lemma BlockedMove(start: World, w: World, config: Config, id: CallId, next: World)
    requires StaysBlocked(start, w, config) && id < |w.calls|
    requires next == Enter(w, id) || next == Discover(w, id) || next == Fail(w, id)
    ensures StaysBlocked(start, next, config)
  {
    assert Settled(w, w.calls[id]);
    assert Blocked(next, config) && next.generation == w.generation && |next.calls| == |w.calls|;
    forall i | 0 <= i < |next.calls| ensures Settled(next, next.calls[i]) {
      assert Settled(w, w.calls[i]);
    }
    assert next.calls[id].config == config && next.calls[id].phase.Done? && !w.calls[id].phase.Done? ==>
        next.calls[id].phase.answer.None?;
  }

  lemma BlockedQuiet(start: World, w: World, config: Config, e: Event, next: World)
    requires w.settings != [] && StaysBlocked(start, w, config) && next == Step(w, e)
    requires e.WriteConfig? || e.Begin? || e.Load?
    ensures StaysBlocked(start, next, config)
  {
    forall i | 0 <= i < |next.calls| ensures Settled(next, next.calls[i]) {
      assert i < |w.calls| ==> Settled(w, w.calls[i]);
    }
  }

  lemma BlockedStep(start: World, w: World, config: Config, e: Event, next: World)
    requires w.settings != [] && StaysBlocked(start, w, config) && !e.Bump? && next == Step(w, e)
    ensures StaysBlocked(start, next, config)
  {
    match e
    case Acquire(id) => if id < |w.calls| { BlockedMove(start, w, config, id, next); }
    case Found(id) => if id < |w.calls| { BlockedMove(start, w, config, id, next); }
    case NotFound(id) => if id < |w.calls| { BlockedMove(start, w, config, id, next); }
    case Bump =>
    case _ => BlockedQuiet(start, w, config, e, next);
  }

  lemma {:induction false} BlockedRun(w: World, config: Config, events: seq<Event>)
    requires Inv(w) && Blocked(w, config) && !CanEvict(w) && NoBump(events)
    ensures StaysBlocked(w, Run(w, events), config)
  {
    if events == [] {
      forall id | 0 <= id < |w.calls| ensures Settled(w, w.calls[id]) {
        assert CallOk(w, id, w.calls[id]);
      }
    } else {
      BlockedRun(w, config, events[..|events| - 1]);
      BlockedStep(w, Run(w, events[..|events| - 1]), config, events[|events| - 1], Run(w, events));
    }
  }

  lemma RunSnoc(start: World, events: seq<Event>, e: Event)
    requires start.settings != []
    ensures Run(start, events + [e]) == Step(Run(start, events), e)
  {
    assert (events + [e])[..|events|] == events;
  }

  /** The two events in which the call with the earlier generation replaces the entry. */
  lemma EvictionRun(w: World, id: CallId)
    requires Inv(w) && w.lock.None? && id < |w.calls| && Evicts(w, w.calls[id])
    requires w.cached.Some? && w.cached.value.generation == w.generation
    ensures var next := Run(w, [Acquire(id), Found(id)]);
            && next.settings == w.settings && next.generation == w.generation && |next.calls| == |w.calls|
            && next.lock.None? && next.cached.Some? && next.cached.value.generation != next.generation
  {
    assert [] + [Acquire(id)] == [Acquire(id)] && [Acquire(id)] + [Found(id)] == [Acquire(id), Found(id)];
    RunSnoc(w, [], Acquire(id));
    RunSnoc(w, [Acquire(id)], Found(id));
    var entered := Step(w, Acquire(id));
    assert entered.calls[id].phase == Discovering(w.calls[id].phase.generation);
  }

  /** The events in which a new call prepares a client where there is no entry of this generation. */
  function Prepared(n: CallId, host: string): seq<Event> {
    [Begin(Prepare, host), Load(n), Acquire(n), Found(n)]
  }

  lemma {:induction false} RunConcat(start: World, a: seq<Event>, b: seq<Event>)
    requires start.settings != []
    ensures Run(start, a + b) == Run(Run(start, a), b)
  {
    if b == [] {
      assert a + b == a;
    } else {
      RunConcat(start, a, b[..|b| - 1]);
      assert (a + b)[..|a + b| - 1] == a + b[..|b| - 1];
    }
  }

  lemma RunFour(w: World, a: Event, b: Event, c: Event, d: Event)
    requires w.settings != []
    ensures Run(w, [a, b, c, d]) == Step(Step(Step(Step(w, a), b), c), d)
  {
    assert [] + [a] == [a] && [a] + [b] == [a, b] && [a, b] + [c] == [a, b, c] && [a, b, c] + [d] == [a, b, c, d];
    RunSnoc(w, [], a);
    RunSnoc(w, [a], b);
    RunSnoc(w, [a, b], c);
    RunSnoc(w, [a, b, c], d);
  }

  /** Call n, the last one, is for this configuration and has been answered. */
  predicate Answers(w: World, n: CallId, config: Config) {
    |w.calls| == n + 1 && w.calls[n].config == config && w.calls[n].phase.Done? && w.calls[n].phase.answer.Some?
  }

  lemma PreparedRun(m: World, host: string)
    requires m.settings != [] && m.lock.None? && (m.cached.None? || m.cached.value.generation != m.generation)
    ensures Answers(Run(m, Prepared(|m.calls|, host)), |m.calls|, ConfigFor(Live(m), host))
  {
    var n := |m.calls|;
    RunFour(m, Begin(Prepare, host), Load(n), Acquire(n), Found(n));
    PreparesClient(m, host);
  }

  /** Some run without a bump answers a new call for this configuration. */
  ghost predicate CanAnswer(w: World, config: Config)
    requires w.settings != []
  {
    exists events | NoBump(events) :: !Unanswered(w, Run(w, events), config)
  }

  lemma NoBumpConcat(a: seq<Event>, b: seq<Event>)
    requires NoBump(a) && NoBump(b)
    ensures NoBump(a + b)
  {}

  /** `m` is reached from `w` without a bump, and from there the rest of the events answer a new call. */
  lemma AnsweredVia(w: World, before: seq<Event>, m: World, after: seq<Event>, last: World, config: Config)
    requires w.settings != [] && m.settings != [] && NoBump(before) && NoBump(after)
    requires m == Run(w, before) && last == Run(m, after) && Answers(last, |w.calls|, config)
    ensures CanAnswer(w, config)
  {
    RunConcat(w, before, after);
    NoBumpConcat(before, after);
    AnsweredBy(w, before + after, config, last);
  }

  lemma EvictionAnswers(w: World, id: CallId, host: string)
    requires Inv(w) && id < |w.calls| && Evicts(w, w.calls[id]) && Blocked(w, ConfigFor(Live(w), host))
    ensures CanAnswer(w, ConfigFor(Live(w), host))
  {
    EvictionRun(w, id);
    var before := [Acquire(id), Found(id)];
    var m := Run(w, before);
    assert m.settings == w.settings && |m.calls| == |w.calls| && m.lock.None?;
    var after := Prepared(|w.calls|, host);
    PreparedRun(m, host);
    AnsweredVia(w, before, m, after, Run(m, after), ConfigFor(Live(w), host));
  }

  lemma AnsweredBy(w: World, events: seq<Event>, config: Config, last: World)
    requires w.settings != [] && NoBump(events) && last == Run(w, events) && Answers(last, |w.calls|, config)
    ensures CanAnswer(w, config)
  {
    assert !Unanswered(w, Run(w, events), config);
  }

  /**
   While the entry of the current generation is for another configuration, no new call for the live one is
   answered in any run without a bump, if and only if no call under way has loaded an earlier generation.
   */
  lemma BlockedUntilBumpIff(setting: Setting, events: seq<Event>, host: string)
    requires Blocked(Run(Initial(setting), events), ConfigFor(Live(Run(Initial(setting), events)), host))
    ensures var w := Run(Initial(setting), events);
            (forall more | NoBump(more) :: Unanswered(w, Run(w, more), ConfigFor(Live(w), host))) <==> !CanEvict(w)
  {
    RunInv(setting, events);
    var w := Run(Initial(setting), events);
    if CanEvict(w) {
      var id :| 0 <= id < |w.calls| && Evicts(w, w.calls[id]);
      EvictionAnswers(w, id, host);
    } else {
      forall more | NoBump(more) ensures Unanswered(w, Run(w, more), ConfigFor(Live(w), host)) {
        BlockedRun(w, ConfigFor(Live(w), host), more);
      }
    }
  }

  // ---- Such states are reached ----

  lemma RunThree(w: World, a: Event, b: Event, c: Event)
    requires w.settings != []
    ensures Run(w, [a, b, c]) == Step(Step(Step(w, a), b), c)
  {
    assert [] + [a] == [a] && [a] + [b] == [a, b] && [a, b] + [c] == [a, b, c];
    RunSnoc(w, [], a);
    RunSnoc(w, [a], b);
    RunSnoc(w, [a, b], c);
  }

  /** A setting is written and its bump follows while a call that has read the old one waits. */
  lemma ChangedUnderCall(before: Setting, after: Setting, host: string)
    requires before != after
    ensures Run(Initial(before), [Begin(Prepare, host), WriteConfig(after, true), Bump])
         == World([before, after], 1, false, None, None,
                  [Call(Prepare, host, ConfigFor(before, host), 0, 0, Starting)], [])
  {
    RunThree(Initial(before), Begin(Prepare, host), WriteConfig(after, true), Bump);
  }

  /** A waiting call fills the entry for the configuration that it has read. */
  lemma LateCallPrepares(settings: seq<Setting>, g: nat, host: string, config: Config)
    requires settings != []
    ensures Run(World(settings, g, false, None, None, [Call(Prepare, host, config, 0, 0, Starting)], []),
                [Load(0), Acquire(0), Found(0)])
         == World(settings, g, false, Some(Provider(g, config, 0)), None,
                  [Call(Prepare, host, config, 0, 0, Done(Some(0)))], [Discovery(config, g, 0)])
  {
    var w := World(settings, g, false, None, None, [Call(Prepare, host, config, 0, 0, Starting)], []);
    RunThree(w, Load(0), Acquire(0), Found(0));
    assert Step(Step(w, Load(0)), Acquire(0))
        == w.(calls := [Call(Prepare, host, config, 0, 0, Discovering(g))], lock := Some(0));
  }

  /**
   A request reads its setting before a change and loads its generation after the bump: the live setting is
   blocked.
   */
  lemma OldRequestBlocks(before: Setting, after: Setting, host: string)
    requires ConfigFor(before, host) != ConfigFor(after, host)
    ensures exists events ::
              var w := Run(Initial(before), events);
              Live(w) == after && !w.bumpDue && Blocked(w, ConfigFor(after, host)) && !CanEvict(w)
  {
    var start := Initial(before);
    var events := [Begin(Prepare, host), WriteConfig(after, true), Bump] + [Load(0), Acquire(0), Found(0)];
    var config := ConfigFor(before, host);
    ChangedUnderCall(before, after, host);
    RunConcat(start, [Begin(Prepare, host), WriteConfig(after, true), Bump], [Load(0), Acquire(0), Found(0)]);
    LateCallPrepares([before, after], 1, host, config);
    var last := Run(start, events);
    assert Live(last) == after && Blocked(last, ConfigFor(after, host)) && !CanEvict(last);
  }

  /** Client 0 has been prepared in order for the first host. */
  lemma FirstPrepared(setting: Setting, host: string)
    ensures Run(Initial(setting), [Begin(Prepare, host), Load(0), Acquire(0), Found(0)])
         == World([setting], 0, false, Some(Provider(0, ConfigFor(setting, host), 0)), None,
                  [Call(Prepare, host, ConfigFor(setting, host), 0, 0, Done(Some(0)))],
                  [Discovery(ConfigFor(setting, host), 0, 0)])
  {
    RunFour(Initial(setting), Begin(Prepare, host), Load(0), Acquire(0), Found(0));
    PreparesClient(Initial(setting), host);
  }

  /**
   In the window between a write and its bump a request for the new setting is refused, although the entry is
   in order.
   */
  lemma WindowRefuses(before: Setting, after: Setting, host: string)
    requires ConfigFor(before, host) != ConfigFor(after, host)
    ensures exists events ::
              var w := Run(Initial(before), events);
              && Live(w) == after && w.bumpDue && |w.calls| == 2
              && w.calls[1].config == ConfigFor(after, host) && w.calls[1].phase.Loaded?
              && CacheOk(w) && w.cached.Some? && OriginOf(w).version == w.cached.value.generation
              && Step(w, Acquire(1)).calls[1].phase == Done(None)
  {
    var start := Initial(before);
    var s4 := [Begin(Prepare, host), Load(0), Acquire(0), Found(0)];
    FirstPrepared(before, host);
    var s5 := s4 + [WriteConfig(after, true)];
    var s6 := s5 + [Begin(Prepare, host)];
    var s7 := s6 + [Load(1)];
    RunSnoc(start, s4, WriteConfig(after, true));
    RunSnoc(start, s5, Begin(Prepare, host));
    RunSnoc(start, s6, Load(1));
    var w := Run(start, s7);
    RunInv(before, s7);
    assert w.settings == [before, after];
    assert w.calls[1] == Call(Prepare, host, ConfigFor(after, host), 1, 0, Loaded(0));
  }

  /** Without a public URL the first host to be prepared blocks every other host, with no change of configuration. */
  lemma OtherHostBlocks(setting: Setting, first: string, other: string)
    requires setting.publicUrl.None? && first != other
    ensures exists events ::
              var w := Run(Initial(setting), events);
              w.settings == [setting] && Blocked(w, ConfigFor(setting, other)) && !CanEvict(w)
  {
    FirstPrepared(setting, first);
    var w := Run(Initial(setting), [Begin(Prepare, first), Load(0), Acquire(0), Found(0)]);
    assert w.settings == [setting] && Blocked(w, ConfigFor(setting, other)) && !CanEvict(w);
  }

  // ---- Refreshing ----

  /** A call of this kind that began in this world, at this phase. */
  function With(w: World, host: string, phase: Phase): World
    requires w.settings != []
  {
    w.(calls := w.calls + [Call(Refresh, host, ConfigFor(Live(w), host), Version(w), w.generation, phase)])
  }

  lemma RefreshStarts(w: World, host: string, p: Provider)
    requires w.settings != [] && w.lock.None? && w.cached == Some(p) && p.client < |w.discoveries|
    ensures Step(Step(w, Begin(Refresh, host)), Acquire(|w.calls|))
         == With(w, host, Refreshing(p.generation, p.config, w.discoveries[p.client].origin))
  {
    var begun := With(w, host, Starting);
    assert Step(w, Begin(Refresh, host)) == begun;
    assert begun.calls[|w.calls|].phase == Starting;
  }

  lemma RefreshFinds(w: World, host: string, g: nat, config: Config, origin: CallId)
    requires w.settings != []
    ensures var found := w.(discoveries := w.discoveries + [Discovery(config, g, origin)]);
            Step(With(w, host, Refreshing(g, config, origin)), Found(|w.calls|))
            == With(found, host, Refreshed(g, config, |w.discoveries|))
  {
    var asking := With(w, host, Refreshing(g, config, origin));
    assert asking.calls[|w.calls|].phase == Refreshing(g, config, origin);
  }

  lemma RefreshLands(w: World, host: string, p: Provider, client: Client)
    requires w.settings != [] && w.lock.None? && w.cached == Some(p) && p.generation == w.generation
    ensures Step(With(w, host, Refreshed(p.generation, p.config, client)), Acquire(|w.calls|))
         == With(w, host, Done(None)).(cached := Some(p.(client := client)))
  {
    var found := With(w, host, Refreshed(p.generation, p.config, client));
    assert found.calls[|w.calls|].phase == Refreshed(p.generation, p.config, client);
  }

  /** An undisturbed refresh gives the entry a newly discovered client, for the same configuration. */
  lemma RefreshRenews(w: World, host: string)
    requires w.settings != [] && w.lock.None? && w.cached.Some? && w.cached.value.generation == w.generation
    requires w.cached.value.client < |w.discoveries|
    ensures var id := |w.calls|;
            var last := Run(w, [Begin(Refresh, host), Acquire(id), Found(id), Acquire(id)]);
            && last.cached == Some(w.cached.value.(client := |w.discoveries|))
            && |last.discoveries| == |w.discoveries| + 1
            && last.discoveries[|w.discoveries|].config == w.cached.value.config
            && last.lock.None? && last.generation == w.generation
  {
    var id := |w.calls|;
    var p := w.cached.value;
    var origin := w.discoveries[p.client].origin;
    var found := w.(discoveries := w.discoveries + [Discovery(p.config, p.generation, origin)]);
    RefreshStarts(w, host, p);
    RefreshFinds(w, host, p.generation, p.config, origin);
    RefreshLands(found, host, p, |w.discoveries|);
    RunFour(w, Begin(Refresh, host), Acquire(id), Found(id), Acquire(id));
  }

  /** The client of a refresh is dropped when the generation has moved, or the entry is for something else by then. */
  lemma LateRefreshIsDropped(w: World, id: CallId)
    requires w.settings != [] && w.lock.None? && id < |w.calls| && w.calls[id].phase.Refreshed?
    requires var p := w.calls[id].phase;
             || w.generation != p.generation || w.cached.None?
             || w.cached.value.generation != p.generation || w.cached.value.config != p.config
    ensures Step(w, Acquire(id)).cached == w.cached
  {}
}
