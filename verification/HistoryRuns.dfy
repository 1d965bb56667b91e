/**
 Authentication clients (with_auth_store in src/state.rs) running beside
 configuration replacements, step by step.

 `single` is the store a client would see if there were only one: every
 operation is applied to it as well, and no switch touches it.
 */
module HistoryRuns {
  import opened AuthStore
  import opened HistorySwitch
  import opened RateLimits
  import opened Wrappers

  type Reader = nat

  /** A reader holds the read lock, and from its second step on the store handle it cloned. */
  datatype World = World(
    node: Node,
    job: Job,
    phase: Phase,
    writeLocked: bool,
    readers: map<Reader, Option<Backend>>,
    single: Store,
    now: int)

  datatype Event =
    | Begin(job: Job)
    | WriterStep
    | Enter(reader: Reader)
    | Clone(reader: Reader)
    | Operate(reader: Reader, operation: Operation)
    | Leave(reader: Reader)
    | Pass(time: nat)

  /** The write lock waits for the readers; everything else the writer does on its own. */
  function StepWriter(w: World): World {
    if w.phase == Locking && w.readers != map[] then w
    else
      var (node, phase) := Advance(w.node, w.job, w.phase);
      w.(node := node, phase := phase,
         writeLocked := if w.phase == Locking then true else if phase.Done? then false else w.writeLocked)
  }

  predicate CanOperate(w: World, r: Reader) {
    r in w.readers && w.readers[r].Some?
  }

  function RunOperation(w: World, handle: Backend, op: Operation): World {
    w.(node := w.node.(stores := w.node.stores[handle := Perform(op, StoreOf(w.node.stores, handle), w.now).0]),
       single := Perform(op, w.single, w.now).0)
  }

  function Step(w: World, e: Event): World {
    match e
    case Begin(job) => if w.phase.Done? then w.(job := job, phase := Comparing) else w
    case WriterStep => StepWriter(w)
    case Enter(r) => if w.writeLocked || r in w.readers then w else w.(readers := w.readers[r := None])
    case Clone(r) => if r in w.readers then w.(readers := w.readers[r := Some(w.node.active)]) else w
    case Operate(r, op) => if CanOperate(w, r) then RunOperation(w, w.readers[r].value, op) else w
    case Leave(r) => w.(readers := w.readers - {r})
    case Pass(time) => w.(now := w.now + time)
  }

  function Run(start: World, events: seq<Event>): World {
    if events == [] then start else Step(Run(start, events[..|events| - 1]), events[|events| - 1])
  }

  // ---- The lock ----

  predicate UnderLock(p: Phase) {
    p.Locked? || p.Snapped? || p.Committed? || p.Opened? || p.Imported? || p.Swapped?
  }

  predicate LockInv(w: World) {
    && (UnderLock(w.phase) ==> w.writeLocked)
    && (w.writeLocked ==> w.readers == map[])
    && (w.writeLocked ==> !w.phase.Comparing? && !w.phase.SameStore? && !w.phase.Locking? && !w.phase.Done?)
    && (forall r | r in w.readers :: w.readers[r] == None || w.readers[r] == Some(w.node.active))
    && SnapshotIsAll(w)
  }

  /** Where the data of a switch under way is: until the import, during it, and once the new store is active. */
  predicate SnapshotIsAll(w: World) {
    var target := w.job.config.history.backend;
    match w.phase
    case Snapped(snapshot) => snapshot == Current(w.node)
    case Committed(snapshot) => snapshot == Current(w.node)
    case Opened(snapshot) => snapshot == Current(w.node)
    case Imported(held, snapshot) =>
      && StoreOf(w.node.stores, target) == Import(held, snapshot)
      && (target != w.node.active ==> Current(w.node) == snapshot)
    case Swapped(held, snapshot) => w.node.active == target && Current(w.node) == Import(held, snapshot)
    case _ => true
  }

  predicate Resting(w: World) {
    w.phase.Done? && !w.writeLocked && w.readers == map[]
  }

  lemma LockStep(w: World, e: Event)
    requires LockInv(w)
    ensures LockInv(Step(w, e))
  {}

  /**
   In every interleaving, whatever the operations do: a client always runs on the active
   store, none runs while a switch is under way, the snapshot is all the active store holds
   until the import, and what clients run on after the swap is the import of all that into
   what the new store held.  So each operation lands before the snapshot or on the new store.
   */
  lemma {:induction false} NoOperationIsMissed(start: World, events: seq<Event>)
    requires Resting(start)
    ensures var w := Run(start, events);
            && LockInv(w)
            && (forall r | CanOperate(w, r) :: w.readers[r].value == w.node.active && !w.writeLocked)
            && SnapshotIsAll(w)
  {
    if events != [] {
      NoOperationIsMissed(start, events[..|events| - 1]);
      LockStep(Run(start, events[..|events| - 1]), events[|events| - 1]);
    }
  }

  /** From the swap to the end of the replacement no store changes any more. */
  lemma SwappedStoresStay(w: World, e: Event)
    requires LockInv(w) && (w.phase.Swapped? || (w.writeLocked && !UnderLock(w.phase)))
    ensures Step(w, e).node.stores == w.node.stores && Step(w, e).node.active == w.node.active
  {}

  // ---- One store: sessions and tokens ----

  /** Between the import and the swap the new store already leads. */
  function Lead(w: World): Backend {
    if w.phase.Imported? then w.job.config.history.backend else w.node.active
  }

  function Leading(w: World): Store {
    StoreOf(w.node.stores, Lead(w))
  }

  ghost predicate SeenAlike(a: Store, b: Store, now: int) {
    SessionsSame(a.sessions, b.sessions, now) && TokensSame(a.tokens, b.tokens, now)
  }

  /**
   Every copy left behind has only older versions of what the leading store has, all records are tidy, and
   each id stands for one session wherever it is held.
   */
  ghost predicate Inv(w: World, scheme: Scheme) {
    && LockInv(w)
    && (forall b | b in w.node.stores :: KeptIn(w.node.stores[b], Leading(w), scheme, w.now))
    && Tidy(w.single.limits, w.now)
    && Proper(w.single.sessions, scheme)
    && SeenAlike(w.single, Leading(w), w.now)
    && SeenAlike(w.single, Current(w.node), w.now)
  }

  ghost predicate KeptIn(copy: Store, leading: Store, scheme: Scheme, now: int) {
    LeftBehind(copy, leading, now) && Tidy(copy.limits, now) && Proper(copy.sessions, scheme)
  }

  predicate Operates(w: World, e: Event) {
    e.Operate? && CanOperate(w, e.reader)
  }

  /** An id stands for one session, and a rotation stores the successor under the keyed hash of the predecessor. */
  predicate Follows(w: World, e: Event, scheme: Scheme) {
    Operates(w, e) ==>
      && FollowsScheme(e.operation, scheme)
      && (e.operation.Create? ==>
            var op := e.operation;
            Inserts(w.single.sessions, op.record, op.replaced, op.lifetime, w.now)
            ==> BirthOf(op.record) == scheme.birth(op.id))
  }

  /** The single store and the active one agree on the id of a purged session that a logout or a create names. */
  predicate Agrees(w: World, e: Event) {
    Operates(w, e) ==> AgreeOn(e.operation, w.single.sessions, Current(w.node).sessions, w.now)
  }

  /** An event agrees unless it names an id whose session only one of the two stores has purged. */
  lemma SeenOrUnknownAgrees(w: World, e: Event, scheme: Scheme)
    requires Inv(w, scheme)
    requires Operates(w, e) && (e.operation.RevokeFamily? || e.operation.Create?) ==>
               || SeenAs(w.single.sessions, e.operation.id, w.now) != Gone
               || (e.operation.id !in w.single.sessions && e.operation.id !in Current(w.node).sessions)
    ensures Agrees(w, e)
  {
    if Operates(w, e) {
      SeenAgrees(e.operation, w.single.sessions, Current(w.node).sessions, w.now);
    }
  }

  lemma SeenAlikeTrans(a: Store, b: Store, c: Store, now: int)
    requires SeenAlike(a, b, now) && SeenAlike(b, c, now)
    ensures SeenAlike(a, c, now)
  {
    forall k ensures SeenAs(a.sessions, k, now) == SeenAs(c.sessions, k, now) {
      assert SeenAs(a.sessions, k, now) == SeenAs(b.sessions, k, now) == SeenAs(c.sessions, k, now);
    }
    forall k ensures SeenToken(a.tokens, k, now) == SeenToken(c.tokens, k, now) {
      assert SeenToken(a.tokens, k, now) == SeenToken(b.tokens, k, now) == SeenToken(c.tokens, k, now);
    }
  }

  lemma SeenAlikeLater(a: Store, b: Store, now: int, later: int)
    requires SeenAlike(a, b, now) && now <= later
    ensures SeenAlike(a, b, later)
  {
    SessionsSameLater(a.sessions, b.sessions, now, later);
    forall k ensures SeenToken(a.tokens, k, later) == SeenToken(b.tokens, k, later) {
      assert SeenToken(a.tokens, k, now) == SeenToken(b.tokens, k, now);
    }
  }

  lemma SeenAlikeSymm(a: Store, b: Store, now: int)
    requires SeenAlike(a, b, now)
    ensures SeenAlike(b, a, now)
  {
    forall k ensures SeenAs(b.sessions, k, now) == SeenAs(a.sessions, k, now) {
      assert SeenAs(a.sessions, k, now) == SeenAs(b.sessions, k, now);
    }
    forall k ensures SeenToken(b.tokens, k, now) == SeenToken(a.tokens, k, now) {
      assert SeenToken(a.tokens, k, now) == SeenToken(b.tokens, k, now);
    }
  }

  /** Importing into a copy left behind gives a store that the imported one is left behind of. */
  lemma ImportLeads(held: Store, snapshot: Store, scheme: Scheme, now: int)
    requires LeftBehind(held, snapshot, now) && Proper(held.sessions, scheme) && Proper(snapshot.sessions, scheme)
    ensures SeenAlike(Import(held, snapshot), snapshot, now)
    ensures LeftBehind(snapshot, Import(held, snapshot), now)
    ensures Proper(Import(held, snapshot).sessions, scheme)
  {
    LeftBehindIsAbsorbed(held, snapshot, scheme, now);
    SessionsImportedIff(held.sessions, snapshot.sessions, now);
    TokensImportedIff(held.tokens, snapshot.tokens, now);
    var after := Import(held, snapshot);
    forall k | k in after.sessions ensures BirthOf(after.sessions[k]) == scheme.birth(k) {
      MergeKeepsBirth(held.sessions, snapshot.sessions, scheme, k);
    }
    forall k | k in snapshot.sessions ensures Behind(snapshot.sessions[k], after.sessions[k]) {
      assert BirthOf(after.sessions[k]) == scheme.birth(k);
    }
    forall k ensures TokenAbsorbed(SeenToken(snapshot.tokens, k, now), SeenToken(after.tokens, k, now)) {
      assert SeenToken(after.tokens, k, now) == SeenToken(snapshot.tokens, k, now);
    }
  }

  lemma MergeKeepsBirth(held: Sessions, snapshot: Sessions, scheme: Scheme, k: Id)
    requires Proper(held, scheme) && Proper(snapshot, scheme) && k in ImportSessions(held, snapshot)
    ensures BirthOf(ImportSessions(held, snapshot)[k]) == scheme.birth(k)
  {
    assert k in held ==> BirthOf(held[k]) == scheme.birth(k);
    assert k in snapshot ==> BirthOf(snapshot[k]) == scheme.birth(k);
  }

  lemma EmptyIsKept(s: Store, scheme: Scheme, now: int)
    ensures KeptIn(EMPTY_STORE, s, scheme, now)
  {}

  lemma ImportKeepsCopies(w: World, scheme: Scheme, after: Store, other: Backend)
    requires Inv(w, scheme) && w.phase.Opened? && other in w.node.stores
    requires after == Import(StoreOf(w.node.stores, w.job.config.history.backend), w.phase.snapshot)
    ensures KeptIn(w.node.stores[other], after, scheme, w.now)
  {
    var held, snapshot := StoreOf(w.node.stores, w.job.config.history.backend), w.phase.snapshot;
    EmptyIsKept(snapshot, scheme, w.now);
    ImportLeads(held, snapshot, scheme, w.now);
    LeftBehindTrans(w.node.stores[other], snapshot, after, w.now);
  }

  lemma ImportIsKept(w: World, scheme: Scheme, after: Store)
    requires Inv(w, scheme) && w.phase.Opened?
    requires after == Import(StoreOf(w.node.stores, w.job.config.history.backend), w.phase.snapshot)
    ensures KeptIn(after, after, scheme, w.now) && SeenAlike(w.single, after, w.now)
  {
    var held, snapshot := StoreOf(w.node.stores, w.job.config.history.backend), w.phase.snapshot;
    EmptyIsKept(snapshot, scheme, w.now);
    ImportLeads(held, snapshot, scheme, w.now);
    ImportKeepsTidy(held.limits, snapshot.limits, w.now);
    LeftBehindSelf(after, w.now);
    SeenAlikeSymm(after, snapshot, w.now);
    SeenAlikeTrans(w.single, snapshot, after, w.now);
  }

  lemma ImportKeeps(w: World, scheme: Scheme)
    requires Inv(w, scheme) && w.phase.Opened? && w.job.io.import_
    ensures Inv(StepWriter(w), scheme)
  {
    var next := StepWriter(w);
    var after := Import(StoreOf(w.node.stores, w.job.config.history.backend), w.phase.snapshot);
    LockStep(w, WriterStep);
    assert Leading(next) == after;
    ImportIsKept(w, scheme, after);
    forall b | b in next.node.stores ensures KeptIn(next.node.stores[b], after, scheme, w.now) {
      if b != w.job.config.history.backend {
        ImportKeepsCopies(w, scheme, after, b);
      }
    }
  }

  lemma WriterKeeps(w: World, scheme: Scheme)
    requires Inv(w, scheme)
    ensures Inv(StepWriter(w), scheme)
  {
    LockStep(w, WriterStep);
    if w.phase.Opened? && w.job.io.import_ {
      ImportKeeps(w, scheme);
    } else if w.phase.Committed? && w.job.io.open {
      var next := StepWriter(w);
      EmptyIsKept(Leading(w), scheme, w.now);
      assert Leading(next) == Leading(w);
      forall b | b in next.node.stores ensures KeptIn(next.node.stores[b], Leading(next), scheme, w.now) {
        assert b in w.node.stores || next.node.stores[b] == EMPTY_STORE;
      }
    } else {
      assert Leading(StepWriter(w)) == Leading(w);
    }
  }

  lemma InsertsProper(w: World, e: Event, scheme: Scheme)
    requires Inv(w, scheme) && Operates(w, e) && Follows(w, e, scheme) && e.operation.Create?
    requires var op := e.operation; Inserts(Current(w.node).sessions, op.record, op.replaced, op.lifetime, w.now)
    ensures BirthOf(e.operation.record) == scheme.birth(e.operation.id)
  {
    var op := e.operation;
    if op.replaced.Some? {
      ReplaceAlike(op.replaced.value, op.record, op.lifetime, w.now, w.single.sessions, Current(w.node).sessions);
    }
  }

  lemma OperateKeepsCopies(w: World, e: Event, scheme: Scheme, b: Backend, stores: map<Backend, Store>)
    requires Inv(w, scheme) && !w.phase.Imported? && b in stores && Operates(w, e) && Follows(w, e, scheme)
    requires stores == w.node.stores[w.node.active := Perform(e.operation, Current(w.node), w.now).0]
    ensures KeptIn(stores[b], stores[w.node.active], scheme, w.now)
  {
    var op, before := e.operation, Current(w.node);
    var after := Perform(op, before, w.now).0;
    EmptyIsKept(before, scheme, w.now);
    if b == w.node.active {
      if op.Create? && Inserts(before.sessions, op.record, op.replaced, op.lifetime, w.now) {
        InsertsProper(w, e, scheme);
      }
      LeftBehindSelf(after, w.now);
      OperationsKeepTidy(op, w.now, before);
      OperationsKeepProper(op, scheme, w.now, before);
    } else {
      OperationsAdvance(op, w.now, before);
      LeftBehindTrans(stores[b], before, after, w.now);
    }
  }

  lemma OperateActsAlikeIff(w: World, e: Event, scheme: Scheme)
    requires Inv(w, scheme) && KeepsExpiry(scheme) && Operates(w, e) && Follows(w, e, scheme)
    ensures ActsAlike(e.operation, w.now, w.single, Current(w.node)) <==> Agrees(w, e)
  {
    EmptyIsKept(w.single, scheme, w.now);
    SessionsActAlikeIff(e.operation, scheme, w.now, w.single, Current(w.node));
  }

  lemma OperateKeeps(w: World, e: Event, scheme: Scheme)
    requires Inv(w, scheme) && KeepsExpiry(scheme) && Operates(w, e) && Follows(w, e, scheme) && Agrees(w, e)
    ensures Inv(Step(w, e), scheme)
  {
    LockStep(w, e);
    assert w.readers[e.reader].value == w.node.active && !w.phase.Imported?;
    var next := RunOperation(w, w.node.active, e.operation);
    forall b | b in next.node.stores ensures KeptIn(next.node.stores[b], Leading(next), scheme, w.now) {
      OperateKeepsCopies(w, e, scheme, b, next.node.stores);
    }
    OperateActsAlikeIff(w, e, scheme);
    OperationsKeepTidy(e.operation, w.now, w.single);
    OperationsKeepProper(e.operation, scheme, w.now, w.single);
  }

  lemma PassKeeps(w: World, time: nat, scheme: Scheme)
    requires Inv(w, scheme)
    ensures Inv(w.(now := w.now + time), scheme)
  {
    var later := w.now + time;
    forall b | b in w.node.stores ensures KeptIn(w.node.stores[b], Leading(w), scheme, later) {
      LeftBehindLater(w.node.stores[b], Leading(w), w.now, later);
    }
    SeenAlikeLater(w.single, Leading(w), w.now, later);
    SeenAlikeLater(w.single, Current(w.node), w.now, later);
  }

  lemma StepKeeps(w: World, e: Event, scheme: Scheme)
    requires Inv(w, scheme) && KeepsExpiry(scheme) && Follows(w, e, scheme) && Agrees(w, e)
    ensures Inv(Step(w, e), scheme)
  {
    LockStep(w, e);
    match e
    case WriterStep => WriterKeeps(w, scheme);
    case Operate(_, _) => if Operates(w, e) { OperateKeeps(w, e, scheme); }
    case Pass(time) => PassKeeps(w, time, scheme);
    case _ =>
  }

  predicate AllFollow(start: World, events: seq<Event>, scheme: Scheme) {
    events == [] ||
    (&& AllFollow(start, events[..|events| - 1], scheme)
     && Follows(Run(start, events[..|events| - 1]), events[|events| - 1], scheme))
  }

  predicate AllAgree(start: World, events: seq<Event>) {
    events == [] ||
    (AllAgree(start, events[..|events| - 1]) && Agrees(Run(start, events[..|events| - 1]), events[|events| - 1]))
  }

  /** A node at rest whose other backends hold at most what earlier switches left there. */
  ghost predicate Start(w: World, scheme: Scheme) {
    && Resting(w)
    && w.single == Current(w.node)
    && KeepsExpiry(scheme)
    && KeptIn(w.single, w.single, scheme, w.now)
    && forall b | b in w.node.stores :: KeptIn(w.node.stores[b], Current(w.node), scheme, w.now)
  }

  /**
   Through any number of switches, back and forth, with failures at any point and with the operations of the
   clients beside them, rotations, their repeats and the successor lookup included, sessions and consumed logout
   tokens are seen as they would be had there never been a switch.
   */
  lemma {:induction false} OneSessionStore(start: World, events: seq<Event>, scheme: Scheme)
    requires Start(start, scheme) && AllFollow(start, events, scheme) && AllAgree(start, events)
    ensures var w := Run(start, events); SeenAlike(w.single, Current(w.node), w.now)
    ensures Inv(Run(start, events), scheme)
  {
    if events != [] {
      OneSessionStore(start, events[..|events| - 1], scheme);
      StepKeeps(Run(start, events[..|events| - 1]), events[|events| - 1], scheme);
    }
  }

  /** Each operation of the run answers as on the single store, and leaves what is seen as it is there. */
  ghost predicate AlwaysAlike(start: World, events: seq<Event>) {
    events == [] ||
    (&& AlwaysAlike(start, events[..|events| - 1])
     && var (w, e) := (Run(start, events[..|events| - 1]), events[|events| - 1]);
        Operates(w, e) ==> ActsAlike(e.operation, w.now, w.single, StoreOf(w.node.stores, w.readers[e.reader].value)))
  }

  /** The condition is exact: the clients see one session store all along if and only if every operation agreed. */
  lemma {:induction false} OneSessionStoreIff(start: World, events: seq<Event>, scheme: Scheme)
    requires Start(start, scheme) && AllFollow(start, events, scheme)
    ensures AlwaysAlike(start, events) <==> AllAgree(start, events)
  {
    if events != [] {
      var before, e := events[..|events| - 1], events[|events| - 1];
      OneSessionStoreIff(start, before, scheme);
      if AllAgree(start, before) {
        OneSessionStore(start, before, scheme);
        NoOperationIsMissed(start, before);
        if Operates(Run(start, before), e) {
          OperateActsAlikeIff(Run(start, before), e, scheme);
        }
      }
    }
  }

  // ---- One store: failed logins ----

  ghost predicate LimitsInv(w: World) {
    && LimitsSame(w.single.limits, Leading(w).limits, w.now)
    && LimitsSame(w.single.limits, Current(w.node).limits, w.now)
  }

  /** The import of a switch, if this is the step that makes it, is invisible to the limiter. */
  predicate Clean(w: World, e: Event) {
    e.WriterStep? && w.phase.Opened? && w.job.io.import_ ==>
      LimitsAbsorbed(StoreOf(w.node.stores, w.job.config.history.backend).limits, w.phase.snapshot.limits, w.now)
  }

  predicate AllClean(start: World, events: seq<Event>) {
    events == [] ||
    (AllClean(start, events[..|events| - 1]) && Clean(Run(start, events[..|events| - 1]), events[|events| - 1]))
  }

  lemma LimitsSameVia(a: Limits, b: Limits, c: Limits, now: int)
    requires LimitsSame(a, b, now)
    ensures LimitsSame(a, c, now) <==> LimitsSame(c, b, now)
  {
    if LimitsSame(a, c, now) {
      forall k ensures SeenOf(c, k, now) == SeenOf(b, k, now) {
        assert SeenOf(a, k, now) == SeenOf(b, k, now) && SeenOf(a, k, now) == SeenOf(c, k, now);
      }
    }
    if LimitsSame(c, b, now) {
      forall k ensures SeenOf(a, k, now) == SeenOf(c, k, now) {
        assert SeenOf(a, k, now) == SeenOf(b, k, now) && SeenOf(c, k, now) == SeenOf(b, k, now);
      }
    }
  }

  /** The import step keeps what the limiter sees exactly when it is clean. */
  lemma ImportShowsIff(w: World, scheme: Scheme)
    requires Inv(w, scheme) && LimitsInv(w) && w.phase.Opened? && w.job.io.import_
    ensures LimitsSame(w.single.limits, Leading(StepWriter(w)).limits, w.now) <==> Clean(w, WriterStep)
  {
    var held, snapshot := StoreOf(w.node.stores, w.job.config.history.backend).limits, w.phase.snapshot.limits;
    LimitsImportedIff(held, snapshot, w.now);
    LimitsSameVia(w.single.limits, snapshot, ImportLimits(held, snapshot), w.now);
  }

  lemma WriterKeepsLimits(w: World, scheme: Scheme)
    requires Inv(w, scheme) && LimitsInv(w) && Clean(w, WriterStep)
    ensures LimitsInv(StepWriter(w))
  {
    if w.phase.Opened? && w.job.io.import_ {
      ImportShowsIff(w, scheme);
    } else {
      assert Leading(StepWriter(w)) == Leading(w);
    }
  }

  lemma OperateKeepsLimits(w: World, r: Reader, op: Operation, scheme: Scheme)
    requires Inv(w, scheme) && LimitsInv(w) && CanOperate(w, r)
    ensures LimitsInv(RunOperation(w, w.readers[r].value, op))
  {
    EmptyIsKept(w.single, scheme, w.now);
    AccountsActAlike(op, w.now, w.single, Current(w.node));
  }

  lemma PassKeepsLimits(w: World, time: nat)
    requires LimitsInv(w)
    ensures LimitsInv(w.(now := w.now + time))
  {
    SameLimitsLater(w.single.limits, Leading(w).limits, w.now, w.now + time);
    SameLimitsLater(w.single.limits, Current(w.node).limits, w.now, w.now + time);
  }

  lemma LimitsStep(w: World, e: Event, scheme: Scheme)
    requires Inv(w, scheme) && LimitsInv(w) && Clean(w, e)
    ensures LimitsInv(Step(w, e))
  {
    match e
    case WriterStep => WriterKeepsLimits(w, scheme);
    case Operate(r, op) => if CanOperate(w, r) { OperateKeepsLimits(w, r, op, scheme); }
    case Pass(time) => PassKeepsLimits(w, time);
    case _ =>
  }

  /**
   If every switch met its condition, authentication sees one store: what it would see had
   there never been a switch, failed logins counted, checked and cleared included.
   */
  lemma {:induction false} OneStore(start: World, events: seq<Event>, scheme: Scheme)
    requires Start(start, scheme) && AllFollow(start, events, scheme)
    requires AllAgree(start, events) && AllClean(start, events)
    ensures var w := Run(start, events); Same(w.single, Current(w.node), w.now)
    ensures LimitsInv(Run(start, events))
  {
    OneSessionStore(start, events, scheme);
    if events != [] {
      OneStore(start, events[..|events| - 1], scheme);
      OneSessionStore(start, events[..|events| - 1], scheme);
      LimitsStep(Run(start, events[..|events| - 1]), events[|events| - 1], scheme);
    }
  }

  /** After every event of the run the leading store shows what the single store shows. */
  ghost predicate AlwaysOne(start: World, events: seq<Event>) {
    && (var w := Run(start, events); Same(w.single, Leading(w), w.now))
    && (events == [] || AlwaysOne(start, events[..|events| - 1]))
  }

  /** The condition is exact: authentication sees one store all along if and only if every switch met it. */
  lemma {:induction false} OneStoreIff(start: World, events: seq<Event>, scheme: Scheme)
    requires Start(start, scheme) && AllFollow(start, events, scheme) && AllAgree(start, events)
    ensures AlwaysOne(start, events) <==> AllClean(start, events)
  {
    OneSessionStore(start, events, scheme);
    if AllClean(start, events) {
      OneStore(start, events, scheme);
    }
    if events != [] {
      OneStoreIff(start, events[..|events| - 1], scheme);
      if AllClean(start, events[..|events| - 1]) && !Clean(Run(start, events[..|events| - 1]), events[|events| - 1]) {
        OneStore(start, events[..|events| - 1], scheme);
        OneSessionStore(start, events[..|events| - 1], scheme);
        ImportShowsIff(Run(start, events[..|events| - 1]), scheme);
      }
    }
  }

  /** Every answer about sessions and tokens is that of the single store, and under the condition every answer is. */
  lemma AnswersAgree(start: World, events: seq<Event>, r: Reader, op: Operation, scheme: Scheme)
    requires Start(start, scheme) && AllFollow(start, events, scheme) && AllAgree(start, events)
    requires CanOperate(Run(start, events), r) && Follows(Run(start, events), Operate(r, op), scheme)
    requires Agrees(Run(start, events), Operate(r, op))
    ensures var w := Run(start, events);
            !OnAccounts(op) || AllClean(start, events) ==>
              Perform(op, StoreOf(w.node.stores, w.readers[r].value), w.now).1 == Perform(op, w.single, w.now).1
  {
    OneSessionStore(start, events, scheme);
    NoOperationIsMissed(start, events);
    var w := Run(start, events);
    EmptyIsKept(w.single, scheme, w.now);
    OperateActsAlikeIff(w, Operate(r, op), scheme);
    if AllClean(start, events) {
      OneStore(start, events, scheme);
      AccountsActAlike(op, w.now, w.single, Current(w.node));
    }
  }

  /**
   A completed switch is invisible if and only if the new backend held nothing that shows through and no
   failure repeats.
   */
  lemma SwitchInvisibleIff(n: Node, job: Job, now: int)
    requires Succeeds(n, job) && n.config.history != job.config.history
    ensures Same(Current(Replace(n, job).0), Current(n), now)
            <==> Absorbed(StoreOf(n.stores, job.config.history.backend), Current(n), now)
  {
    SuccessMovesTheStore(n, job);
    ImportInvisibleIff(StoreOf(n.stores, job.config.history.backend), Current(n), now);
  }

  /** Even a switch that stays on its backend, as a new retention does, collapses the failures of one second. */
  lemma SameBackendShowsIff(n: Node, job: Job, now: int)
    requires Succeeds(n, job) && n.config.history != job.config.history
    requires job.config.history.backend == n.active && Tidy(Current(n).limits, now)
    ensures Same(Current(Replace(n, job).0), Current(n), now)
            <==> forall k | k in Current(n).limits :: !Repeats(Recent(Current(n).limits[k].failures, now))
  {
    SwitchInvisibleIff(n, job, now);
    var s := Current(n);
    forall k | k in s.limits
      ensures LimitAbsorbed(RecordOf(s.limits, k), s.limits[k], now) <==> !Repeats(Recent(s.limits[k].failures, now))
    {
      assert TidyRecord(s.limits[k], now);
      RecentAscending(s.limits[k].failures, now);
      IncreasingIffNoRepeat(Recent(s.limits[k].failures, now));
    }
  }
}
