/**
 Replacement of the runtime configuration in src/state.rs, with the switch of
 the history backend that it may contain.

 `Advance` is one step of commit_config_replacement; `Replace` runs the steps to
 the end, and class `AppState` is the code, proved against it.  `HistoryRuns`
 interleaves the same steps with authentication clients.
 */
module HistorySwitch {
  import opened Wrappers
  import opened AuthStore

  type Backend = string

  datatype HistoryConfig = HistoryConfig(backend: Backend, retention: nat)

  datatype Config = Config(history: HistoryConfig, cascadeDefault: bool, oidc: string, publicUrl: string, other: string)

  /** `commits` and `rollbacks` count the runs of the caller's two closures. */
  datatype Node = Node(
    config: Config,
    active: Backend,
    stores: map<Backend, Store>,
    historyGeneration: nat,
    oidcGeneration: nat,
    cascadeEnabled: bool,
    activityCache: set<nat>,
    commits: nat,
    rollbacks: nat)

  function StoreOf(stores: map<Backend, Store>, b: Backend): Store {
    if b in stores then stores[b] else EMPTY_STORE
  }

  function Current(n: Node): Store {
    StoreOf(n.stores, n.active)
  }

  /** Which of the fallible calls succeed. */
  datatype Outcomes = Outcomes(snapshot: bool, commit: bool, rollback: bool, open: bool, import_: bool)

  datatype Job = Job(config: Config, updateCascade: bool, io: Outcomes)

  datatype Cause = SnapshotFailed | CommitFailed | OpenFailed | ImportFailed

  datatype Failure = Failure(cause: Cause, rollbackFailed: bool)

  /** Imported and Swapped remember what the target held before the import, which the code does not. */
  datatype Phase =
    | Comparing
    | SameStore
    | Locking
    | Locked
    | Snapped(snapshot: Store)
    | Committed(snapshot: Store)
    | Opened(snapshot: Store)
    | Imported(held: Store, snapshot: Store)
    | Swapped(held: Store, snapshot: Store)
    | Publishing
    | CascadeSet
    | Configured(oidcChanged: bool)
    | Done(result: Result<(), Failure>)

  function Rank(p: Phase): nat {
    match p
    case Comparing => 12
    case SameStore => 11
    case Locking => 11
    case Locked => 10
    case Snapped(_) => 9
    case Committed(_) => 8
    case Opened(_) => 7
    case Imported(_, _) => 6
    case Swapped(_, _) => 5
    case Publishing => 4
    case CascadeSet => 3
    case Configured(_) => 2
    case Done(_) => 0
  }

  function OidcChanged(old_: Config, new_: Config): bool {
    old_.oidc != new_.oidc || old_.publicUrl != new_.publicUrl
  }

  /** rollback_after: the rollback closure runs, and the error says whether it failed. */
  function RollBack(n: Node, job: Job, cause: Cause): (Node, Phase) {
    (n.(rollbacks := n.rollbacks + 1), Done(Err(Failure(cause, !job.io.rollback))))
  }

  function Advance(n: Node, job: Job, p: Phase): (Node, Phase) {
    var target := job.config.history.backend;
    match p
    case Comparing => (n, if n.config.history == job.config.history then SameStore else Locking)
    case SameStore =>
      var committed := n.(commits := n.commits + 1);
      if job.io.commit then (committed, Publishing) else RollBack(committed, job, CommitFailed)
    case Locking => (n, Locked)
    case Locked =>
      if job.io.snapshot then (n, Snapped(Current(n))) else (n, Done(Err(Failure(SnapshotFailed, false))))
    case Snapped(snapshot) =>
      var committed := n.(commits := n.commits + 1);
      if job.io.commit then (committed, Committed(snapshot)) else RollBack(committed, job, CommitFailed)
    case Committed(snapshot) =>
      if job.io.open then (n.(stores := n.stores[target := StoreOf(n.stores, target)]), Opened(snapshot))
      else RollBack(n, job, OpenFailed)
    case Opened(snapshot) =>
      var held := StoreOf(n.stores, target);
      if job.io.import_ then (n.(stores := n.stores[target := Import(held, snapshot)]), Imported(held, snapshot))
      else RollBack(n, job, ImportFailed)
    case Imported(held, snapshot) => (n.(active := target), Swapped(held, snapshot))
    case Swapped(_, _) => (n.(historyGeneration := n.historyGeneration + 1, activityCache := {}), Publishing)
    case Publishing =>
      (if job.updateCascade then n.(cascadeEnabled := job.config.cascadeDefault) else n, CascadeSet)
    case CascadeSet => (n.(config := job.config), Configured(OidcChanged(n.config, job.config)))
    case Configured(changed) =>
      (if changed then n.(oidcGeneration := n.oidcGeneration + 1) else n, Done(Ok(())))
    case Done(_) => (n, p)
  }

  function Finish(n: Node, job: Job, p: Phase): (Node, Result<(), Failure>)
    decreases Rank(p)
  {
    if p.Done? then (n, p.result)
    else
      var (next, phase) := Advance(n, job, p);
      Finish(next, job, phase)
  }

  function Replace(n: Node, job: Job): (Node, Result<(), Failure>) {
    Finish(n, job, Comparing)
  }

  function Applied(n: Node, cfg: Config, updateCascade: bool): Node {
    n.(config := cfg,
       cascadeEnabled := if updateCascade then cfg.cascadeDefault else n.cascadeEnabled,
       oidcGeneration := n.oidcGeneration + if OidcChanged(n.config, cfg) then 1 else 0)
  }

  lemma {:induction false} FinishStep(n: Node, job: Job, p: Phase)
    requires !p.Done?
    ensures Finish(n, job, p) == Finish(Advance(n, job, p).0, job, Advance(n, job, p).1)
  {}

  lemma {:induction false} PublishingApplies(n: Node, job: Job)
    ensures Finish(n, job, Publishing) == (Applied(n, job.config, job.updateCascade), Ok(()))
  {
    FinishStep(n, job, Publishing);
    var a := Advance(n, job, Publishing).0;
    FinishStep(a, job, CascadeSet);
    var changed := OidcChanged(a.config, job.config);
    FinishStep(a.(config := job.config), job, Configured(changed));
  }

  function Filled(n: Node, cfg: Config, snapshot: Store): Node {
    var b := cfg.history.backend;
    n.(stores := n.stores[b := Import(StoreOf(n.stores, b), snapshot)],
       active := b,
       historyGeneration := n.historyGeneration + 1,
       activityCache := {})
  }

  /** From the import on nothing fails any more. */
  lemma {:induction false} AfterImport(n: Node, job: Job, held: Store, snapshot: Store)
    ensures var used := n.(active := job.config.history.backend,
                           historyGeneration := n.historyGeneration + 1, activityCache := {});
            Finish(n, job, Imported(held, snapshot)) == (Applied(used, job.config, job.updateCascade), Ok(()))
  {
    FinishStep(n, job, Imported(held, snapshot));
    var swapped := n.(active := job.config.history.backend);
    FinishStep(swapped, job, Swapped(held, snapshot));
    PublishingApplies(swapped.(historyGeneration := n.historyGeneration + 1, activityCache := {}), job);
  }

  lemma {:induction false} AfterOpenFails(n: Node, job: Job, snapshot: Store)
    requires !job.io.import_
    ensures Finish(n, job, Opened(snapshot))
         == (n.(rollbacks := n.rollbacks + 1), Err(Failure(ImportFailed, !job.io.rollback)))
  {
    FinishStep(n, job, Opened(snapshot));
  }

  /** The new backend after the import, before it is active. */
  function Taken(n: Node, cfg: Config, snapshot: Store): Node {
    n.(stores := n.stores[cfg.history.backend := Import(StoreOf(n.stores, cfg.history.backend), snapshot)])
  }

  lemma {:induction false} AfterOpenTakes(n: Node, job: Job, snapshot: Store, held: Store, taken: Node)
    requires job.io.import_ && held == StoreOf(n.stores, job.config.history.backend)
    requires taken == Taken(n, job.config, snapshot)
    ensures Finish(n, job, Opened(snapshot)) == Finish(taken, job, Imported(held, snapshot))
  {
    FinishStep(n, job, Opened(snapshot));
  }

  lemma {:induction false} AfterOpen(n: Node, job: Job, snapshot: Store)
    ensures Finish(n, job, Opened(snapshot)) ==
              if !job.io.import_ then (n.(rollbacks := n.rollbacks + 1), Err(Failure(ImportFailed, !job.io.rollback)))
              else (Applied(Filled(n, job.config, snapshot), job.config, job.updateCascade), Ok(()))
  {
    if job.io.import_ {
      var held, taken := StoreOf(n.stores, job.config.history.backend), Taken(n, job.config, snapshot);
      AfterOpenTakes(n, job, snapshot, held, taken);
      AfterImport(taken, job, held, snapshot);
    } else {
      AfterOpenFails(n, job, snapshot);
    }
  }

  lemma {:induction false} AfterLock(n: Node, job: Job)
    ensures Finish(n, job, Locked) ==
              if !job.io.snapshot then (n, Err(Failure(SnapshotFailed, false)))
              else if !job.io.commit then
                (n.(commits := n.commits + 1, rollbacks := n.rollbacks + 1),
                 Err(Failure(CommitFailed, !job.io.rollback)))
              else if !job.io.open then
                (n.(commits := n.commits + 1, rollbacks := n.rollbacks + 1),
                 Err(Failure(OpenFailed, !job.io.rollback)))
              else
                var b := job.config.history.backend;
                Finish(n.(commits := n.commits + 1, stores := n.stores[b := StoreOf(n.stores, b)]),
                       job, Opened(Current(n)))
  {
    FinishStep(n, job, Locked);
    if job.io.snapshot {
      FinishStep(n, job, Snapped(Current(n)));
      if job.io.commit {
        FinishStep(n.(commits := n.commits + 1), job, Committed(Current(n)));
      }
    }
  }

  /** A replacement that keeps the history settings is committed and published. */
  lemma {:induction false} WithinOneStore(n: Node, job: Job)
    requires n.config.history == job.config.history
    ensures var committed := n.(commits := n.commits + 1);
            Replace(n, job) ==
              if job.io.commit then (Applied(committed, job.config, job.updateCascade), Ok(()))
              else (committed.(rollbacks := n.rollbacks + 1), Err(Failure(CommitFailed, !job.io.rollback)))
  {
    FinishStep(n, job, Comparing);
    FinishStep(n, job, SameStore);
    PublishingApplies(n.(commits := n.commits + 1), job);
  }

  class AppState {
    var config: Config
    var active: Backend
    var stores: map<Backend, Store>
    var historyGeneration: nat
    var oidcGeneration: nat
    var cascadeEnabled: bool
    var activityCache: set<nat>
    var commits: nat
    var rollbacks: nat

    ghost function State(): Node
      reads this
    {
      Node(config, active, stores, historyGeneration, oidcGeneration, cascadeEnabled, activityCache, commits, rollbacks)
    }

    /** `armed` says that the closure has not been taken yet; it never is afterwards, so a second call runs nothing. */
    method RollbackAfter(cause: Cause, armed: bool, rollback: bool) returns (failure: Failure, stillArmed: bool)
      modifies this`rollbacks
      ensures !stillArmed
      ensures failure == Failure(cause, armed && !rollback)
      ensures State() == old(State()).(rollbacks := old(rollbacks) + if armed then 1 else 0)
    {
      stillArmed := false;
      if !armed {
        return Failure(cause, false), stillArmed;
      }
      rollbacks := rollbacks + 1;
      failure := Failure(cause, !rollback);
    }

    method ApplyRuntimeConfig(cfg: Config, updateCascade: bool)
      modifies this
      ensures State() == Applied(old(State()), cfg, updateCascade)
    {
      if updateCascade {
        cascadeEnabled := cfg.cascadeDefault;
      }
      var changed := config.oidc != cfg.oidc || config.publicUrl != cfg.publicUrl;
      config := cfg;
      if changed {
        oidcGeneration := oidcGeneration + 1;
      }
    }

    method CommitConfigReplacement(cfg: Config, updateCascade: bool, io: Outcomes) returns (result: Result<(), Failure>)
      modifies this
      ensures (State(), result) == Replace(old(State()), Job(cfg, updateCascade, io))
    {
      if config.history != cfg.history {
        result := SwitchStore(cfg, updateCascade, io);
        return;
      }
      WithinOneStore(State(), Job(cfg, updateCascade, io));
      commits := commits + 1;
      if !io.commit {
        var failure, _ := RollbackAfter(CommitFailed, true, io.rollback);
        return Err(failure);
      }
      ApplyRuntimeConfig(cfg, updateCascade);
      return Ok(());
    }

    /** The rest of the function, under the write lock of the transition. */
    method SwitchStore(cfg: Config, updateCascade: bool, io: Outcomes) returns (result: Result<(), Failure>)
      modifies this
      ensures (State(), result) == Finish(old(State()), Job(cfg, updateCascade, io), Locked)
    {
      AfterLock(State(), Job(cfg, updateCascade, io));
      if !io.snapshot {
        return Err(Failure(SnapshotFailed, false));
      }
      var snapshot := if active in stores then stores[active] else EMPTY_STORE;
      commits := commits + 1;
      if !io.commit {
        var failure, _ := RollbackAfter(CommitFailed, true, io.rollback);
        return Err(failure);
      }
      if !io.open {
        var failure, _ := RollbackAfter(OpenFailed, true, io.rollback);
        return Err(failure);
      }
      var target := cfg.history.backend;
      stores := stores[target := if target in stores then stores[target] else EMPTY_STORE];
      result := FillStore(cfg, updateCascade, io, snapshot);
    }

    method FillStore(cfg: Config, updateCascade: bool, io: Outcomes, snapshot: Store)
      returns (result: Result<(), Failure>)
      requires cfg.history.backend in stores
      modifies this
      ensures (State(), result) == Finish(old(State()), Job(cfg, updateCascade, io), Opened(snapshot))
    {
      AfterOpen(State(), Job(cfg, updateCascade, io), snapshot);
      if !io.import_ {
        var failure, _ := RollbackAfter(ImportFailed, true, io.rollback);
        return Err(failure);
      }
      UseStore(cfg, snapshot);
      ApplyRuntimeConfig(cfg, updateCascade);
      return Ok(());
    }

    method UseStore(cfg: Config, snapshot: Store)
      requires cfg.history.backend in stores
      modifies this
      ensures State() == Filled(old(State()), cfg, snapshot)
    {
      var target := cfg.history.backend;
      stores := stores[target := Import(stores[target], snapshot)];
      active := target;
      historyGeneration := historyGeneration + 1;
      activityCache := {};
    }
  }

  // ---- What one replacement does ----

  predicate CommitAttempted(n: Node, job: Job) {
    n.config.history == job.config.history || job.io.snapshot
  }

  predicate Succeeds(n: Node, job: Job) {
    job.io.commit && (n.config.history == job.config.history || (job.io.snapshot && job.io.open && job.io.import_))
  }

  lemma {:induction false} ReplaceSplits(n: Node, job: Job)
    ensures Replace(n, job) ==
              if n.config.history != job.config.history then Finish(n, job, Locked)
              else if job.io.commit then
                (Applied(n.(commits := n.commits + 1), job.config, job.updateCascade), Ok(()))
              else (n.(commits := n.commits + 1, rollbacks := n.rollbacks + 1),
                    Err(Failure(CommitFailed, !job.io.rollback)))
  {
    FinishStep(n, job, Comparing);
    if n.config.history != job.config.history {
      FinishStep(n, job, Locking);
    } else {
      FinishStep(n, job, SameStore);
      if job.io.commit {
        PublishingApplies(n.(commits := n.commits + 1), job);
      }
    }
  }

  /**
   A failed replacement leaves the active store, what it holds, the configuration and both
   generations alone, and has run the rollback exactly once if the commit was attempted
   and not at all otherwise; a successful one never runs it.
   */
  lemma {:induction false} FailureKeepsTheOldStore(n: Node, job: Job)
    ensures var (next, result) := Replace(n, job);
            && (result.Ok? <==> Succeeds(n, job))
            && next.commits == n.commits + (if CommitAttempted(n, job) then 1 else 0)
            && next.rollbacks == n.rollbacks + (if CommitAttempted(n, job) && result.Err? then 1 else 0)
            && (result.Err? ==>
                  && next.active == n.active && Current(next) == Current(n)
                  && next.config == n.config && next.cascadeEnabled == n.cascadeEnabled
                  && next.historyGeneration == n.historyGeneration && next.oidcGeneration == n.oidcGeneration)
  {
    ReplaceSplits(n, job);
    if n.config.history != job.config.history {
      AfterLock(n, job);
      if job.io.snapshot && job.io.commit && job.io.open {
        var b := job.config.history.backend;
        var ready := n.(commits := n.commits + 1, stores := n.stores[b := StoreOf(n.stores, b)]);
        AfterOpen(ready, job, Current(n));
      }
    }
  }

  /**
   A successful switch makes the new backend active, holding what it held before merged with
   everything the old one holds; every other backend is untouched.
   */
  lemma {:induction false} SuccessMovesTheStore(n: Node, job: Job)
    requires Succeeds(n, job) && n.config.history != job.config.history
    ensures var next := Replace(n, job).0;
            var b := job.config.history.backend;
            && next.config == job.config && next.active == b
            && Current(next) == Import(StoreOf(n.stores, b), Current(n))
            && (forall other | other != b :: StoreOf(next.stores, other) == StoreOf(n.stores, other))
            && next.historyGeneration == n.historyGeneration + 1 && next.activityCache == {}
  {
    ReplaceSplits(n, job);
    AfterLock(n, job);
    var b := job.config.history.backend;
    AfterOpen(n.(commits := n.commits + 1, stores := n.stores[b := StoreOf(n.stores, b)]), job, Current(n));
  }

  /** Why a replacement fails, if it does: the first of its calls that fails, with what the rollback came to. */
  lemma {:induction false} ReplacementSaysWhy(n: Node, job: Job)
    ensures var switches := n.config.history != job.config.history;
            var undone := !job.io.rollback;
            Replace(n, job).1 ==
              if switches && !job.io.snapshot then Err(Failure(SnapshotFailed, false))
              else if !job.io.commit then Err(Failure(CommitFailed, undone))
              else if switches && !job.io.open then Err(Failure(OpenFailed, undone))
              else if switches && !job.io.import_ then Err(Failure(ImportFailed, undone))
              else Ok(())
  {
    ReplaceSplits(n, job);
    if n.config.history != job.config.history {
      AfterLock(n, job);
      var b := job.config.history.backend;
      AfterOpen(n.(commits := n.commits + 1, stores := n.stores[b := StoreOf(n.stores, b)]), job, Current(n));
    }
  }

  /**
   A replacement that succeeds publishes the whole configuration.  Prepared OIDC clients become obsolete exactly if
   the OIDC settings or the public URL are other than before, and the cascade takes its default exactly on request.
   */
  lemma {:induction false} ReplacementPublishes(n: Node, job: Job)
    requires Replace(n, job).1.Ok?
    ensures var next := Replace(n, job).0;
            && next.config == job.config
            && next.oidcGeneration == n.oidcGeneration
                 + (if job.config.oidc != n.config.oidc || job.config.publicUrl != n.config.publicUrl then 1 else 0)
            && next.cascadeEnabled == (if job.updateCascade then job.config.cascadeDefault else n.cascadeEnabled)
            && next.rollbacks == n.rollbacks
  {
    ReplaceSplits(n, job);
    ReplacementSaysWhy(n, job);
    if n.config.history != job.config.history {
      AfterLock(n, job);
      var b := job.config.history.backend;
      AfterOpen(n.(commits := n.commits + 1, stores := n.stores[b := StoreOf(n.stores, b)]), job, Current(n));
    }
  }

  /** Without new history settings, or when it fails, a replacement leaves what every backend holds as it is. */
  lemma {:induction false} OnlySwitchesTouchHistory(n: Node, job: Job, b: Backend)
    requires n.config.history == job.config.history || Replace(n, job).1.Err?
    ensures var next := Replace(n, job).0;
            && next.active == n.active && StoreOf(next.stores, b) == StoreOf(n.stores, b)
            && next.historyGeneration == n.historyGeneration && next.activityCache == n.activityCache
  {
    ReplaceSplits(n, job);
    ReplacementSaysWhy(n, job);
    if n.config.history != job.config.history {
      AfterLock(n, job);
      var target := job.config.history.backend;
      AfterOpen(n.(commits := n.commits + 1, stores := n.stores[target := StoreOf(n.stores, target)]), job, Current(n));
    }
  }
}
