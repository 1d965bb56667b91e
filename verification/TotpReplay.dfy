/**
 Consumption of TOTP counters (src/auth/totp_replay.rs) beside the writer of
 token last-used times (src/auth/tokens.rs), over failed saves, crashes and
 restarts.  Both work on the settings file of `AuthSidecar` under one lock.
 */
module TotpReplay {
  import opened Wrappers
  import opened AuthSidecar

  /** Where the process dies inside a critical section, if it does. */
  datatype Fate = Survives | DiesAfterSave | DiesAfterReplace

  /** `memory` is None while no process runs; `accepted` are the counters reported as valid, in order. */
  datatype World = World(file: File, memory: Option<AuthConfig>, accepted: seq<nat>)

  /** `counter` is the time step the code belongs to, None for a wrong code. */
  datatype Event =
    | Consume(counter: Option<nat>, env: Env, writes: bool, fate: Fate)
    | TokenUsed(id: string, at: int, env: Env, writes: bool, fate: Fate)
    | Crash
    | Start(env: Env, seeded: AuthConfig, writes: bool)

  const TOKEN_LAST_USED_PERSIST_INTERVAL := 60

  predicate Spent(a: AuthConfig, counter: nat) {
    a.lastCounter.Some? && counter <= a.lastCounter.value
  }

  predicate UpdateDue(a: AuthConfig, id: string, at: int) {
    id in a.lastUsed ==> at - a.lastUsed[id] >= TOKEN_LAST_USED_PERSIST_INTERVAL
  }

  /** Save, then replace the configuration in memory; None when the save failed. */
  function Commit(w: World, updated: AuthConfig, env: Env, writes: bool, fate: Fate): World {
    var (file, result) := Save(env, w.file, updated, writes);
    if result.Err? then w.(file := file)
    else w.(file := file, memory := if fate.Survives? then Some(updated) else None)
  }

  predicate Saves(w: World, updated: AuthConfig, env: Env, writes: bool) {
    Save(env, w.file, updated, writes).1.Ok?
  }

  function Step(w: World, e: Event): World {
    match e
    case Consume(counter, env, writes, fate) =>
      if w.memory.None? || counter.None? || Spent(w.memory.value, counter.value) then w
      else
        var updated := w.memory.value.(lastCounter := Some(counter.value));
        var next := Commit(w, updated, env, writes, fate);
        if Saves(w, updated, env, writes) && fate.Survives? then next.(accepted := w.accepted + [counter.value])
        else next
    case TokenUsed(id, at, env, writes, fate) =>
      if w.memory.None? || !UpdateDue(w.memory.value, id, at) then w
      else Commit(w, w.memory.value.(lastUsed := w.memory.value.lastUsed[id := at]), env, writes, fate)
    case Crash => w.(memory := None)
    case Start(env, seeded, writes) =>
      if w.memory.Some? then w
      else
        var (file, result) := Load(env, w.file, seeded, writes);
        w.(file := file, memory := if result.Ok? then Some(result.value) else None)
  }

  function Run(start: AuthConfig, events: seq<Event>): World {
    if events == [] then World(Valid(start), None, [])
    else Step(Run(start, events[..|events| - 1]), events[|events| - 1])
  }

  class SettingsNode {
    const disk: AuthFile
    var auth: AuthConfig

    constructor (disk: AuthFile, auth: AuthConfig)
      ensures this.disk == disk && this.auth == auth
    {
      this.disk := disk;
      this.auth := auth;
    }

    /** consume_basic_totp, without a crash in between. */
    method ConsumeBasicTotp(counter: Option<nat>, env: Env, writes: bool) returns (result: Result<bool, Error>)
      modifies this, disk
      ensures var before := World(old(disk.file), Some(old(auth)), []);
              var after := Step(before, Consume(counter, env, writes, Survives));
              && disk.file == after.file && Some(auth) == after.memory
              && (result == Ok(true) <==> counter.Some? && after.accepted == [counter.value])
              && (result.Ok? && !result.value ==> disk.file == old(disk.file) && auth == old(auth))
              && (result.Err? ==> auth == old(auth))
    {
      if counter.None? {
        return Ok(false);
      }
      if auth.lastCounter.Some? && counter.value <= auth.lastCounter.value {
        return Ok(false);
      }
      var updated := auth.(lastCounter := counter);
      var saved := disk.SaveAuth(env, updated, writes);
      if saved.Err? {
        return Err(saved.error);
      }
      auth := updated;
      return Ok(true);
    }

    /** persist_token_last_used, for a token that is in the configuration. */
    method PersistTokenLastUsed(id: string, at: int, env: Env, writes: bool)
      modifies this, disk
      ensures var before := World(old(disk.file), Some(old(auth)), []);
              var after := Step(before, TokenUsed(id, at, env, writes, Survives));
              disk.file == after.file && Some(auth) == after.memory
    {
      if !UpdateDue(auth, id, at) {
        return;
      }
      var updated := auth.(lastUsed := auth.lastUsed[id := at]);
      var saved := disk.SaveAuth(env, updated, writes);
      if saved.Err? {
        return;
      }
      auth := updated;
    }
  }

  /** Every accepted counter is covered by the one on disk, and memory agrees with the disk about it. */
  predicate Inv(w: World) {
    && w.file.Valid?
    && (w.memory.Some? ==> w.memory.value.lastCounter == w.file.config.lastCounter)
    && (forall i | 0 <= i < |w.accepted| :: Spent(w.file.config, w.accepted[i]))
    && (forall i, j | 0 <= i < j < |w.accepted| :: w.accepted[i] < w.accepted[j])
  }

  lemma StepKeeps(w: World, e: Event)
    requires Inv(w)
    ensures Inv(Step(w, e))
  {}

  /**
   Over every interleaving of logins, token uses, failed saves, crashes and restarts, the
   accepted counters strictly increase, and each was on disk before it was reported.
   */
  lemma {:induction false} NoCounterTwice(start: AuthConfig, events: seq<Event>)
    ensures var w := Run(start, events);
            && w.file.Valid?
            && (forall i | 0 <= i < |w.accepted| :: Spent(w.file.config, w.accepted[i]))
            && (forall i, j | 0 <= i < j < |w.accepted| :: w.accepted[i] < w.accepted[j])
    ensures Inv(Run(start, events))
  {
    if events != [] {
      NoCounterTwice(start, events[..|events| - 1]);
      StepKeeps(Run(start, events[..|events| - 1]), events[|events| - 1]);
    }
  }

  /** The counter on disk never goes back, whoever writes the file. */
  lemma {:induction false} DiskNeverForgets(start: AuthConfig, events: seq<Event>, counter: nat)
    requires Spent(start, counter)
    ensures Run(start, events).file.Valid? && Spent(Run(start, events).file.config, counter)
  {
    if events != [] {
      DiskNeverForgets(start, events[..|events| - 1], counter);
      NoCounterTwice(start, events[..|events| - 1]);
    }
  }

  /** A right code is accepted, when the save succeeds, exactly if its counter is above the one on disk. */
  lemma AcceptedIffAboveDisk(start: AuthConfig, events: seq<Event>, counter: nat, env: Env)
    requires Run(start, events).memory.Some?
    ensures Run(start, events).file.Valid?
    ensures var w := Run(start, events);
            var next := Step(w, Consume(Some(counter), env, true, Survives));
            next.accepted == (if Spent(w.file.config, counter) then w.accepted else w.accepted + [counter])
  {
    NoCounterTwice(start, events);
  }

  /** An accepted counter is the one on disk and in memory, and nothing else in memory changes. */
  lemma AcceptedIsSpent(start: AuthConfig, events: seq<Event>, counter: nat, env: Env)
    requires Run(start, events).memory.Some?
    requires Run(start, events).file.Valid? ==> !Spent(Run(start, events).file.config, counter)
    ensures var w := Run(start, events);
            var next := Step(w, Consume(Some(counter), env, true, Survives));
            && next.file.Valid? && next.file.config.lastCounter == Some(counter)
            && next.memory == Some(w.memory.value.(lastCounter := Some(counter)))
            && forall later: nat | later <= counter ::
                 Step(next, Consume(Some(later), env, true, Survives)) == next
  {
    NoCounterTwice(start, events);
  }

  /** A wrong code, or one whose save fails, is not accepted and changes neither disk nor memory. */
  lemma RefusedChangesNothing(start: AuthConfig, events: seq<Event>, counter: Option<nat>, env: Env, writes: bool)
    requires counter.None? || !writes
    ensures var w := Run(start, events);
            Step(w, Consume(counter, env, writes, Survives)) == w
  {
    NoCounterTwice(start, events);
  }

  /**
   The use of a token is written down exactly when it was never used or a minute has passed since the last use that
   was; it changes no other token and nothing else in memory.
   */
  lemma TokenUseIsWrittenIff(start: AuthConfig, events: seq<Event>, id: string, at: int, env: Env)
    requires Run(start, events).memory.Some?
    ensures var w := Run(start, events);
            var a := w.memory.value;
            var next := Step(w, TokenUsed(id, at, env, true, Survives));
            if id in a.lastUsed && at < a.lastUsed[id] + 60 then next == w
            else w.file.Valid? && next.file.Valid?
                 && next.memory == Some(a.(lastUsed := a.lastUsed[id := at]))
                 && next.file.config.lastUsed == a.lastUsed[id := at]
                 && next.file.config.lastCounter == w.file.config.lastCounter && next.accepted == w.accepted
  {
    NoCounterTwice(start, events);
  }
}
