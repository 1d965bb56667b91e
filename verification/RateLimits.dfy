/**
 Failed-login records: the policy of vendor/auth-modules/src/rate_limit/types.rs:83-123,
 the rows of src/history/sqlite/rate_limit.rs, and the merge of src/history/rate_limit.rs
 with which records are imported into another backend.
 */
module RateLimits {
  import opened Wrappers

  type Key = string

  /** `failures` are epochs in seconds, one for each failure, so two failures in one second repeat an epoch. */
  datatype Limit = Limit(failures: seq<int>, lockedUntil: Option<int>, updatedAt: int)

  type Limits = map<Key, Limit>

  const MAX_FAILURES: nat := 10
  const FAILURE_WINDOW := 300
  const LOCKOUT_WINDOW := 600
  const STALE_RECORD := 600

  // ---- The policy ----

  /** The failures inside the window, in their order. */
  function Recent(failures: seq<int>, now: int): seq<int> {
    if failures == [] then []
    else (if failures[0] >= now - FAILURE_WINDOW then [failures[0]] else []) + Recent(failures[1..], now)
  }

  function ActiveLock(lockedUntil: Option<int>, now: int): Option<int> {
    if lockedUntil.Some? && lockedUntil.value > now then lockedUntil else None
  }

  /** What the policy sees of a record once it has pruned it. */
  datatype Seen = Seen(recent: seq<int>, lock: Option<int>)

  const NOTHING_SEEN := Seen([], None)

  function SeenIn(l: Limit, now: int): Seen {
    Seen(Recent(l.failures, now), ActiveLock(l.lockedUntil, now))
  }

  function SeenOf(limits: Limits, key: Key, now: int): Seen {
    if key in limits then SeenIn(limits[key], now) else NOTHING_SEEN
  }

  /** One more failure: at the maximum the account is locked, and beyond it the oldest failures are dropped. */
  function Counted(s: Seen, now: int): Seen {
    var all := s.recent + [now];
    Seen(if |all| > MAX_FAILURES then all[|all| - MAX_FAILURES..] else all,
         if |all| >= MAX_FAILURES then Some(now + LOCKOUT_WINDOW) else s.lock)
  }

  // ---- The rows ----

  /** `limited`: the pruned record is written back, or deleted when nothing is left of it. */
  function CheckLimit(limits: Limits, key: Key, now: int): (Limits, bool) {
    var s := SeenOf(limits, key, now);
    (if s == NOTHING_SEEN then limits - {key} else limits[key := Limit(s.recent, s.lock, now)], s.lock.Some?)
  }

  predicate Stale(l: Limit, now: int) {
    l.updatedAt < now - STALE_RECORD && ActiveLock(l.lockedUntil, now).None?
  }

  /** `record_failure`: the failure is counted, and stale rows of all accounts are deleted. */
  function CountFailure(limits: Limits, key: Key, now: int): (Limits, bool) {
    var c := Counted(SeenOf(limits, key, now), now);
    var written := limits[key := Limit(c.recent, c.lock, now)];
    (map k | k in written && !Stale(written[k], now) :: written[k], c.lock.Some?)
  }

  function Clear(limits: Limits, key: Key): Limits {
    limits - {key}
  }

  predicate Ascending(s: seq<int>) {
    forall i, j | 0 <= i < j < |s| :: s[i] <= s[j]
  }

  predicate Increasing(s: seq<int>) {
    forall i, j | 0 <= i < j < |s| :: s[i] < s[j]
  }

  predicate TidyRecord(l: Limit, now: int) {
    l.updatedAt <= now && Ascending(l.failures) && forall f | f in l.failures :: f <= l.updatedAt
  }

  /** Failures are in order and none is later than the record's last update, which is not in the future. */
  predicate Tidy(limits: Limits, now: int) {
    forall k | k in limits :: TidyRecord(limits[k], now)
  }

  // ---- What the operations do to what is seen ----

  lemma {:induction false} RecentMembers(failures: seq<int>, now: int)
    ensures forall f :: f in Recent(failures, now) <==> f in failures && f >= now - FAILURE_WINDOW
  {
    if failures != [] {
      RecentMembers(failures[1..], now);
      assert failures == [failures[0]] + failures[1..];
    }
  }

  lemma {:induction false} RecentAll(failures: seq<int>, now: int)
    requires forall f | f in failures :: f >= now - FAILURE_WINDOW
    ensures Recent(failures, now) == failures
  {
    if failures != [] {
      assert failures[0] in failures && forall f | f in failures[1..] :: f in failures;
      RecentAll(failures[1..], now);
      assert failures == [failures[0]] + failures[1..];
    }
  }

  lemma {:induction false} RecentNone(failures: seq<int>, now: int)
    requires forall f | f in failures :: f < now - FAILURE_WINDOW
    ensures Recent(failures, now) == []
  {
    if failures != [] {
      assert failures[0] in failures && forall f | f in failures[1..] :: f in failures;
      RecentNone(failures[1..], now);
    }
  }

  /** Pruning again later sees what pruning only then would. */
  lemma {:induction false} RecentLater(failures: seq<int>, now: int, later: int)
    requires now <= later
    ensures Recent(Recent(failures, now), later) == Recent(failures, later)
  {
    if failures != [] {
      RecentLater(failures[1..], now, later);
      var rest := Recent(failures[1..], now);
      if failures[0] >= now - FAILURE_WINDOW {
        assert ([failures[0]] + rest)[1..] == rest;
      } else {
        assert [] + rest == rest;
        assert [] + Recent(failures[1..], later) == Recent(failures[1..], later);
      }
    }
  }

  lemma {:induction false} RecentAscending(failures: seq<int>, now: int)
    requires Ascending(failures)
    ensures Ascending(Recent(failures, now))
  {
    if failures != [] {
      RecentAscending(failures[1..], now);
      RecentMembers(failures[1..], now);
      var rest := Recent(failures[1..], now);
      assert [] + rest == rest;
      ConsAscending(failures[0], rest);
    }
  }

  lemma ConsAscending(x: int, s: seq<int>)
    requires Ascending(s) && forall y | y in s :: x <= y
    ensures Ascending([x] + s)
  {
    assert forall i | 0 <= i < |s| :: s[i] in s;
  }

  lemma ConsIncreasing(x: int, s: seq<int>)
    requires Increasing(s) && forall y | y in s :: x < y
    ensures Increasing([x] + s)
  {
    assert forall i | 0 <= i < |s| :: s[i] in s;
  }

  lemma SeenIsStable(s: Seen, l: Limit, now: int)
    requires s == SeenIn(l, now)
    ensures SeenIn(Limit(s.recent, s.lock, now), now) == s
  {
    RecentLater(l.failures, now, now);
  }

  /** Asking whether an account is locked changes nothing that is seen of any account. */
  lemma CheckIsInvisible(limits: Limits, key: Key, now: int, k: Key)
    ensures SeenOf(CheckLimit(limits, key, now).0, k, now) == SeenOf(limits, k, now)
  {
    if key in limits {
      SeenIsStable(SeenIn(limits[key], now), limits[key], now);
    }
  }

  lemma CountedIsRecent(limits: Limits, key: Key, now: int)
    ensures var c := Counted(SeenOf(limits, key, now), now); SeenIn(Limit(c.recent, c.lock, now), now) == c
  {
    var s := SeenOf(limits, key, now);
    if key in limits {
      RecentMembers(limits[key].failures, now);
    }
    var c := Counted(s, now);
    assert forall f | f in c.recent :: f in s.recent + [now];
    RecentAll(c.recent, now);
  }

  lemma StaleIsUnseen(l: Limit, now: int)
    requires TidyRecord(l, now) && Stale(l, now)
    ensures SeenIn(l, now) == NOTHING_SEEN
  {
    RecentNone(l.failures, now);
  }

  /** Counting a failure changes what is seen of its own account only, deleted stale rows included. */
  lemma CountingIsLocal(limits: Limits, key: Key, now: int, k: Key)
    requires Tidy(limits, now)
    ensures SeenOf(CountFailure(limits, key, now).0, k, now)
         == if k == key then Counted(SeenOf(limits, key, now), now) else SeenOf(limits, k, now)
  {
    if k == key {
      CountedIsRecent(limits, key, now);
    } else if k in limits && Stale(limits[k], now) {
      StaleIsUnseen(limits[k], now);
    }
  }

  /** The tenth failure inside the window locks the account, and the failures kept never exceed the maximum. */
  lemma LockedAtMaximum(limits: Limits, key: Key, now: int)
    requires |SeenOf(limits, key, now).recent| + 1 >= MAX_FAILURES
    ensures CountFailure(limits, key, now).1
    ensures forall later | now <= later < now + LOCKOUT_WINDOW ::
              CheckLimit(CountFailure(limits, key, now).0, key, later).1
  {}

  // ---- Tidiness ----

  lemma CountedIsTidy(s: Seen, now: int)
    requires Ascending(s.recent) && forall f | f in s.recent :: f <= now
    ensures var c := Counted(s, now); TidyRecord(Limit(c.recent, c.lock, now), now)
  {
    var all := s.recent + [now];
    assert forall i | 0 <= i < |s.recent| :: s.recent[i] in s.recent;
    assert Ascending(all);
    assert forall f | f in Counted(s, now).recent :: f in all;
  }

  lemma SeenIsTidy(limits: Limits, key: Key, now: int)
    requires Tidy(limits, now)
    ensures var s := SeenOf(limits, key, now); Ascending(s.recent) && forall f | f in s.recent :: f <= now
  {
    if key in limits {
      assert TidyRecord(limits[key], now);
      RecentMembers(limits[key].failures, now);
      RecentAscending(limits[key].failures, now);
    }
  }

  lemma CheckKeepsTidy(limits: Limits, key: Key, now: int)
    requires Tidy(limits, now)
    ensures Tidy(CheckLimit(limits, key, now).0, now)
  {
    SeenIsTidy(limits, key, now);
  }

  lemma CountKeepsTidy(limits: Limits, key: Key, now: int)
    requires Tidy(limits, now)
    ensures Tidy(CountFailure(limits, key, now).0, now)
  {
    SeenIsTidy(limits, key, now);
    CountedIsTidy(SeenOf(limits, key, now), now);
  }

  // ---- The merge ----

  /** Adding to an ordered set. */
  function Insert(sorted: seq<int>, x: int): seq<int> {
    if sorted == [] || x < sorted[0] then [x] + sorted
    else if x == sorted[0] then sorted
    else [sorted[0]] + Insert(sorted[1..], x)
  }

  /** The epochs that occur, each once, in order. */
  function Distinct(failures: seq<int>): seq<int> {
    if failures == [] then [] else Insert(Distinct(failures[..|failures| - 1]), failures[|failures| - 1])
  }

  function StrongestLockout(a: Option<int>, b: Option<int>): Option<int> {
    if a.None? then b else if b.None? then a else Some(if a.value <= b.value then b.value else a.value)
  }

  function FailuresOf(held: Option<Limit>): seq<int> {
    if held.Some? then held.value.failures else []
  }

  function LockOf(held: Option<Limit>): Option<int> {
    if held.Some? then held.value.lockedUntil else None
  }

  function MergeLimit(held: Option<Limit>, incoming: Limit): Limit {
    Limit(Distinct(FailuresOf(held) + incoming.failures),
          StrongestLockout(LockOf(held), incoming.lockedUntil),
          if held.Some? && held.value.updatedAt > incoming.updatedAt then held.value.updatedAt else incoming.updatedAt)
  }

  function RecordOf(limits: Limits, k: Key): Option<Limit> {
    if k in limits then Some(limits[k]) else None
  }

  function ImportLimits(held: Limits, snapshot: Limits): Limits {
    map k | k in held.Keys + snapshot.Keys ::
      if k in snapshot then MergeLimit(RecordOf(held, k), snapshot[k]) else held[k]
  }

  lemma {:induction false} InsertFacts(sorted: seq<int>, x: int)
    requires Increasing(sorted)
    ensures Increasing(Insert(sorted, x))
    ensures forall y :: y in Insert(sorted, x) <==> y in sorted || y == x
  {
    if sorted != [] && x > sorted[0] {
      InsertFacts(sorted[1..], x);
      assert sorted == [sorted[0]] + sorted[1..];
      TailElements(sorted);
      ConsIncreasing(sorted[0], Insert(sorted[1..], x));
    }
  }

  lemma {:induction false} DistinctFacts(failures: seq<int>)
    ensures Increasing(Distinct(failures))
    ensures forall x :: x in Distinct(failures) <==> x in failures
  {
    if failures != [] {
      var front := failures[..|failures| - 1];
      DistinctFacts(front);
      InsertFacts(Distinct(front), failures[|failures| - 1]);
      assert failures == front + [failures[|failures| - 1]];
    }
  }

  lemma {:induction false} RecentIncreasing(failures: seq<int>, now: int)
    requires Increasing(failures)
    ensures Increasing(Recent(failures, now))
  {
    if failures != [] {
      RecentIncreasing(failures[1..], now);
      RecentMembers(failures[1..], now);
      var rest := Recent(failures[1..], now);
      assert [] + rest == rest;
      ConsIncreasing(failures[0], rest);
    }
  }

  lemma TailElements(s: seq<int>)
    requires Increasing(s) && s != []
    ensures forall x :: x in s[1..] <==> x in s && x != s[0]
  {
    assert s == [s[0]] + s[1..];
  }

  /** An increasing sequence is determined by its elements. */
  lemma {:induction false} IncreasingUnique(a: seq<int>, b: seq<int>)
    requires Increasing(a) && Increasing(b)
    requires forall x :: x in a <==> x in b
    ensures a == b
  {
    assert (a != [] ==> a[0] in a) && (b != [] ==> b[0] in b);
    if a != [] {
      assert a[0] == b[0];
      TailElements(a);
      TailElements(b);
      IncreasingUnique(a[1..], b[1..]);
      assert a == [a[0]] + a[1..] && b == [b[0]] + b[1..];
    }
  }

  // ---- When an import is seen ----

  predicate LockCovered(held: Option<int>, incoming: Option<int>, now: int) {
    ActiveLock(held, now).None? || (incoming.Some? && held.value <= incoming.value)
  }

  /**
   The merge shows nothing but the incoming record: its failures inside the window are in order
   without a repeat, and what the backend held adds neither a failure nor a longer lockout.
   */
  predicate LimitAbsorbed(held: Option<Limit>, incoming: Limit, now: int) {
    && Increasing(Recent(incoming.failures, now))
    && (forall f | f in Recent(FailuresOf(held), now) :: f in Recent(incoming.failures, now))
    && LockCovered(LockOf(held), incoming.lockedUntil, now)
  }

  predicate LimitsAbsorbed(held: Limits, snapshot: Limits, now: int) {
    && (forall k | k in snapshot :: LimitAbsorbed(RecordOf(held, k), snapshot[k], now))
    && (forall k | k in held && k !in snapshot :: SeenIn(held[k], now) == NOTHING_SEEN)
  }

  /** What is seen of the failures after a merge: those of either side, each epoch once, in order. */
  lemma MergedRecent(held: Option<Limit>, incoming: Limit, now: int)
    ensures var recent := Recent(MergeLimit(held, incoming).failures, now);
            && Increasing(recent)
            && forall f :: f in recent <==> f in Recent(FailuresOf(held), now) || f in Recent(incoming.failures, now)
  {
    var both := FailuresOf(held) + incoming.failures;
    DistinctFacts(both);
    RecentIncreasing(Distinct(both), now);
    RecentMembers(Distinct(both), now);
    RecentMembers(FailuresOf(held), now);
    RecentMembers(incoming.failures, now);
  }

  lemma MergedRecentIff(held: Option<Limit>, incoming: Limit, now: int)
    ensures Recent(MergeLimit(held, incoming).failures, now) == Recent(incoming.failures, now)
            <==> Increasing(Recent(incoming.failures, now))
                 && forall f | f in Recent(FailuresOf(held), now) :: f in Recent(incoming.failures, now)
  {
    MergedRecent(held, incoming, now);
    if Increasing(Recent(incoming.failures, now))
       && forall f | f in Recent(FailuresOf(held), now) :: f in Recent(incoming.failures, now)
    {
      IncreasingUnique(Recent(MergeLimit(held, incoming).failures, now), Recent(incoming.failures, now));
    }
  }

  lemma MergedLockIff(held: Option<int>, incoming: Option<int>, now: int)
    ensures ActiveLock(StrongestLockout(held, incoming), now) == ActiveLock(incoming, now)
            <==> LockCovered(held, incoming, now)
  {}

  lemma MergeSeenIff(held: Option<Limit>, incoming: Limit, now: int)
    ensures SeenIn(MergeLimit(held, incoming), now) == SeenIn(incoming, now) <==> LimitAbsorbed(held, incoming, now)
  {
    MergedRecentIff(held, incoming, now);
    MergedLockIff(LockOf(held), incoming.lockedUntil, now);
  }

  ghost predicate LimitsSame(a: Limits, b: Limits, now: int) {
    forall k :: SeenOf(a, k, now) == SeenOf(b, k, now)
  }

  lemma ImportedSeenIff(held: Limits, snapshot: Limits, now: int, k: Key)
    ensures SeenOf(ImportLimits(held, snapshot), k, now) == SeenOf(snapshot, k, now)
            <==> if k in snapshot then LimitAbsorbed(RecordOf(held, k), snapshot[k], now)
                 else k in held ==> SeenIn(held[k], now) == NOTHING_SEEN
  {
    if k in snapshot {
      MergeSeenIff(RecordOf(held, k), snapshot[k], now);
    }
  }

  /** The policy sees exactly the snapshot after an import if and only if every record of the backend is absorbed. */
  lemma LimitsImportedIff(held: Limits, snapshot: Limits, now: int)
    ensures LimitsSame(ImportLimits(held, snapshot), snapshot, now) <==> LimitsAbsorbed(held, snapshot, now)
  {
    forall k
      ensures SeenOf(ImportLimits(held, snapshot), k, now) == SeenOf(snapshot, k, now)
              <==> if k in snapshot then LimitAbsorbed(RecordOf(held, k), snapshot[k], now)
                   else k in held ==> SeenIn(held[k], now) == NOTHING_SEEN
    {
      ImportedSeenIff(held, snapshot, now, k);
    }
  }

  lemma SameLimitsLater(a: Limits, b: Limits, now: int, later: int)
    requires LimitsSame(a, b, now) && now <= later
    ensures LimitsSame(a, b, later)
  {
    forall k ensures SeenOf(a, k, later) == SeenOf(b, k, later) {
      assert SeenOf(a, k, now) == SeenOf(b, k, now);
      SeenLater(a, k, now, later);
      SeenLater(b, k, now, later);
    }
  }

  /** What is seen later follows from what is seen now. */
  lemma SeenLater(limits: Limits, k: Key, now: int, later: int)
    requires now <= later
    ensures var s := SeenOf(limits, k, now);
            SeenOf(limits, k, later) == Seen(Recent(s.recent, later), ActiveLock(s.lock, later))
  {
    if k in limits {
      RecentLater(limits[k].failures, now, later);
    }
  }

  // ---- Repeats ----

  predicate Repeats(s: seq<int>) {
    exists i, j | 0 <= i < j < |s| :: s[i] == s[j]
  }

  /** Records are kept in order, so what the merge changes about one of them is its repeats. */
  lemma IncreasingIffNoRepeat(s: seq<int>)
    requires Ascending(s)
    ensures Increasing(s) <==> !Repeats(s)
  {}

  /**
   Importing into a backend without records is invisible exactly when no record repeats an epoch inside the
   window.
   */
  lemma FreshImportIff(snapshot: Limits, now: int)
    requires Tidy(snapshot, now)
    ensures LimitsSame(ImportLimits(map[], snapshot), snapshot, now)
            <==> forall k | k in snapshot :: !Repeats(Recent(snapshot[k].failures, now))
  {
    LimitsImportedIff(map[], snapshot, now);
    forall k | k in snapshot
      ensures LimitAbsorbed(RecordOf(map[], k), snapshot[k], now) <==> !Repeats(Recent(snapshot[k].failures, now))
    {
      assert TidyRecord(snapshot[k], now);
      RecentAscending(snapshot[k].failures, now);
      IncreasingIffNoRepeat(Recent(snapshot[k].failures, now));
    }
  }

  function Elements(s: seq<int>): (r: set<int>)
    ensures forall x :: x in r <==> x in s
  {
    set x | x in s
  }

  lemma {:induction false} IncreasingSize(s: seq<int>)
    requires Increasing(s)
    ensures |s| == |Elements(s)|
  {
    if s != [] {
      IncreasingSize(s[1..]);
      assert s == [s[0]] + s[1..];
      assert Elements(s) == {s[0]} + Elements(s[1..]) && s[0] !in s[1..];
    }
  }

  lemma SameElements(a: seq<int>, b: seq<int>)
    requires forall x :: x in a <==> x in b
    ensures Elements(a) == Elements(b)
  {
    forall x ensures x in Elements(a) <==> x in Elements(b) {
      assert x in a <==> x in b;
    }
  }

  lemma ElementsConcat(a: seq<int>, b: seq<int>)
    ensures Elements(a + b) == Elements(a) + Elements(b)
  {
    assert forall x :: x in a + b <==> x in a || x in b;
  }

  /** A merged record counts each epoch of either side once, however many failures it stood for. */
  lemma MergeCountsEpochs(held: Option<Limit>, incoming: Limit)
    ensures |MergeLimit(held, incoming).failures| == |Elements(FailuresOf(held)) + Elements(incoming.failures)|
  {
    var both := FailuresOf(held) + incoming.failures;
    DistinctFacts(both);
    IncreasingSize(Distinct(both));
    SameElements(Distinct(both), both);
    ElementsConcat(FailuresOf(held), incoming.failures);
  }

  /** Two failures in one second are one after an import, even into a backend that holds nothing. */
  lemma RepeatIsLost(key: Key, now: int)
    ensures var snapshot: Limits := map[key := Limit([now, now], None, now)];
            && SeenOf(snapshot, key, now).recent == [now, now]
            && SeenOf(ImportLimits(map[], snapshot), key, now).recent == [now]
            && !LimitsSame(ImportLimits(map[], snapshot), snapshot, now)
  {
    var snapshot: Limits := map[key := Limit([now, now], None, now)];
    RecentAll([now, now], now);
    var merged := MergeLimit(None, snapshot[key]).failures;
    assert [] + [now, now] == [now, now] && [now, now][..1] == [now] && [now][..0] == [];
    assert Distinct([now]) == [now];
    assert merged == [now];
    RecentAll([now], now);
    assert SeenOf(ImportLimits(map[], snapshot), key, now) != SeenOf(snapshot, key, now);
  }

  // ---- Tidiness of an import ----

  lemma ImportKeepsTidy(held: Limits, snapshot: Limits, now: int)
    requires Tidy(held, now) && Tidy(snapshot, now)
    ensures Tidy(ImportLimits(held, snapshot), now)
  {
    forall k | k in ImportLimits(held, snapshot) ensures TidyRecord(ImportLimits(held, snapshot)[k], now) {
      if k in snapshot {
        assert TidyRecord(snapshot[k], now) && (k in held ==> TidyRecord(held[k], now));
        DistinctFacts(FailuresOf(RecordOf(held, k)) + snapshot[k].failures);
      }
    }
  }
}
