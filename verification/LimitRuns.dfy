/**
 When an account is locked, over every run of checks, failed logins and successful ones, said of the times of the
 failures.
 */
module LimitRuns {
  import opened RateLimits
  import opened Wrappers

  datatype Event = Check(at: int, key: Key) | Fail(at: int, key: Key) | Succeed(at: int, key: Key)

  function Step(limits: Limits, e: Event): Limits {
    match e
    case Check(at, key) => CheckLimit(limits, key, at).0
    case Fail(at, key) => CountFailure(limits, key, at).0
    case Succeed(_, key) => Clear(limits, key)
  }

  function Run(events: seq<Event>): Limits {
    if events == [] then map[] else Step(Run(events[..|events| - 1]), events[|events| - 1])
  }

  predicate Ordered(events: seq<Event>) {
    forall i, j | 0 <= i < j < |events| :: events[i].at <= events[j].at
  }

  /** No event of the run is later than this. */
  predicate Past(events: seq<Event>, now: int) {
    events == [] || events[|events| - 1].at <= now
  }

  /** When the account failed since its last success, in order. */
  function Failures(events: seq<Event>, key: Key): seq<int> {
    if events == [] then [] else After(Failures(events[..|events| - 1], key), events[|events| - 1], key)
  }

  function After(times: seq<int>, e: Event, key: Key): seq<int> {
    if e.key != key || e.Check? then times else if e.Fail? then times + [e.at] else []
  }

  /** The failure is the tenth, or a later one, within five minutes. */
  predicate Locking(times: seq<int>, i: int) {
    9 <= i < |times| && times[i - 9] >= times[i] - 300
  }

  /** Ten minutes have not passed since such a failure. */
  predicate LockedAt(times: seq<int>, now: int) {
    exists i | 0 <= i < |times| :: Locking(times, i) && now < times[i] + 600
  }

  // ---- The record against the failures ----

  function LastTen(times: seq<int>): seq<int> {
    if |times| <= 10 then times else times[|times| - 10..]
  }

  function LockUntil(times: seq<int>): Option<int> {
    if times == [] then None
    else
      var n := |times| - 1;
      if Locking(times, n) then Some(times[n] + 600) else LockUntil(times[..n])
  }

  predicate Tells(s: Seen, times: seq<int>, now: int) {
    && s.recent == Recent(LastTen(times), now)
    && s.lock == ActiveLock(LockUntil(times), now)
  }

  lemma RecentCons(x: int, rest: seq<int>, s: seq<int>, now: int)
    requires s == [x] + rest
    ensures Recent(s, now) == (if x >= now - FAILURE_WINDOW then [x] else []) + Recent(rest, now)
  {
    assert s[1..] == rest;
  }

  lemma {:induction false} RecentConcat(a: seq<int>, b: seq<int>, now: int)
    ensures Recent(a + b, now) == Recent(a, now) + Recent(b, now)
  {
    if a == [] {
      assert a + b == b && [] + Recent(b, now) == Recent(b, now);
    } else {
      var rest := a[1..];
      RecentConcat(rest, b, now);
      assert a == [a[0]] + rest && a + b == [a[0]] + (rest + b);
      RecentCons(a[0], rest, a, now);
      RecentCons(a[0], rest + b, a + b, now);
      Reassociate(if a[0] >= now - FAILURE_WINDOW then [a[0]] else [], Recent(rest, now), Recent(b, now));
    }
  }

  lemma Reassociate(a: seq<int>, b: seq<int>, c: seq<int>)
    ensures a + b + c == a + (b + c)
  {}

  lemma {:induction false} RecentLength(times: seq<int>, now: int)
    ensures |Recent(times, now)| <= |times|
  {
    if times != [] {
      RecentLength(times[1..], now);
    }
  }

  lemma AscendingTail(times: seq<int>, n: nat)
    requires Ascending(times) && n <= |times|
    ensures Ascending(times[n..])
  {
    assert forall i | 0 <= i < |times| - n :: times[n..][i] == times[n + i];
  }

  /** All of an ascending list is recent when its first element is. */
  lemma RecentFromFirst(times: seq<int>, now: int)
    requires Ascending(times) && times != [] && times[0] >= now - FAILURE_WINDOW
    ensures Recent(times, now) == times
  {
    RecentAll(times, now);
  }

  lemma RecentSnoc(times: seq<int>, now: int)
    ensures Recent(times + [now], now) == Recent(times, now) + [now]
  {
    RecentConcat(times, [now], now);
    RecentConcat([], [now], now);
  }

  lemma FullCounted(last: seq<int>, tail: seq<int>, now: int)
    requires Ascending(last) && |last| == 10 && tail == last[1..]
    ensures LastTen(Recent(last, now) + [now]) == Recent(tail, now) + [now]
  {
    assert last == [last[0]] + tail;
    RecentCons(last[0], tail, last, now);
    RecentLength(tail, now);
    if last[0] >= now - FAILURE_WINDOW {
      RecentFromFirst(last, now);
    }
  }

  /** One more failure keeps the record in step with the last ten failures. */
  lemma CountedRecent(times: seq<int>, now: int)
    requires Ascending(times)
    ensures LastTen(Recent(LastTen(times), now) + [now]) == Recent(LastTen(times + [now]), now)
  {
    var last := LastTen(times);
    if |times| < 10 {
      RecentLength(times, now);
      RecentSnoc(times, now);
    } else {
      AscendingTail(times, |times| - 10);
      FullCounted(last, last[1..], now);
      RecentSnoc(last[1..], now);
      assert LastTen(times + [now]) == last[1..] + [now];
    }
  }

  /** At least m of an ascending list are recent exactly when the m-th from its end is. */
  lemma {:induction false} RecentFromEnd(s: seq<int>, m: nat, now: int)
    requires Ascending(s) && 1 <= m <= |s|
    ensures |Recent(s, now)| >= m <==> s[|s| - m] >= now - FAILURE_WINDOW
  {
    var rest := s[1..];
    RecentLength(rest, now);
    AscendingTail(s, 1);
    if s[0] >= now - FAILURE_WINDOW {
      RecentFromFirst(s, now);
    } else if |s| > m {
      RecentFromEnd(rest, m, now);
    }
  }

  /** Nine recent failures before this one are what makes it lock. */
  lemma NineRecentIff(times: seq<int>, now: int)
    requires Ascending(times)
    ensures |Recent(LastTen(times), now)| >= 9 <==> Locking(times + [now], |times|)
  {
    var last := LastTen(times);
    AscendingTail(times, |times| - |last|);
    if |times| >= 9 {
      RecentFromEnd(last, 9, now);
    } else {
      RecentLength(last, now);
    }
  }

  lemma LockUntilSnoc(times: seq<int>, now: int, longer: seq<int>)
    requires longer == times + [now]
    ensures LockUntil(longer) == if Locking(longer, |times|) then Some(now + 600) else LockUntil(times)
  {
    assert longer[..|times|] == times;
  }

  lemma CountedTells(s: Seen, times: seq<int>, now: int, longer: seq<int>)
    requires Ascending(times) && Tells(s, times, now) && longer == times + [now]
    ensures Tells(Counted(s, now), longer, now)
  {
    CountedRecent(times, now);
    NineRecentIff(times, now);
    LockUntilSnoc(times, now, longer);
    assert Counted(s, now).recent == LastTen(s.recent + [now]);
  }

  lemma SeenTellsLater(s: Seen, times: seq<int>, now: int, later: int)
    requires Tells(s, times, now) && now <= later
    ensures Recent(s.recent, later) == Recent(LastTen(times), later)
    ensures ActiveLock(s.lock, later) == ActiveLock(LockUntil(times), later)
  {
    RecentLater(LastTen(times), now, later);
  }

  lemma TellsLater(limits: Limits, key: Key, times: seq<int>, now: int, later: int)
    requires Tells(SeenOf(limits, key, now), times, now) && now <= later
    ensures Tells(SeenOf(limits, key, later), times, later)
  {
    SeenLater(limits, key, now, later);
    SeenTellsLater(SeenOf(limits, key, now), times, now, later);
  }

  // ---- Every run ----

  predicate TimesOk(times: seq<int>, now: int) {
    Ascending(times) && forall f | f in times :: f <= now
  }

  lemma SnocOk(times: seq<int>, now: int, at: int)
    requires TimesOk(times, now) && now <= at
    ensures TimesOk(times + [at], at)
  {
    assert forall i | 0 <= i < |times| :: times[i] in times;
  }

  lemma FailTells(limits: Limits, at: int, k: Key, times: seq<int>, key: Key, next: Limits)
    requires Tidy(limits, at) && TimesOk(times, at) && Tells(SeenOf(limits, key, at), times, at)
    requires next == CountFailure(limits, k, at).0
    ensures Tells(SeenOf(next, key, at), if k == key then times + [at] else times, at)
  {
    CountingIsLocal(limits, k, at, key);
    if k == key {
      CountedTells(SeenOf(limits, key, at), times, at, times + [at]);
    }
  }

  lemma StepTells(limits: Limits, e: Event, times: seq<int>, key: Key, next: Limits)
    requires Tidy(limits, e.at) && TimesOk(times, e.at) && Tells(SeenOf(limits, key, e.at), times, e.at)
    requires next == Step(limits, e)
    ensures Tidy(next, e.at)
    ensures TimesOk(After(times, e, key), e.at) && Tells(SeenOf(next, key, e.at), After(times, e, key), e.at)
  {
    match e
    case Check(at, k) =>
      CheckIsInvisible(limits, k, at, key);
      CheckKeepsTidy(limits, k, at);
    case Fail(at, k) =>
      FailTells(limits, at, k, times, key, next);
      CountKeepsTidy(limits, k, at);
      SnocOk(times, at, at);
    case Succeed(_, _) =>
  }

  /** The record shows these failures, now and later. */
  predicate Shows(limits: Limits, times: seq<int>, key: Key, now: int) {
    Tidy(limits, now) && TimesOk(times, now) && Tells(SeenOf(limits, key, now), times, now)
  }

  lemma StepShows(limits: Limits, e: Event, times: seq<int>, key: Key, now: int)
    requires Shows(limits, times, key, e.at) && e.at <= now
    ensures Shows(Step(limits, e), After(times, e, key), key, now)
  {
    StepTells(limits, e, times, key, Step(limits, e));
    TellsLater(Step(limits, e), key, After(times, e, key), e.at, now);
  }

  lemma {:induction false} RunTells(events: seq<Event>, key: Key, now: int)
    requires Ordered(events) && Past(events, now)
    ensures Shows(Run(events), Failures(events, key), key, now)
  {
    if events != [] {
      var before, e := events[..|events| - 1], events[|events| - 1];
      RunTells(before, key, e.at);
      StepShows(Run(before), e, Failures(before, key), key, now);
    }
  }

  lemma LockedBefore(front: seq<int>, at: int, now: int)
    requires Ascending(front + [at]) && LockedAt(front, now)
    ensures now < at + 600
  {
    var i :| 0 <= i < |front| && Locking(front, i) && now < front[i] + 600;
    assert (front + [at])[i] == front[i] && (front + [at])[|front|] == at;
  }

  lemma LockedSnoc(front: seq<int>, at: int, times: seq<int>, now: int)
    requires times == front + [at]
    ensures LockedAt(times, now) <==> LockedAt(front, now) || (Locking(times, |front|) && now < at + 600)
  {
    forall i | 0 <= i < |front| ensures Locking(times, i) <==> Locking(front, i) {}
    if LockedAt(front, now) {
      var i :| 0 <= i < |front| && Locking(front, i) && now < front[i] + 600;
      assert Locking(times, i) && times[i] == front[i];
    }
    if LockedAt(times, now) {
      var i :| 0 <= i < |times| && Locking(times, i) && now < times[i] + 600;
      assert i < |front| ==> Locking(front, i) && times[i] == front[i];
    }
    if Locking(times, |front|) && now < at + 600 {
      assert times[|front|] == at;
    }
  }

  lemma {:induction false} LockUntilIs(times: seq<int>, now: int)
    requires Ascending(times)
    ensures ActiveLock(LockUntil(times), now).Some? <==> LockedAt(times, now)
  {
    if times != [] {
      var front, at := times[..|times| - 1], times[|times| - 1];
      assert times == front + [at];
      LockUntilIs(front, now);
      LockedSnoc(front, at, times, now);
      if LockedAt(front, now) {
        LockedBefore(front, at, now);
      }
    }
  }

  /**
   In every run of checks, failures and successes of all accounts, an account is locked if and only if, since its last
   success, some failure of it less than ten minutes ago was the tenth within five minutes.
   */
  lemma LockedIff(events: seq<Event>, key: Key, now: int)
    requires Ordered(events) && Past(events, now)
    ensures CheckLimit(Run(events), key, now).1 <==> LockedAt(Failures(events, key), now)
  {
    RunTells(events, key, now);
    LockUntilIs(Failures(events, key), now);
  }

  /** A failure answers whether it leaves the account locked. */
  lemma FailureAnswersIff(events: seq<Event>, key: Key, now: int)
    requires Ordered(events) && Past(events, now)
    ensures CountFailure(Run(events), key, now).1 <==> LockedAt(Failures(events, key) + [now], now)
  {
    RunTells(events, key, now);
    var times := Failures(events, key);
    SnocOk(times, now, now);
    CountedTells(SeenOf(Run(events), key, now), times, now, times + [now]);
    LockUntilIs(times + [now], now);
    assert now + 600 > now;
  }
}
