/**
 What is seen of a session is all that can be told: wherever two stores differ in what
 `AuthStore` says is seen of a session, some operations answer differently on them.
 */
module SessionProbes {
  import opened AuthStore
  import opened RateLimits
  import opened Wrappers

  /** An operation and the time that passes before it. */
  datatype Timed = Timed(wait: nat, op: Operation)

  type Act = (Operation, Store, int) -> (Store, Answer)

  function Acted(act: Act, ops: seq<Timed>, s: Store, now: int): seq<Answer> {
    if ops == [] then []
    else
      var at := now + ops[0].wait;
      var (after, answer) := act(ops[0].op, s, at);
      [answer] + Acted(act, ops[1..], after, at)
  }

  function Answers(ops: seq<Timed>, s: Store, now: int): seq<Answer> {
    Acted(Perform, ops, s, now)
  }

  ghost predicate Tells(act: Act, a: Store, b: Store, now: int) {
    exists ops :: Acted(act, ops, a, now) != Acted(act, ops, b, now)
  }

  /** Some operations answer differently on the two stores. */
  ghost predicate ToldApart(a: Store, b: Store, now: int) {
    Tells(Perform, a, b, now)
  }

  lemma TellsSymm(act: Act, a: Store, b: Store, now: int)
    requires Tells(act, b, a, now)
    ensures Tells(act, a, b, now)
  {
    var ops :| Acted(act, ops, b, now) != Acted(act, ops, a, now);
    assert Acted(act, ops, a, now) != Acted(act, ops, b, now);
  }

  const NEVER: Policy := (created: int, seen: int, now: int) => false
  const NOBODY: Chosen := (k: Id, f: Family) => false

  /** A session that lives on and belongs to this family. */
  function Probe(family: Family, createdAt: int, rotatedAt: int, now: int): Session {
    Session(family, "", createdAt, now, rotatedAt, now + 1, None)
  }

  function CreateProbe(probe: Id, session: Session): Operation {
    Create(probe, session, None, NEVER, NOBODY)
  }

  lemma FirstAnswer(act: Act, first: Timed, rest: seq<Timed>, s: Store, now: int)
    ensures var at := now + first.wait;
            Acted(act, [first] + rest, s, now)
            == [act(first.op, s, at).1] + Acted(act, rest, act(first.op, s, at).0, at)
  {
    assert ([first] + rest)[1..] == rest;
  }

  lemma OneAnswer(act: Act, a: Timed, s: Store, now: int)
    ensures Acted(act, [a], s, now) == [act(a.op, s, now + a.wait).1]
  {
    FirstAnswer(act, a, [], s, now);
    assert [a] + [] == [a];
  }

  /** The answer to the second of two operations. */
  lemma SecondAnswer(act: Act, a: Timed, b: Timed, s: Store, now: int)
    ensures var t1 := now + a.wait;
            var s1 := act(a.op, s, t1).0;
            |Acted(act, [a, b], s, now)| == 2 && Acted(act, [a, b], s, now)[1] == act(b.op, s1, t1 + b.wait).1
  {
    var t1 := now + a.wait;
    FirstAnswer(act, a, [b], s, now);
    OneAnswer(act, b, act(a.op, s, t1).0, t1);
    assert [a] + [b] == [a, b];
  }

  /** The answer to the third of three operations. */
  lemma ThirdAnswer(act: Act, a: Timed, b: Timed, c: Timed, s: Store, now: int)
    ensures var t1 := now + a.wait;
            var s1 := act(a.op, s, t1).0;
            var s2 := act(b.op, s1, t1 + b.wait).0;
            && |Acted(act, [a, b, c], s, now)| == 3
            && Acted(act, [a, b, c], s, now)[2] == act(c.op, s2, t1 + b.wait + c.wait).1
  {
    var t1 := now + a.wait;
    FirstAnswer(act, a, [b, c], s, now);
    SecondAnswer(act, b, c, act(a.op, s, t1).0, t1);
    assert [a] + [b, c] == [a, b, c];
  }

  // ---- Live sessions ----

  /** A policy under which only sessions last used at another time are valid. */
  function ExceptSeenAt(seenAt: int): Policy {
    (created: int, seen: int, now: int) => seen == seenAt
  }

  lemma LiveShows(a: Store, b: Store, k: Id, now: int)
    requires SeenAs(a.sessions, k, now) != SeenAs(b.sessions, k, now) && SeenAs(a.sessions, k, now).Live?
    ensures ToldApart(a, b, now)
  {
    var ra := a.sessions[k];
    var plain := Timed(0, Lookup(k, NEVER));
    var except := Timed(0, Lookup(k, ExceptSeenAt(ra.lastSeenAt)));
    OneAnswer(Perform, plain, a, now);
    OneAnswer(Perform, plain, b, now);
    OneAnswer(Perform, except, a, now);
    OneAnswer(Perform, except, b, now);
    LookupSeen(a.sessions, k, NEVER, now, k);
    LookupSeen(b.sessions, k, NEVER, now, k);
    if Answers([plain], a, now) == Answers([plain], b, now) {
      assert [Perform(plain.op, a, now).1][0] == [Perform(plain.op, b, now).1][0];
      assert b.sessions[k].lastSeenAt != ra.lastSeenAt;
      LookupSeen(a.sessions, k, ExceptSeenAt(ra.lastSeenAt), now, k);
      LookupSeen(b.sessions, k, ExceptSeenAt(ra.lastSeenAt), now, k);
      assert Answers([except], a, now)[0] != Answers([except], b, now)[0];
    }
  }

  // ---- Families ----

  /** Does a logout with this id revoke a session of this family, once expired rows have been purged? */
  predicate ReachesFamily(s: Sessions, k: Id, family: Family, at: int) {
    k in s && !Purgeable(s[k].expiresAt, at) && KeyOf(s[k].family) == KeyOf(family)
  }

  lemma ProbeInserted(s: Sessions, k: Id, probe: Id, session: Session, at: int)
    requires probe !in s && probe != k && session.revokedAt.None? && session.expiresAt > at
    ensures var (after, ok) := CreatedIn(s, CreateProbe(probe, session), at);
            && ok && probe in after && after[probe] == session
            && (k in after <==> k in s && !Purgeable(s[k].expiresAt, at))
            && (k in after ==> after[k] == s[k])
  {}

  /** The probe is revoked exactly when the logout reaches its family. */
  lemma ProbeRevoked(s: Sessions, k: Id, probe: Id, family: Family, at: int)
    requires probe in s && s[probe] == Probe(family, at, at, at)
    ensures var after := FamilyRevoked(s, k, at);
            probe in after && after[probe].expiresAt > at
            && (after[probe].revokedAt.Some? <==> k in s && KeyOf(s[k].family) == KeyOf(family))
  {}

  lemma ProbeLookedUp(s: Sessions, probe: Id, at: int)
    requires probe in s && s[probe].expiresAt > at
    ensures LookedUp(s, probe, NEVER, at).1 == None <==> s[probe].revokedAt.Some?
  {}

  lemma ProbeReached(s: Sessions, created: Sessions, revoked: Sessions, k: Id, probe: Id, family: Family, at: int)
    requires probe !in s && probe != k
    requires created == CreatedIn(s, CreateProbe(probe, Probe(family, at, at, at)), at).0
    requires revoked == FamilyRevoked(created, k, at)
    ensures LookedUp(revoked, probe, NEVER, at).1 == None <==> ReachesFamily(s, k, family, at)
  {
    ProbeInserted(s, k, probe, Probe(family, at, at, at), at);
    ProbeRevoked(created, k, probe, family, at);
    ProbeLookedUp(revoked, probe, at);
  }

  /** What the last of some operations at one moment answers. */
  ghost predicate LastAnswers(act: Act, ops: seq<Operation>, at: int, s: Store, answer: Answer) {
    ops != [] &&
    if |ops| == 1 then act(ops[0], s, at).1 == answer
    else LastAnswers(act, ops[1..], at, act(ops[0], s, at).0, answer)
  }

  lemma ThirdActed(act: Act, timed: seq<Timed>, ops: seq<Operation>, s: Store, now: int, x: Answer)
    requires |ops| == |timed| == 3 && (forall i | 0 <= i < 3 :: timed[i].op == ops[i])
    requires timed[1].wait == timed[2].wait == 0
    requires LastAnswers(act, ops, now + timed[0].wait, s, x)
    ensures |Acted(act, timed, s, now)| == 3 && Acted(act, timed, s, now)[2] == x
  {
    assert timed == [timed[0], timed[1], timed[2]];
    ThirdAnswer(act, timed[0], timed[1], timed[2], s, now);
    var at := now + timed[0].wait;
    var s1 := act(ops[0], s, at).0;
    var s2 := act(ops[1], s1, at).0;
    assert ops[1..][1..] == ops[2..];
    assert LastAnswers(act, ops[1..], at, s1, x);
    assert LastAnswers(act, ops[2..], at, s2, x);
  }

  lemma ThirdTells(act: Act, wait: nat, ops: seq<Operation>, a: Store, b: Store, now: int, x: Answer, y: Answer)
    requires |ops| == 3 && x != y
    requires LastAnswers(act, ops, now + wait, a, x) && LastAnswers(act, ops, now + wait, b, y)
    ensures Tells(act, a, b, now)
  {
    var timed := [Timed(wait, ops[0]), Timed(0, ops[1]), Timed(0, ops[2])];
    ThirdActed(act, timed, ops, a, now, x);
    ThirdActed(act, timed, ops, b, now, y);
    assert Acted(act, timed, a, now)[2] != Acted(act, timed, b, now)[2];
  }

  function FamilyProbe(k: Id, probe: Id, family: Family, at: int): seq<Operation> {
    [CreateProbe(probe, Probe(family, at, at, at)), RevokeFamily(k), Lookup(probe, NEVER)]
  }

  lemma FamilyProbeAnswers(s: Store, k: Id, probe: Id, family: Family, at: int) returns (answer: Answer)
    requires probe !in s.sessions && probe != k
    ensures LastAnswers(Perform, FamilyProbe(k, probe, family, at), at, s, answer)
    ensures answer == Found(None) <==> ReachesFamily(s.sessions, k, family, at)
  {
    var create := CreateProbe(probe, Probe(family, at, at, at));
    var s1 := s.(sessions := CreatedIn(s.sessions, create, at).0);
    var s2 := s1.(sessions := FamilyRevoked(s1.sessions, k, at));
    ProbeReached(s.sessions, s1.sessions, s2.sessions, k, probe, family, at);
    assert Perform(create, s, at).0 == s1;
    assert Perform(RevokeFamily(k), s1, at).0 == s2;
    var ops := FamilyProbe(k, probe, family, at);
    assert ops[1..] == [RevokeFamily(k), Lookup(probe, NEVER)] && ops[1..][1..] == [Lookup(probe, NEVER)];
    answer := Perform(Lookup(probe, NEVER), s2, at).1;
    assert LastAnswers(Perform, [Lookup(probe, NEVER)], at, s2, answer);
    assert LastAnswers(Perform, [RevokeFamily(k), Lookup(probe, NEVER)], at, s1, answer);
  }

  lemma FamilyProbesDiffer(a: Store, b: Store, k: Id, probe: Id, family: Family, at: int)
    returns (ops: seq<Operation>, x: Answer, y: Answer)
    requires probe !in a.sessions && probe !in b.sessions && probe != k
    requires ReachesFamily(a.sessions, k, family, at) != ReachesFamily(b.sessions, k, family, at)
    ensures |ops| == 3 && LastAnswers(Perform, ops, at, a, x) && LastAnswers(Perform, ops, at, b, y) && x != y
  {
    x := FamilyProbeAnswers(a, k, probe, family, at);
    y := FamilyProbeAnswers(b, k, probe, family, at);
    ops := FamilyProbe(k, probe, family, at);
  }

  lemma FamilyShows(a: Store, b: Store, k: Id, probe: Id, family: Family, now: int, at: int)
    requires now <= at && probe !in a.sessions && probe !in b.sessions && probe != k
    requires ReachesFamily(a.sessions, k, family, at) != ReachesFamily(b.sessions, k, family, at)
    ensures ToldApart(a, b, now)
  {
    var ops, x, y := FamilyProbesDiffer(a, b, k, probe, family, at);
    ThirdTells(Perform, at - now, ops, a, b, now, x, y);
  }

  /** The moment from which a row with this expiry is purged. */
  function PurgeTime(expiresAt: int): int {
    expiresAt + PURGE_GRACE + 1
  }

  lemma ExpiryShows(a: Store, b: Store, k: Id, probe: Id, now: int)
    requires probe !in a.sessions && probe !in b.sessions && probe != k
    requires k in a.sessions && k in b.sessions && KeyOf(a.sessions[k].family) == KeyOf(b.sessions[k].family)
    requires !Purgeable(a.sessions[k].expiresAt, now) && a.sessions[k].expiresAt < b.sessions[k].expiresAt
    ensures ToldApart(a, b, now)
  {
    var at := PurgeTime(a.sessions[k].expiresAt);
    var later := Max(at, now);
    assert later == at;
    FamilyShows(a, b, k, probe, a.sessions[k].family, now, at);
  }

  // ---- Recent revocations ----

  function RotationProbe(k: Id, probe: Id, family: Family, createdAt: int, rotatedAt: int, now: int): seq<Timed> {
    [Timed(0, CreateProbe(probe, Probe(family, createdAt, rotatedAt, now))), Timed(0, Successor(k, probe, NEVER))]
  }

  lemma RotationProbeAnswers(s: Store, k: Id, probe: Id, family: Family, createdAt: int, rotatedAt: int, now: int)
    requires probe !in s.sessions && probe != k && k in s.sessions && !Purgeable(s.sessions[k].expiresAt, now)
    ensures |Answers(RotationProbe(k, probe, family, createdAt, rotatedAt, now), s, now)| == 2
    ensures Answers(RotationProbe(k, probe, family, createdAt, rotatedAt, now), s, now)[1] == Found(None)
            <==> !RecentSuccessor(s.sessions[k], Probe(family, createdAt, rotatedAt, now), NEVER, now)
  {
    var session := Probe(family, createdAt, rotatedAt, now);
    var ops := RotationProbe(k, probe, family, createdAt, rotatedAt, now);
    SecondAnswer(Perform, ops[0], ops[1], s, now);
    ProbeInserted(s.sessions, k, probe, session, now);
  }

  lemma RotationShows(a: Store, b: Store, k: Id, probe: Id, rotatedAt: int, now: int)
    requires probe !in a.sessions && probe !in b.sessions && probe != k && k in a.sessions && k in b.sessions
    requires !Purgeable(a.sessions[k].expiresAt, now) && !Purgeable(b.sessions[k].expiresAt, now)
    requires var session := Probe(a.sessions[k].family, a.sessions[k].createdAt, rotatedAt, now);
             RecentSuccessor(a.sessions[k], session, NEVER, now) && !RecentSuccessor(b.sessions[k], session, NEVER, now)
    ensures ToldApart(a, b, now)
  {
    var ra := a.sessions[k];
    RotationProbeAnswers(a, k, probe, ra.family, ra.createdAt, rotatedAt, now);
    RotationProbeAnswers(b, k, probe, ra.family, ra.createdAt, rotatedAt, now);
    var ops := RotationProbe(k, probe, ra.family, ra.createdAt, rotatedAt, now);
    assert Answers(ops, a, now)[1] != Answers(ops, b, now)[1];
  }

  predicate RevokedBefore(s: Sessions, now: int) {
    forall k | k in s :: s[k].revokedAt.Some? ==> s[k].revokedAt.value <= now
  }

  /** A recent revocation shows against an older one, and against another recent one that is seen differently. */
  lemma LatelyShows(a: Store, b: Store, k: Id, probe: Id, now: int)
    requires probe !in a.sessions && probe !in b.sessions && probe != k
    requires RevokedBefore(a.sessions, now) && RevokedBefore(b.sessions, now)
    requires SeenAs(a.sessions, k, now).Lately? && SeenAs(a.sessions, k, now) != SeenAs(b.sessions, k, now)
    requires k in b.sessions && b.sessions[k].expiresAt == a.sessions[k].expiresAt && b.sessions[k].revokedAt.Some?
    ensures ToldApart(a, b, now)
  {
    var ra, rb := a.sessions[k], b.sessions[k];
    if SeenAs(b.sessions, k, now).Lately? && rb.family == ra.family && rb.createdAt == ra.createdAt {
      if ra.revokedAt.value < rb.revokedAt.value {
        RotationShows(a, b, k, probe, ra.revokedAt.value, now);
      } else {
        RotationShows(b, a, k, probe, rb.revokedAt.value, now);
        TellsSymm(Perform, a, b, now);
      }
    } else {
      RotationShows(a, b, k, probe, now, now);
    }
  }

  // ---- All together ----

  function ExpiryOf(v: SeenSession): int
    requires !v.Gone?
  {
    if v.Live? then v.session.expiresAt else v.expiresAt
  }

  lemma SpentShows(a: Store, b: Store, k: Id, probe: Id, now: int)
    requires probe !in a.sessions && probe !in b.sessions && probe != k
    requires RevokedBefore(a.sessions, now) && RevokedBefore(b.sessions, now)
    requires SeenAs(a.sessions, k, now) != SeenAs(b.sessions, k, now)
    requires !SeenAs(a.sessions, k, now).Live? && !SeenAs(b.sessions, k, now).Live?
    requires !SeenAs(a.sessions, k, now).Gone? && !SeenAs(b.sessions, k, now).Gone?
    ensures ToldApart(a, b, now)
  {
    var ra, rb := a.sessions[k], b.sessions[k];
    if KeyOf(ra.family) != KeyOf(rb.family) {
      FamilyShows(a, b, k, probe, ra.family, now, now);
    } else if ra.expiresAt < rb.expiresAt {
      ExpiryShows(a, b, k, probe, now);
    } else if rb.expiresAt < ra.expiresAt {
      ExpiryShows(b, a, k, probe, now);
      TellsSymm(Perform, a, b, now);
    } else if SeenAs(a.sessions, k, now).Lately? {
      LatelyShows(a, b, k, probe, now);
    } else {
      LatelyShows(b, a, k, probe, now);
      TellsSymm(Perform, a, b, now);
    }
  }

  /**
   Wherever two stores differ in what is seen of a session, some operations answer differently.  `probe` is
   an id that neither store uses; no session has been revoked in the future.
   */
  lemma WhatIsSeenShows(a: Store, b: Store, k: Id, probe: Id, now: int)
    requires probe !in a.sessions && probe !in b.sessions && probe != k
    requires RevokedBefore(a.sessions, now) && RevokedBefore(b.sessions, now)
    requires SeenAs(a.sessions, k, now) != SeenAs(b.sessions, k, now)
    ensures ToldApart(a, b, now)
  {
    var va, vb := SeenAs(a.sessions, k, now), SeenAs(b.sessions, k, now);
    if va.Live? {
      LiveShows(a, b, k, now);
    } else if vb.Live? {
      LiveShows(b, a, k, now);
      TellsSymm(Perform, a, b, now);
    } else if va.Gone? {
      FamilyShows(a, b, k, probe, b.sessions[k].family, now, now);
    } else if vb.Gone? {
      FamilyShows(a, b, k, probe, a.sessions[k].family, now, now);
    } else {
      SpentShows(a, b, k, probe, now);
    }
  }
}
