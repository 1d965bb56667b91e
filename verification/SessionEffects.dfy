/**
 What the operations on sessions and logout tokens do, said by the rows and by the answers that follow, for any store.
 */
module SessionEffects {
  import opened AuthStore
  import opened RateLimits
  import opened SessionProbes
  import opened Wrappers

  // ---- Refused for good ----

  /** The store that these operations leave behind, and the moment of the last one. */
  function LeftBy(act: Act, ops: seq<Timed>, s: Store, now: int): (Store, int) {
    if ops == [] then (s, now)
    else
      var (before, at) := LeftBy(act, ops[..|ops| - 1], s, now);
      var last := ops[|ops| - 1];
      (act(last.op, before, at + last.wait).0, at + last.wait)
  }

  function Left(ops: seq<Timed>, s: Store, now: int): (Store, int) {
    LeftBy(Perform, ops, s, now)
  }

  predicate Logs(op: Operation, k: Id) {
    op.Create? && op.id == k
  }

  predicate Dead(s: Sessions, k: Id) {
    k in s ==> s[k].revokedAt.Some?
  }

  lemma DeadStays(op: Operation, s: Store, now: int, k: Id)
    requires Dead(s.sessions, k) && !Logs(op, k)
    ensures Dead(Perform(op, s, now).0.sessions, k)
  {}

  /** No lookup finds the session, at whatever time, under whatever policy and after whatever operations. */
  ghost predicate GoneForGood(s: Store, k: Id, now: int) {
    forall ops: seq<Timed>, policy: Policy | (forall i | 0 <= i < |ops| :: !Logs(ops[i].op, k)) ::
      NotFound(ops, s, k, policy, now)
  }

  predicate NotFound(ops: seq<Timed>, s: Store, k: Id, policy: Policy, now: int) {
    var (last, at) := Left(ops, s, now);
    Perform(Lookup(k, policy), last, at).1 == Found(None)
  }

  ghost predicate KeepsDead(act: Act, k: Id) {
    forall op, s: Store, now: int | Dead(s.sessions, k) && !Logs(op, k) :: Dead(act(op, s, now).0.sessions, k)
  }

  lemma {:induction false} DeadLeft(act: Act, ops: seq<Timed>, s: Store, now: int, k: Id)
    requires KeepsDead(act, k)
    requires Dead(s.sessions, k) && forall i | 0 <= i < |ops| :: !Logs(ops[i].op, k)
    ensures Dead(LeftBy(act, ops, s, now).0.sessions, k)
  {
    if ops != [] {
      DeadLeft(act, ops[..|ops| - 1], s, now, k);
    }
  }

  lemma OperationsKeepDead(k: Id)
    ensures KeepsDead(Perform, k)
  {
    forall op, s: Store, now: int | Dead(s.sessions, k) && !Logs(op, k)
      ensures Dead(Perform(op, s, now).0.sessions, k)
    {
      DeadStays(op, s, now, k);
    }
  }

  lemma DeadIsNotFound(s: Store, k: Id, policy: Policy, now: int)
    requires Dead(s.sessions, k)
    ensures Perform(Lookup(k, policy), s, now).1 == Found(None)
  {}

  lemma DeadForGood(s: Store, k: Id, now: int)
    requires Dead(s.sessions, k)
    ensures GoneForGood(s, k, now)
  {
    OperationsKeepDead(k);
    forall ops: seq<Timed>, policy: Policy | forall i | 0 <= i < |ops| :: !Logs(ops[i].op, k)
      ensures NotFound(ops, s, k, policy, now)
    {
      DeadLeft(Perform, ops, s, now, k);
      DeadIsNotFound(Left(ops, s, now).0, k, policy, Left(ops, s, now).1);
    }
  }

  /** Exactly these sessions are gone for good, and every other row is as it was. */
  ghost predicate EndsExactly(before: Store, after: Store, ended: Chosen, now: int) {
    && after.sessions.Keys == before.sessions.Keys
    && (forall k | k in before.sessions && ended(k, before.sessions[k].family) :: GoneForGood(after, k, now))
    && (forall k | k in before.sessions && !ended(k, before.sessions[k].family) ::
          after.sessions[k] == before.sessions[k])
  }

  lemma RevokedEndsExactly(before: Store, after: Store, chosen: Chosen, now: int)
    requires after.sessions == RevokedBy(before.sessions, chosen, now)
    ensures EndsExactly(before, after, chosen, now)
  {
    forall k | k in before.sessions && chosen(k, before.sessions[k].family) ensures GoneForGood(after, k, now) {
      DeadForGood(after, k, now);
    }
  }

  // ---- Lookups ----

  /**
   A lookup answers exactly with a session that is stored, not revoked, not expired and not too old for the policy,
   as last seen now if a minute has passed; any other it ends for good.  No other row changes.
   */
  lemma LookupFindsIff(s: Store, k: Id, policy: Policy, now: int, r: Session)
    ensures var (after, answer) := Perform(Lookup(k, policy), s, now);
            && (answer == Found(Some(r)) <==>
                  && k in s.sessions && s.sessions[k].revokedAt.None? && s.sessions[k].expiresAt > now
                  && !policy(s.sessions[k].createdAt, s.sessions[k].lastSeenAt, now)
                  && r == (if now < s.sessions[k].lastSeenAt + 60 then s.sessions[k]
                           else s.sessions[k].(lastSeenAt := now)))
            && (answer == Found(Some(r)) ==> k in after.sessions && after.sessions[k] == r)
            && (answer == Found(None) ==> GoneForGood(after, k, now))
            && after.sessions.Keys == s.sessions.Keys
            && (forall j | j in s.sessions && j != k :: after.sessions[j] == s.sessions[j])
            && after.tokens == s.tokens && after.limits == s.limits
  {
    var (after, answer) := Perform(Lookup(k, policy), s, now);
    if answer == Found(None) {
      DeadForGood(after, k, now);
    }
  }

  // ---- Logouts ----

  /** A revocation ends exactly the sessions it chooses, and changes nothing else. */
  lemma RevokeEndsChosen(s: Store, chosen: Chosen, now: int)
    ensures var after := Perform(Revoke(chosen), s, now).0;
            EndsExactly(s, after, chosen, now) && after.tokens == s.tokens && after.limits == s.limits
  {
    RevokedEndsExactly(s, Perform(Revoke(chosen), s, now).0, chosen, now);
  }

  /** A logout by the id of a stored session ends exactly the sessions with its subject and family. */
  lemma LogoutEndsFamily(s: Store, id: Id, now: int)
    ensures var after := Perform(RevokeFamily(id), s, now).0;
            && after.tokens == s.tokens && after.limits == s.limits
            && if id !in s.sessions then after == s
               else
                 var f := s.sessions[id].family;
                 EndsExactly(s, after, (k: Id, other: Family) => other.sub == f.sub && other.hash == f.hash, now)
  {
    if id in s.sessions {
      var f := s.sessions[id].family;
      var same := (k: Id, other: Family) => other.sub == f.sub && other.hash == f.hash;
      var after := Perform(RevokeFamily(id), s, now).0;
      forall k | k in s.sessions ensures InFamily(KeyOf(f))(k, s.sessions[k].family) == same(k, s.sessions[k].family) {}
      RevokedEndsExactly(s, after, InFamily(KeyOf(f)), now);
    }
  }

  /** A logout token that is not held, or has expired, is taken: the sessions it chooses are ended, and no other. */
  lemma LogoutTokenEndsChosen(s: Store, id: Id, token: Token, chosen: Chosen, now: int)
    requires id in s.tokens ==> s.tokens[id].expiresAt <= now
    ensures var (after, answer) := Perform(ConsumeLogout(id, token, chosen), s, now);
            && answer == Replayed(false)
            && EndsExactly(s, after, chosen, now)
            && id in after.tokens && after.tokens[id] == token
            && after.limits == s.limits
            && forall other, later | other != id && now <= later ::
                 SeenToken(after.tokens, other, later) == SeenToken(s.tokens, other, later)
  {
    RevokedEndsExactly(s, Perform(ConsumeLogout(id, token, chosen), s, now).0, chosen, now);
  }

  /** A logout token that is still held is a replay, and ends nothing. */
  lemma ReplayEndsNothing(s: Store, id: Id, token: Token, chosen: Chosen, now: int)
    requires id in s.tokens && s.tokens[id].expiresAt > now
    ensures var (after, answer) := Perform(ConsumeLogout(id, token, chosen), s, now);
            && answer == Replayed(true)
            && after.sessions == s.sessions && after.limits == s.limits
            && forall other, later | now <= later ::
                 SeenToken(after.tokens, other, later) == SeenToken(s.tokens, other, later)
  {}

  predicate Consumes(op: Operation, id: Id) {
    op.ConsumeLogout? && op.id == id
  }

  lemma TokenStays(op: Operation, s: Store, now: int, id: Id, later: int)
    requires !Consumes(op, id) && now <= later
    ensures SeenToken(Perform(op, s, now).0.tokens, id, later) == SeenToken(s.tokens, id, later)
  {}

  ghost predicate KeepsToken(act: Act, id: Id) {
    forall op, s: Store, now: int, later | !Consumes(op, id) && now <= later ::
      SeenToken(act(op, s, now).0.tokens, id, later) == SeenToken(s.tokens, id, later)
  }

  lemma OperationsKeepToken(id: Id)
    ensures KeepsToken(Perform, id)
  {
    forall op, s: Store, now: int, later | !Consumes(op, id) && now <= later
      ensures SeenToken(Perform(op, s, now).0.tokens, id, later) == SeenToken(s.tokens, id, later)
    {
      TokenStays(op, s, now, id, later);
    }
  }

  lemma {:induction false} TokenLeft(act: Act, ops: seq<Timed>, s: Store, now: int, id: Id)
    requires KeepsToken(act, id) && forall i | 0 <= i < |ops| :: !Consumes(ops[i].op, id)
    ensures now <= LeftBy(act, ops, s, now).1
    ensures forall later | LeftBy(act, ops, s, now).1 <= later ::
              SeenToken(LeftBy(act, ops, s, now).0.tokens, id, later) == SeenToken(s.tokens, id, later)
  {
    if ops != [] {
      TokenLeft(act, ops[..|ops| - 1], s, now, id);
    }
  }

  /** After a first logout, whatever else happens, the same token is a replay exactly until it expires. */
  lemma ReplayedUntilExpiry(s: Store, id: Id, token: Token, chosen: Chosen, now: int, ops: seq<Timed>, again: Token,
                            other: Chosen)
    requires id in s.tokens ==> s.tokens[id].expiresAt <= now
    requires forall i | 0 <= i < |ops| :: !Consumes(ops[i].op, id)
    ensures var first := Perform(ConsumeLogout(id, token, chosen), s, now).0;
            var (last, at) := Left(ops, first, now);
            Perform(ConsumeLogout(id, again, other), last, at).1 == Replayed(at < token.expiresAt)
  {
    var first := Perform(ConsumeLogout(id, token, chosen), s, now).0;
    var (last, at) := Left(ops, first, now);
    OperationsKeepToken(id);
    TokenLeft(Perform, ops, first, now, id);
    assert SeenToken(last.tokens, id, at) == SeenToken(first.tokens, id, at);
  }

  // ---- Logins and rotations ----

  /** The predecessor is stored, of the same subject and family, not revoked, not expired and not too old. */
  predicate MayRotate(s: Sessions, op: Operation, now: int)
    requires op.Create? && op.replaced.Some?
  {
    var p := op.replaced.value;
    && p in s && s[p].family.sub == op.record.family.sub && s[p].family.hash == op.record.family.hash
    && s[p].revokedAt.None? && s[p].expiresAt > now && !op.lifetime(s[p].createdAt, s[p].lastSeenAt, now)
  }

  /** The row is no more than a day past its expiry. */
  predicate Kept(r: Session, now: int) {
    r.expiresAt >= now - 86400 || r.expiresAt > now
  }

  /**
   The new row joins; the replaced session and the victims are ended, rows long expired go, and the rest stays.
   */
  ghost predicate JoinsExactly(op: Operation, before: Store, after: Store, now: int)
    requires op.Create?
  {
    && (op.id in after.sessions <==> Kept(op.record, now))
    && (op.id in after.sessions ==> after.sessions[op.id] == op.record)
    && (forall k | k != op.id :: k in after.sessions <==> k in before.sessions && Kept(before.sessions[k], now))
    && (forall k | k != op.id && k in before.sessions ::
          if Some(k) == op.replaced || op.victims(k, before.sessions[k].family) then GoneForGood(after, k, now)
          else k in after.sessions ==> after.sessions[k] == before.sessions[k])
  }

  lemma InsertedJoins(op: Operation, s: Store, after: Store, now: int)
    requires op.Create? && op.id !in s.sessions && op.replaced != Some(op.id)
    requires after == s.(sessions := Inserted(s.sessions, op.id, op.record, op.replaced, op.victims, now))
    ensures JoinsExactly(op, s, after, now)
  {
    forall k | k != op.id && k in s.sessions && (Some(k) == op.replaced || op.victims(k, s.sessions[k].family))
      ensures GoneForGood(after, k, now)
    {
      DeadForGood(after, k, now);
    }
  }

  /** A login succeeds exactly under an id that is not in use. */
  lemma LoginJoinsIff(op: Operation, s: Store, now: int)
    requires op.Create? && op.replaced.None?
    ensures var (after, answer) := Perform(op, s, now);
            && answer == Created(op.id !in s.sessions)
            && (if op.id in s.sessions then after == s else JoinsExactly(op, s, after, now))
  {
    if op.id !in s.sessions {
      InsertedJoins(op, s, Perform(op, s, now).0, now);
    }
  }

  /** The stored session is what the predecessor became in a rotation at most ten seconds ago, and still valid. */
  predicate JustRotated(s: Sessions, p: Id, k: Id, policy: Policy, now: int) {
    && p in s && k in s
    && s[p].revokedAt.Some? && s[p].revokedAt.value <= now <= s[p].revokedAt.value + 10
    && s[k].family == s[p].family && s[k].createdAt == s[p].createdAt && s[k].lastRotatedAt >= s[p].revokedAt.value
    && s[k].revokedAt.None? && s[k].expiresAt > now && !policy(s[k].createdAt, s[k].lastSeenAt, now)
  }

  /**
   A rotation joins exactly when the predecessor may be rotated and the new id is not in use; otherwise nothing
   changes, and it counts as done exactly if it has just been done, for the same user and until the same expiry.
   */
  lemma RotationJoinsIff(op: Operation, s: Store, now: int)
    requires op.Create? && op.replaced.Some?
    ensures var (after, answer) := Perform(op, s, now);
            if MayRotate(s.sessions, op, now)
            then && answer == Created(op.id !in s.sessions)
                 && (if op.id in s.sessions then after == s else JoinsExactly(op, s, after, now))
            else after == s
                 && answer == Created(
                      && JustRotated(s.sessions, op.replaced.value, op.id, op.lifetime, now)
                      && s.sessions[op.id].user == op.record.user
                      && s.sessions[op.id].expiresAt == op.record.expiresAt)
  {
    if MayRotate(s.sessions, op, now) && op.id !in s.sessions {
      InsertedJoins(op, s, Perform(op, s, now).0, now);
    }
  }

  /** The successor lookup answers exactly with a session just rotated into, and changes at most when it was seen. */
  lemma SuccessorFindsIff(s: Store, p: Id, k: Id, policy: Policy, now: int, r: Session)
    ensures var (after, answer) := Perform(Successor(p, k, policy), s, now);
            && (answer == Found(Some(r)) <==>
                  JustRotated(s.sessions, p, k, policy, now)
                  && r == (if now < s.sessions[k].lastSeenAt + 60 then s.sessions[k]
                           else s.sessions[k].(lastSeenAt := now)))
            && (answer == Found(Some(r)) ==> after == s.(sessions := s.sessions[k := r]))
            && (answer == Found(None) ==> after == s)
  {}
}
