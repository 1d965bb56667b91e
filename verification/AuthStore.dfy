/**
 Authentication state in one history backend: sessions, consumed logout tokens and
 failed-login records, the merge with which src/history imports a snapshot into a
 backend, and the operations of the clients of with_auth_store.
 */
module AuthStore {
  import opened RateLimits
  import opened Wrappers

  type Id = string

  /** The columns of a session that say whose it is; no statement updates them. */
  datatype Family = Family(sub: string, hash: string, mode: string, issuer: Option<string>, provider: Option<string>)

  datatype Session = Session(
    family: Family, user: string, createdAt: int, lastSeenAt: int, lastRotatedAt: int, expiresAt: int,
    revokedAt: Option<int>)

  datatype Token = Token(consumedAt: int, expiresAt: int)

  type Sessions = map<Id, Session>
  type Tokens = map<Id, Token>

  datatype Store = Store(sessions: Sessions, tokens: Tokens, limits: Limits)

  const EMPTY_STORE := Store(map[], map[], map[])

  const TOUCH_INTERVAL := 60
  const PURGE_GRACE := 86400
  const ROTATION_GRACE := 10

  function Min(a: int, b: int): int { if a <= b then a else b }
  function Max(a: int, b: int): int { if a <= b then b else a }

  function EarliestRevocation(a: Option<int>, b: Option<int>): Option<int> {
    if a.None? then b else if b.None? then a else Some(Min(a.value, b.value))
  }

  function MergeSession(held: Session, incoming: Session): Session {
    Session(held.family, held.user,
            Min(held.createdAt, incoming.createdAt),
            Max(held.lastSeenAt, incoming.lastSeenAt),
            Max(held.lastRotatedAt, incoming.lastRotatedAt),
            Min(held.expiresAt, incoming.expiresAt),
            EarliestRevocation(held.revokedAt, incoming.revokedAt))
  }

  function MergeToken(held: Token, incoming: Token): Token {
    Token(Min(held.consumedAt, incoming.consumedAt), Max(held.expiresAt, incoming.expiresAt))
  }

  function ImportSessions(held: Sessions, snapshot: Sessions): Sessions {
    map k | k in held.Keys + snapshot.Keys ::
      if k !in snapshot then held[k]
      else if k !in held then snapshot[k]
      else MergeSession(held[k], snapshot[k])
  }

  function ImportTokens(held: Tokens, snapshot: Tokens): Tokens {
    map k | k in held.Keys + snapshot.Keys ::
      if k !in snapshot then held[k]
      else if k !in held then snapshot[k]
      else MergeToken(held[k], snapshot[k])
  }

  /** The backend after a snapshot has been imported into it. */
  function Import(held: Store, snapshot: Store): Store {
    Store(ImportSessions(held.sessions, snapshot.sessions),
          ImportTokens(held.tokens, snapshot.tokens),
          ImportLimits(held.limits, snapshot.limits))
  }

  // ---- What authentication can see ----

  /** What a logout compares when it revokes a family. */
  datatype FamilyKey = FamilyKey(sub: string, hash: string)

  function KeyOf(f: Family): FamilyKey {
    FamilyKey(f.sub, f.hash)
  }

  /**
   What is seen of a session: nothing, the family of one that has expired or was revoked, with what the
   successor lookup reads while the revocation is recent, or the whole record.
   */
  datatype SeenSession =
    | Gone
    | Spent(key: FamilyKey, expiresAt: int)
    | Lately(family: Family, createdAt: int, expiresAt: int, revokedAt: int)
    | Live(session: Session)

  /** Expired so long ago that the next login deletes the row. */
  predicate Purgeable(expiresAt: int, now: int) {
    expiresAt <= now && expiresAt < now - PURGE_GRACE
  }

  function SeenRow(r: Session, now: int): SeenSession {
    if Purgeable(r.expiresAt, now) then Gone
    else if r.expiresAt <= now then Spent(KeyOf(r.family), r.expiresAt)
    else if r.revokedAt.None? then Live(r)
    else if now - r.revokedAt.value <= ROTATION_GRACE then Lately(r.family, r.createdAt, r.expiresAt, r.revokedAt.value)
    else Spent(KeyOf(r.family), r.expiresAt)
  }

  function SeenAs(s: Sessions, k: Id, now: int): SeenSession {
    if k in s then SeenRow(s[k], now) else Gone
  }

  ghost predicate SessionsSame(a: Sessions, b: Sessions, now: int) {
    forall k :: SeenAs(a, k, now) == SeenAs(b, k, now)
  }

  /** Until when a replay of the token is refused, if it is. */
  function SeenToken(t: Tokens, k: Id, now: int): Option<int> {
    if k in t && t[k].expiresAt > now then Some(t[k].expiresAt) else None
  }

  ghost predicate TokensSame(a: Tokens, b: Tokens, now: int) {
    forall k :: SeenToken(a, k, now) == SeenToken(b, k, now)
  }

  /** Nothing that authentication can see tells the two stores apart. */
  ghost predicate Same(a: Store, b: Store, now: int) {
    && SessionsSame(a.sessions, b.sessions, now)
    && TokensSame(a.tokens, b.tokens, now)
    && LimitsSame(a.limits, b.limits, now)
  }

  // ---- When an import gives back the snapshot ----

  predicate RevokedNoEarlier(a: Option<int>, b: Option<int>) {
    a.None? || (b.Some? && a.value >= b.value)
  }

  /** `a` is the same session as `b`, at the same moment or an earlier one. */
  predicate Earlier(a: Session, b: Session) {
    && a.family == b.family
    && a.user == b.user
    && a.createdAt >= b.createdAt
    && a.lastSeenAt <= b.lastSeenAt
    && a.lastRotatedAt <= b.lastRotatedAt
    && a.expiresAt >= b.expiresAt
    && RevokedNoEarlier(a.revokedAt, b.revokedAt)
  }

  /** The held row adds nothing to what is seen of the incoming one. */
  predicate SessionAbsorbed(held: Session, incoming: Session, now: int) {
    match SeenRow(incoming, now)
    case Gone => true
    case Spent(key, expiresAt) => KeyOf(held.family) == key && held.expiresAt >= expiresAt
    case Lately(family, createdAt, expiresAt, _) =>
      && held.family == family && held.createdAt >= createdAt && held.expiresAt >= expiresAt
      && RevokedNoEarlier(held.revokedAt, incoming.revokedAt)
    case Live(session) => Earlier(held, session)
  }

  predicate SessionsAbsorbed(held: Sessions, snapshot: Sessions, now: int) {
    forall k | k in held ::
      if k in snapshot then SessionAbsorbed(held[k], snapshot[k], now) else SeenRow(held[k], now) == Gone
  }

  predicate TokenAbsorbed(held: Option<int>, incoming: Option<int>) {
    held.None? || (incoming.Some? && held.value <= incoming.value)
  }

  predicate TokensAbsorbed(held: Tokens, snapshot: Tokens, now: int) {
    forall k | k in held :: TokenAbsorbed(SeenToken(held, k, now), SeenToken(snapshot, k, now))
  }

  /**
   The backend holds nothing that shows through a snapshot imported into it, and the snapshot loses no
   repeated failure.
   */
  predicate Absorbed(held: Store, snapshot: Store, now: int) {
    && SessionsAbsorbed(held.sessions, snapshot.sessions, now)
    && TokensAbsorbed(held.tokens, snapshot.tokens, now)
    && LimitsAbsorbed(held.limits, snapshot.limits, now)
  }

  /** The merge is seen as the incoming session exactly when the held one is absorbed. */
  lemma MergeSeenAsIncomingIff(held: Session, incoming: Session, now: int)
    ensures SeenRow(MergeSession(held, incoming), now) == SeenRow(incoming, now)
            <==> SessionAbsorbed(held, incoming, now)
  {}

  /** After an import exactly the snapshot's sessions are seen if and only if what the backend held is absorbed. */
  lemma SessionsImportedIff(held: Sessions, snapshot: Sessions, now: int)
    ensures SessionsSame(ImportSessions(held, snapshot), snapshot, now) <==> SessionsAbsorbed(held, snapshot, now)
  {
    var after := ImportSessions(held, snapshot);
    forall k
      ensures SeenAs(after, k, now) == SeenAs(snapshot, k, now)
              <==> (k in held ==> if k in snapshot then SessionAbsorbed(held[k], snapshot[k], now)
                                  else SeenRow(held[k], now) == Gone)
    {
      if k in held && k in snapshot {
        MergeSeenAsIncomingIff(held[k], snapshot[k], now);
      }
    }
  }

  lemma TokensImportedIff(held: Tokens, snapshot: Tokens, now: int)
    ensures TokensSame(ImportTokens(held, snapshot), snapshot, now) <==> TokensAbsorbed(held, snapshot, now)
  {
    forall k
      ensures SeenToken(ImportTokens(held, snapshot), k, now) == SeenToken(snapshot, k, now)
              <==> TokenAbsorbed(SeenToken(held, k, now), SeenToken(snapshot, k, now))
    {}
    if TokensSame(ImportTokens(held, snapshot), snapshot, now) {
      forall k | k in held ensures TokenAbsorbed(SeenToken(held, k, now), SeenToken(snapshot, k, now)) {
        assert SeenToken(ImportTokens(held, snapshot), k, now) == SeenToken(snapshot, k, now);
      }
    } else {
      var k :| SeenToken(ImportTokens(held, snapshot), k, now) != SeenToken(snapshot, k, now);
      assert !TokenAbsorbed(SeenToken(held, k, now), SeenToken(snapshot, k, now));
    }
  }

  /**
   Importing a snapshot is invisible to authentication if and only if the backend held only
   older versions of what the snapshot has, or what nothing can see, and no failed-login
   record of the snapshot repeats an epoch inside the window.
   */
  lemma ImportInvisibleIff(held: Store, snapshot: Store, now: int)
    ensures Same(Import(held, snapshot), snapshot, now) <==> Absorbed(held, snapshot, now)
  {
    SessionsImportedIff(held.sessions, snapshot.sessions, now);
    TokensImportedIff(held.tokens, snapshot.tokens, now);
    LimitsImportedIff(held.limits, snapshot.limits, now);
  }

  predicate LockAtLeast(a: Option<int>, b: Option<int>) {
    b.None? || (a.Some? && a.value >= b.value)
  }

  lemma ImportKeepsTokens(held: Tokens, snapshot: Tokens, k: Id, now: int)
    ensures TokenAbsorbed(SeenToken(held, k, now), SeenToken(ImportTokens(held, snapshot), k, now))
    ensures TokenAbsorbed(SeenToken(snapshot, k, now), SeenToken(ImportTokens(held, snapshot), k, now))
  {}

  lemma ImportKeepsLimit(held: Limits, snapshot: Limits, side: Limits, k: Key, now: int)
    requires side == held || side == snapshot
    ensures var (before, after) := (SeenOf(side, k, now), SeenOf(ImportLimits(held, snapshot), k, now));
            LockAtLeast(after.lock, before.lock) && forall f | f in before.recent :: f in after.recent
  {
    if k in snapshot {
      MergedRecent(RecordOf(held, k), snapshot[k], now);
    }
  }

  /**
   An import never forgets a revocation, a consumed token, a lockout or an epoch with a failure of
   either side.  How many failures an epoch stood for it does forget.
   */
  lemma ImportKeepsRestrictions(held: Store, snapshot: Store, side: Store, k: Id, now: int)
    requires side == held || side == snapshot
    ensures var after := Import(held, snapshot);
            && (k in side.sessions && side.sessions[k].revokedAt.Some? ==> after.sessions[k].revokedAt.Some?)
            && TokenAbsorbed(SeenToken(side.tokens, k, now), SeenToken(after.tokens, k, now))
            && LockAtLeast(SeenOf(after.limits, k, now).lock, SeenOf(side.limits, k, now).lock)
            && forall f | f in SeenOf(side.limits, k, now).recent :: f in SeenOf(after.limits, k, now).recent
  {
    ImportKeepsTokens(held.tokens, snapshot.tokens, k, now);
    ImportKeepsLimit(held.limits, snapshot.limits, side.limits, k, now);
  }

  // ---- Operations ----

  /** Is a session with these creation and last-use times too old at this moment? */
  type Policy = (int, int, int) -> bool

  /** The rows that a statement picks by the columns that never change. */
  type Chosen = (Id, Family) -> bool

  /**
   `Create` is a login, or the rotation of `replaced`; `victims` are the sessions that the concurrency limit
   revokes.  `Successor` follows a lookup that found nothing.
   */
  datatype Operation =
    | Revoke(chosen: Chosen)
    | RevokeFamily(id: Id)
    | Lookup(id: Id, policy: Policy)
    | Successor(predecessor: Id, id: Id, policy: Policy)
    | Create(id: Id, record: Session, replaced: Option<Id>, lifetime: Policy, victims: Chosen)
    | ConsumeLogout(id: Id, token: Token, chosen: Chosen)
    | CheckAccount(key: Key)
    | CountAccountFailure(key: Key)
    | ClearFailures(key: Key)

  datatype Answer =
    | NoAnswer
    | Found(session: Option<Session>)
    | Created(ok: bool)
    | Replayed(yes: bool)
    | Limited(yes: bool)

  function Revoked(s: Session, now: int): Session {
    if s.revokedAt.None? then s.(revokedAt := Some(now)) else s
  }

  function RevokedBy(s: Sessions, chosen: Chosen, now: int): Sessions {
    map k | k in s :: if chosen(k, s[k].family) then Revoked(s[k], now) else s[k]
  }

  function InFamily(key: FamilyKey): Chosen {
    (k: Id, f: Family) => KeyOf(f) == key
  }

  /** The family is looked up by the id of any row, live or not. */
  function FamilyRevoked(s: Sessions, id: Id, now: int): Sessions {
    if id in s then RevokedBy(s, InFamily(KeyOf(s[id].family)), now) else s
  }

  predicate Valid(r: Session, policy: Policy, now: int) {
    r.revokedAt.None? && r.expiresAt > now && !policy(r.createdAt, r.lastSeenAt, now)
  }

  function Touched(r: Session, now: int): Session {
    if now - r.lastSeenAt >= TOUCH_INTERVAL then r.(lastSeenAt := now) else r
  }

  function LookedUp(s: Sessions, id: Id, policy: Policy, now: int): (Sessions, Option<Session>) {
    if id !in s then (s, None)
    else if !Valid(s[id], policy, now) then (s[id := Revoked(s[id], now)], None)
    else (s[id := Touched(s[id], now)], Some(Touched(s[id], now)))
  }

  /** Is `next` what `previous` was rotated into a moment ago? */
  predicate RecentSuccessor(previous: Session, next: Session, policy: Policy, now: int) {
    && previous.revokedAt.Some?
    && previous.revokedAt.value <= now
    && now - previous.revokedAt.value <= ROTATION_GRACE
    && next.family == previous.family
    && next.createdAt == previous.createdAt
    && next.lastRotatedAt >= previous.revokedAt.value
    && Valid(next, policy, now)
  }

  function SuccessorFound(s: Sessions, predecessor: Id, id: Id, policy: Policy, now: int): (Sessions, Option<Session>) {
    if predecessor in s && id in s && RecentSuccessor(s[predecessor], s[id], policy, now)
    then (s[id := Touched(s[id], now)], Some(Touched(s[id], now)))
    else (s, None)
  }

  /** Deletes sessions that expired more than a day ago. */
  function Purged(s: Sessions, now: int): Sessions {
    map k | k in s && !Purgeable(s[k].expiresAt, now) :: s[k]
  }

  predicate MayReplace(s: Sessions, predecessor: Id, record: Session, lifetime: Policy, now: int) {
    && predecessor in s
    && KeyOf(s[predecessor].family) == KeyOf(record.family)
    && Valid(s[predecessor], lifetime, now)
  }

  /** A rotation that has been done already: the answer to it was lost, or another request came first. */
  predicate IsRetry(s: Sessions, predecessor: Id, id: Id, record: Session, lifetime: Policy, now: int) {
    && predecessor in s && id in s
    && RecentSuccessor(s[predecessor], s[id], lifetime, now)
    && s[id].user == record.user
    && s[id].expiresAt == record.expiresAt
  }

  predicate Inserts(s: Sessions, record: Session, replaced: Option<Id>, lifetime: Policy, now: int) {
    replaced.None? || MayReplace(s, replaced.value, record, lifetime, now)
  }

  function Inserted(s: Sessions, id: Id, record: Session, replaced: Option<Id>, victims: Chosen, now: int): Sessions {
    var chosen := (k: Id, f: Family) => Some(k) == replaced || (k != id && victims(k, f));
    Purged(RevokedBy(s[id := record], chosen, now), now)
  }

  /** An insert under an id that is in use fails, and the transaction is rolled back. */
  function CreatedIn(s: Sessions, op: Operation, now: int): (Sessions, bool)
    requires op.Create?
  {
    if Inserts(s, op.record, op.replaced, op.lifetime, now) then
      if op.id in s then (s, false) else (Inserted(s, op.id, op.record, op.replaced, op.victims, now), true)
    else (s, IsRetry(s, op.replaced.value, op.id, op.record, op.lifetime, now))
  }

  /** Expired tokens are deleted before the token is looked for. */
  function Unexpired(t: Tokens, now: int): Tokens {
    map k | k in t && t[k].expiresAt > now :: t[k]
  }

  function Perform(op: Operation, s: Store, now: int): (Store, Answer) {
    match op
    case Revoke(chosen) => (s.(sessions := RevokedBy(s.sessions, chosen, now)), NoAnswer)
    case RevokeFamily(id) => (s.(sessions := FamilyRevoked(s.sessions, id, now)), NoAnswer)
    case Lookup(id, policy) =>
      var (sessions, found) := LookedUp(s.sessions, id, policy, now);
      (s.(sessions := sessions), Found(found))
    case Successor(predecessor, id, policy) =>
      var (sessions, found) := SuccessorFound(s.sessions, predecessor, id, policy, now);
      (s.(sessions := sessions), Found(found))
    case Create(_, _, _, _, _) =>
      var (sessions, ok) := CreatedIn(s.sessions, op, now);
      (s.(sessions := sessions), Created(ok))
    case ConsumeLogout(id, token, chosen) =>
      var t := Unexpired(s.tokens, now);
      if id in t then (s.(tokens := t), Replayed(true))
      else (s.(tokens := t[id := token], sessions := RevokedBy(s.sessions, chosen, now)), Replayed(false))
    case CheckAccount(key) =>
      var (limits, yes) := CheckLimit(s.limits, key, now);
      (s.(limits := limits), Limited(yes))
    case CountAccountFailure(key) =>
      var (limits, yes) := CountFailure(s.limits, key, now);
      (s.(limits := limits), Limited(yes))
    case ClearFailures(key) => (s.(limits := Clear(s.limits, key)), NoAnswer)
  }

  predicate OnAccounts(op: Operation) {
    op.CheckAccount? || op.CountAccountFailure? || op.ClearFailures?
  }

  // ---- What ids stand for ----

  /** The columns of a session that its insert fixes. */
  datatype Birth = Birth(family: Family, user: string, createdAt: int, rotatedAt: int, expiresAt: int)

  /** `next` is the id into which a session is rotated, a keyed hash of its own. */
  datatype Scheme = Scheme(next: Id -> Id, birth: Id -> Birth)

  function BirthOf(r: Session): Birth {
    Birth(r.family, r.user, r.createdAt, r.lastRotatedAt, r.expiresAt)
  }

  /** A rotation that keeps the creation time keeps the expiry. */
  ghost predicate KeepsExpiry(scheme: Scheme) {
    forall k ::
      var (old_, new_) := (scheme.birth(k), scheme.birth(scheme.next(k)));
      old_.family == new_.family && old_.createdAt == new_.createdAt ==> old_.expiresAt == new_.expiresAt
  }

  predicate Proper(s: Sessions, scheme: Scheme) {
    forall k | k in s :: BirthOf(s[k]) == scheme.birth(k)
  }

  // ---- Operations act alike on stores that cannot be told apart ----

  function RevokedSeen(v: SeenSession, now: int): SeenSession {
    if v.Live? then Lately(v.session.family, v.session.createdAt, v.session.expiresAt, now) else v
  }

  lemma RevokedRowSeen(r: Session, now: int)
    ensures SeenRow(Revoked(r, now), now) == RevokedSeen(SeenRow(r, now), now)
  {}

  function ChosenSeen(v: SeenSession, k: Id, chosen: Chosen, now: int): SeenSession {
    if v.Live? && chosen(k, v.session.family) then RevokedSeen(v, now) else v
  }

  /** A revocation is seen of the live sessions it chooses, and of no other. */
  lemma RevokeSeen(s: Sessions, chosen: Chosen, now: int, k: Id)
    ensures SeenAs(RevokedBy(s, chosen, now), k, now) == ChosenSeen(SeenAs(s, k, now), k, chosen, now)
  {
    if k in s {
      RevokedRowSeen(s[k], now);
    }
  }

  lemma RevokeAlike(chosen: Chosen, now: int, a: Sessions, b: Sessions)
    requires SessionsSame(a, b, now)
    ensures SessionsSame(RevokedBy(a, chosen, now), RevokedBy(b, chosen, now), now)
  {
    var x, y := RevokedBy(a, chosen, now), RevokedBy(b, chosen, now);
    forall k ensures SeenAs(x, k, now) == SeenAs(y, k, now) {
      assert SeenAs(a, k, now) == SeenAs(b, k, now);
      RevokeSeen(a, chosen, now, k);
      RevokeSeen(b, chosen, now, k);
    }
  }

  /** The id is of no session that may be purged while its family lives on. */
  predicate NoLostFamily(s: Sessions, id: Id, now: int) {
    id in s && Purgeable(s[id].expiresAt, now) ==>
      forall k | k in s && SeenRow(s[k], now).Live? :: KeyOf(s[k].family) != KeyOf(s[id].family)
  }

  lemma LostFamilyUnseen(s: Sessions, id: Id, now: int)
    requires NoLostFamily(s, id, now) && SeenAs(s, id, now) == Gone
    ensures SessionsSame(FamilyRevoked(s, id, now), s, now)
  {
    forall k ensures SeenAs(FamilyRevoked(s, id, now), k, now) == SeenAs(s, k, now) {
      if id in s {
        RevokeSeen(s, InFamily(KeyOf(s[id].family)), now, k);
      }
    }
  }

  lemma SessionsSameVia(a: Sessions, b: Sessions, x: Sessions, y: Sessions, now: int)
    requires SessionsSame(a, b, now) && SessionsSame(x, a, now) && SessionsSame(y, b, now)
    ensures SessionsSame(x, y, now)
  {
    forall k ensures SeenAs(x, k, now) == SeenAs(y, k, now) {
      assert SeenAs(x, k, now) == SeenAs(a, k, now) == SeenAs(b, k, now);
      assert SeenAs(y, k, now) == SeenAs(b, k, now);
    }
  }

  lemma RevokeFamilyAlike(id: Id, now: int, a: Sessions, b: Sessions)
    requires SessionsSame(a, b, now) && (id in a <==> id in b)
    requires id in a ==> KeyOf(a[id].family) == KeyOf(b[id].family)
    ensures SessionsSame(FamilyRevoked(a, id, now), FamilyRevoked(b, id, now), now)
  {
    if id in a {
      RevokeAlike(InFamily(KeyOf(a[id].family)), now, a, b);
    }
  }

  /** A logout by the id of a session that may be purged is not seen exactly when no session of its family lives. */
  lemma LostFamilyUnseenIff(s: Sessions, id: Id, now: int)
    requires SeenAs(s, id, now) == Gone
    ensures SessionsSame(FamilyRevoked(s, id, now), s, now) <==> NoLostFamily(s, id, now)
  {
    if NoLostFamily(s, id, now) {
      LostFamilyUnseen(s, id, now);
    } else {
      var k :| k in s && SeenRow(s[k], now).Live? && KeyOf(s[k].family) == KeyOf(s[id].family);
      RevokeSeen(s, InFamily(KeyOf(s[id].family)), now, k);
      assert SeenAs(FamilyRevoked(s, id, now), k, now) != SeenAs(s, k, now);
    }
  }

  lemma SessionsSameSymm(a: Sessions, b: Sessions, now: int)
    requires SessionsSame(a, b, now)
    ensures SessionsSame(b, a, now)
  {
    forall k ensures SeenAs(b, k, now) == SeenAs(a, k, now) {
      assert SeenAs(a, k, now) == SeenAs(b, k, now);
    }
  }

  /** Only one of two stores that look alike still has the session, because the other has purged it. */
  lemma PurgedFamilyAlikeIff(id: Id, now: int, a: Sessions, b: Sessions)
    requires SessionsSame(a, b, now) && id in a && id !in b
    ensures SessionsSame(FamilyRevoked(a, id, now), FamilyRevoked(b, id, now), now) <==> NoLostFamily(a, id, now)
  {
    assert SeenAs(a, id, now) == SeenAs(b, id, now);
    LostFamilyUnseenIff(a, id, now);
    var x := FamilyRevoked(a, id, now);
    if SessionsSame(x, a, now) {
      SessionsSameVia(a, b, x, b, now);
    }
    if SessionsSame(x, b, now) {
      SessionsSameSymm(a, b, now);
      SessionsSameVia(b, a, x, a, now);
    }
  }

  /** A logout acts alike exactly when both stores have the id, neither has, or no session of its family lives. */
  lemma RevokeFamilyAlikeIff(id: Id, scheme: Scheme, now: int, a: Sessions, b: Sessions)
    requires SessionsSame(a, b, now) && Proper(a, scheme) && Proper(b, scheme)
    ensures SessionsSame(FamilyRevoked(a, id, now), FamilyRevoked(b, id, now), now) <==> FamilyAgrees(id, a, b, now)
  {
    if id in a <==> id in b {
      assert id in a ==> BirthOf(a[id]) == BirthOf(b[id]);
      RevokeFamilyAlike(id, now, a, b);
    } else if id in a {
      PurgedFamilyAlikeIff(id, now, a, b);
    } else {
      SessionsSameSymm(a, b, now);
      PurgedFamilyAlikeIff(id, now, b, a);
      SameSymmIff(FamilyRevoked(a, id, now), FamilyRevoked(b, id, now), now);
    }
  }

  lemma SameSymmIff(a: Sessions, b: Sessions, now: int)
    ensures SessionsSame(a, b, now) <==> SessionsSame(b, a, now)
  {
    if SessionsSame(a, b, now) {
      SessionsSameSymm(a, b, now);
    }
    if SessionsSame(b, a, now) {
      SessionsSameSymm(b, a, now);
    }
  }

  predicate FamilyAgrees(id: Id, a: Sessions, b: Sessions, now: int) {
    (id in a <==> id in b) || (NoLostFamily(a, id, now) && NoLostFamily(b, id, now))
  }

  function LookedUpSeen(v: SeenSession, policy: Policy, now: int): (SeenSession, Option<Session>) {
    if !v.Live? then (v, None)
    else if policy(v.session.createdAt, v.session.lastSeenAt, now) then (RevokedSeen(v, now), None)
    else (Live(Touched(v.session, now)), Some(Touched(v.session, now)))
  }

  lemma LookupSeen(s: Sessions, id: Id, policy: Policy, now: int, k: Id)
    ensures var (after, found) := LookedUp(s, id, policy, now);
            var (seen, answer) := LookedUpSeen(SeenAs(s, id, now), policy, now);
            found == answer && SeenAs(after, k, now) == if k == id then seen else SeenAs(s, k, now)
  {
    if id in s {
      RevokedRowSeen(s[id], now);
    }
  }

  lemma LookupAlike(id: Id, policy: Policy, now: int, a: Sessions, b: Sessions)
    requires SessionsSame(a, b, now)
    ensures LookedUp(a, id, policy, now).1 == LookedUp(b, id, policy, now).1
    ensures SessionsSame(LookedUp(a, id, policy, now).0, LookedUp(b, id, policy, now).0, now)
  {
    var x, y := LookedUp(a, id, policy, now).0, LookedUp(b, id, policy, now).0;
    assert SeenAs(a, id, now) == SeenAs(b, id, now);
    LookupSeen(a, id, policy, now, id);
    LookupSeen(b, id, policy, now, id);
    forall k ensures SeenAs(x, k, now) == SeenAs(y, k, now) {
      assert SeenAs(a, k, now) == SeenAs(b, k, now);
      LookupSeen(a, id, policy, now, k);
      LookupSeen(b, id, policy, now, k);
    }
  }

  /** The test for a recent successor, on what is seen of the two. */
  predicate SuccessorSeen(previous: SeenSession, next: SeenSession, policy: Policy, now: int) {
    && previous.Lately? && next.Live?
    && previous.revokedAt <= now
    && next.session.family == previous.family
    && next.session.createdAt == previous.createdAt
    && next.session.lastRotatedAt >= previous.revokedAt
    && !policy(next.session.createdAt, next.session.lastSeenAt, now)
  }

  /** An expired predecessor has no live successor, so the test needs nothing that is not seen. */
  lemma SuccessorIsSeen(s: Sessions, scheme: Scheme, predecessor: Id, policy: Policy, now: int)
    requires Proper(s, scheme) && KeepsExpiry(scheme)
    ensures var id := scheme.next(predecessor);
            (predecessor in s && id in s && RecentSuccessor(s[predecessor], s[id], policy, now))
            <==> SuccessorSeen(SeenAs(s, predecessor, now), SeenAs(s, id, now), policy, now)
  {
    var id := scheme.next(predecessor);
    if predecessor in s && id in s {
      assert BirthOf(s[predecessor]) == scheme.birth(predecessor) && BirthOf(s[id]) == scheme.birth(id);
    }
  }

  lemma SuccessorAlike(predecessor: Id, policy: Policy, scheme: Scheme, now: int, a: Sessions, b: Sessions)
    requires SessionsSame(a, b, now) && Proper(a, scheme) && Proper(b, scheme) && KeepsExpiry(scheme)
    ensures var id := scheme.next(predecessor);
            && SuccessorFound(a, predecessor, id, policy, now).1 == SuccessorFound(b, predecessor, id, policy, now).1
            && SessionsSame(SuccessorFound(a, predecessor, id, policy, now).0,
                            SuccessorFound(b, predecessor, id, policy, now).0, now)
  {
    var id := scheme.next(predecessor);
    assert SeenAs(a, id, now) == SeenAs(b, id, now) && SeenAs(a, predecessor, now) == SeenAs(b, predecessor, now);
    SuccessorIsSeen(a, scheme, predecessor, policy, now);
    SuccessorIsSeen(b, scheme, predecessor, policy, now);
    var x, y := SuccessorFound(a, predecessor, id, policy, now).0, SuccessorFound(b, predecessor, id, policy, now).0;
    forall k ensures SeenAs(x, k, now) == SeenAs(y, k, now) {
      assert SeenAs(a, k, now) == SeenAs(b, k, now);
    }
  }

  /** The purge is not seen. */
  lemma PurgeUnseen(s: Sessions, now: int)
    ensures SessionsSame(Purged(s, now), s, now)
  {}

  lemma InsertAlike(id: Id, record: Session, now: int, a: Sessions, b: Sessions)
    requires SessionsSame(a, b, now)
    ensures SessionsSame(a[id := record], b[id := record], now)
  {
    var x, y := a[id := record], b[id := record];
    forall k ensures SeenAs(x, k, now) == SeenAs(y, k, now) {
      assert SeenAs(a, k, now) == SeenAs(b, k, now);
    }
  }

  lemma InsertedAlike(op: Operation, now: int, a: Sessions, b: Sessions)
    requires op.Create? && SessionsSame(a, b, now)
    ensures SessionsSame(Inserted(a, op.id, op.record, op.replaced, op.victims, now),
                         Inserted(b, op.id, op.record, op.replaced, op.victims, now), now)
  {
    var chosen := (k: Id, f: Family) => Some(k) == op.replaced || (k != op.id && op.victims(k, f));
    InsertAlike(op.id, op.record, now, a, b);
    var x, y := RevokedBy(a[op.id := op.record], chosen, now), RevokedBy(b[op.id := op.record], chosen, now);
    RevokeAlike(chosen, now, a[op.id := op.record], b[op.id := op.record]);
    PurgeUnseen(x, now);
    PurgeUnseen(y, now);
    SessionsSameVia(x, y, Purged(x, now), Purged(y, now), now);
  }

  lemma ReplaceAlike(predecessor: Id, record: Session, lifetime: Policy, now: int, a: Sessions, b: Sessions)
    requires SessionsSame(a, b, now)
    ensures MayReplace(a, predecessor, record, lifetime, now) <==> MayReplace(b, predecessor, record, lifetime, now)
  {
    assert SeenAs(a, predecessor, now) == SeenAs(b, predecessor, now);
  }

  lemma RetryAlike(op: Operation, scheme: Scheme, now: int, a: Sessions, b: Sessions)
    requires op.Create? && op.replaced.Some? && op.id == scheme.next(op.replaced.value)
    requires SessionsSame(a, b, now) && Proper(a, scheme) && Proper(b, scheme) && KeepsExpiry(scheme)
    ensures IsRetry(a, op.replaced.value, op.id, op.record, op.lifetime, now)
            <==> IsRetry(b, op.replaced.value, op.id, op.record, op.lifetime, now)
  {
    var predecessor := op.replaced.value;
    assert SeenAs(a, op.id, now) == SeenAs(b, op.id, now);
    assert SeenAs(a, predecessor, now) == SeenAs(b, predecessor, now);
    SuccessorIsSeen(a, scheme, predecessor, op.lifetime, now);
    SuccessorIsSeen(b, scheme, predecessor, op.lifetime, now);
  }

  predicate InsertAgrees(op: Operation, a: Sessions, b: Sessions, now: int)
    requires op.Create?
  {
    Inserts(a, op.record, op.replaced, op.lifetime, now) ==> (op.id in a <==> op.id in b)
  }

  /** A create answers alike exactly when it inserts into both stores or into neither; then it acts alike. */
  lemma CreateAlikeIff(op: Operation, scheme: Scheme, now: int, a: Sessions, b: Sessions)
    requires op.Create? && (op.replaced.Some? ==> op.id == scheme.next(op.replaced.value))
    requires SessionsSame(a, b, now) && Proper(a, scheme) && Proper(b, scheme) && KeepsExpiry(scheme)
    ensures CreatedIn(a, op, now).1 == CreatedIn(b, op, now).1 <==> InsertAgrees(op, a, b, now)
    ensures InsertAgrees(op, a, b, now) ==> SessionsSame(CreatedIn(a, op, now).0, CreatedIn(b, op, now).0, now)
  {
    if op.replaced.Some? {
      ReplaceAlike(op.replaced.value, op.record, op.lifetime, now, a, b);
      RetryAlike(op, scheme, now, a, b);
    }
    InsertedAlike(op, now, a, b);
  }

  lemma LogoutAlike(id: Id, token: Token, now: int, a: Tokens, b: Tokens)
    requires TokensSame(a, b, now)
    ensures id in Unexpired(a, now) <==> id in Unexpired(b, now)
    ensures TokensSame(Unexpired(a, now), Unexpired(b, now), now)
    ensures TokensSame(Unexpired(a, now)[id := token], Unexpired(b, now)[id := token], now)
  {
    assert SeenToken(a, id, now) == SeenToken(b, id, now);
    forall k ensures SeenToken(Unexpired(a, now), k, now) == SeenToken(Unexpired(b, now), k, now) {
      assert SeenToken(a, k, now) == SeenToken(b, k, now);
    }
    var x, y := Unexpired(a, now)[id := token], Unexpired(b, now)[id := token];
    forall k ensures SeenToken(x, k, now) == SeenToken(y, k, now) {
      assert SeenToken(a, k, now) == SeenToken(b, k, now);
    }
  }

  /** The ids in an operation are those that clients use: a successor's id is that of its predecessor's rotation. */
  predicate FollowsScheme(op: Operation, scheme: Scheme) {
    && (op.Successor? ==> op.id == scheme.next(op.predecessor))
    && (op.Create? && op.replaced.Some? ==> op.id == scheme.next(op.replaced.value))
  }

  /** The two stores agree on what is not seen of the id in a logout or a create: whether a row is left under it. */
  predicate AgreeOn(op: Operation, a: Sessions, b: Sessions, now: int) {
    (op.RevokeFamily? ==> FamilyAgrees(op.id, a, b, now)) && (op.Create? ==> InsertAgrees(op, a, b, now))
  }

  /** Unless it is one about accounts, an operation answers alike on the two stores and leaves them alike. */
  ghost predicate ActsAlike(op: Operation, now: int, a: Store, b: Store) {
    var (x, y) := (Perform(op, a, now), Perform(op, b, now));
    && SessionsSame(x.0.sessions, y.0.sessions, now)
    && TokensSame(x.0.tokens, y.0.tokens, now)
    && (!OnAccounts(op) ==> x.1 == y.1)
  }

  /**
   Sessions and tokens that look alike before an operation look alike after it, and so do the answers about
   them, if and only if the stores agree on the id of a purged session that a logout or a create names.
   */
  lemma SessionsActAlikeIff(op: Operation, scheme: Scheme, now: int, a: Store, b: Store)
    requires SessionsSame(a.sessions, b.sessions, now) && TokensSame(a.tokens, b.tokens, now)
    requires Proper(a.sessions, scheme) && Proper(b.sessions, scheme) && KeepsExpiry(scheme)
    requires FollowsScheme(op, scheme)
    ensures ActsAlike(op, now, a, b) <==> AgreeOn(op, a.sessions, b.sessions, now)
  {
    match op
    case Revoke(chosen) => RevokeAlike(chosen, now, a.sessions, b.sessions);
    case RevokeFamily(id) => RevokeFamilyAlikeIff(id, scheme, now, a.sessions, b.sessions);
    case Lookup(id, policy) => LookupAlike(id, policy, now, a.sessions, b.sessions);
    case Successor(p, _, policy) => SuccessorAlike(p, policy, scheme, now, a.sessions, b.sessions);
    case Create(_, _, _, _, _) => CreateAlikeIff(op, scheme, now, a.sessions, b.sessions);
    case ConsumeLogout(id, token, chosen) =>
      LogoutAlike(id, token, now, a.tokens, b.tokens);
      RevokeAlike(chosen, now, a.sessions, b.sessions);
    case _ =>
  }

  /** Where the id is seen the stores agree on it. */
  lemma SeenAgrees(op: Operation, a: Sessions, b: Sessions, now: int)
    requires SessionsSame(a, b, now)
    requires op.RevokeFamily? || op.Create? ==> SeenAs(a, op.id, now) != Gone || (op.id !in a && op.id !in b)
    ensures AgreeOn(op, a, b, now)
  {
    if op.RevokeFamily? || op.Create? {
      assert SeenAs(a, op.id, now) == SeenAs(b, op.id, now);
    }
  }

  /** `op` rotates a session into a new one of the same family, which starts at the rotation. */
  predicate Rotates(op: Operation, s: Sessions, now: int) {
    && op.Create? && op.replaced.Some? && op.id != op.replaced.value && op.id !in s
    && MayReplace(s, op.replaced.value, op.record, op.lifetime, now)
    && op.record.family == s[op.replaced.value].family
    && op.record.createdAt == s[op.replaced.value].createdAt
    && op.record.lastRotatedAt == now
    && op.record.expiresAt > now
  }

  /** `again` is the same rotation, asked for by another request or once more. */
  predicate SameRotation(again: Operation, op: Operation) {
    && again.Create? && op.Create?
    && again.id == op.id && again.replaced == op.replaced
    && KeyOf(again.record.family) == KeyOf(op.record.family)
    && again.record.user == op.record.user && again.record.expiresAt == op.record.expiresAt
  }

  /**
   A rotation that is repeated while its result is valid succeeds within the grace, and changes nothing;
   later it fails.  The cookie of the predecessor leads to the same session just as long.
   */
  lemma RepeatedRotation(s: Sessions, op: Operation, again: Operation, policy: Policy, now: int, later: int)
    requires Rotates(op, s, now) && SameRotation(again, op) && now <= later
    requires Valid(op.record, again.lifetime, later) && Valid(op.record, policy, later)
    ensures var after := CreatedIn(s, op, now).0;
            && CreatedIn(s, op, now).1
            && CreatedIn(after, again, later) == (after, later - now <= ROTATION_GRACE)
            && SuccessorFound(after, op.replaced.value, op.id, policy, later).1
               == (if later - now <= ROTATION_GRACE then Some(Touched(op.record, later)) else None)
            && LookedUp(after, op.replaced.value, policy, later).1 == None
  {
    var p := op.replaced.value;
    var after := CreatedIn(s, op, now).0;
    assert p in after && after[p] == Revoked(s[p], now);
    assert op.id in after && after[op.id] == op.record;
  }

  /** What an operation makes of what is seen of one account. */
  function SeenAfter(op: Operation, s: Seen, k: Key, now: int): Seen {
    if op.CountAccountFailure? && op.key == k then Counted(s, now)
    else if op.ClearFailures? && op.key == k then NOTHING_SEEN
    else s
  }

  /**
   Pruning, rewriting and deleting rows is invisible: only counting and clearing an account change what is
   seen of it.
   */
  lemma AccountsAfter(op: Operation, now: int, s: Store, k: Key)
    requires Tidy(s.limits, now)
    ensures SeenOf(Perform(op, s, now).0.limits, k, now) == SeenAfter(op, SeenOf(s.limits, k, now), k, now)
  {
    match op
    case CheckAccount(key) => CheckIsInvisible(s.limits, key, now, k);
    case CountAccountFailure(key) => CountingIsLocal(s.limits, key, now, k);
    case _ =>
  }

  /** Accounts that look alike before an operation look alike after it, and are locked alike. */
  lemma AccountsActAlike(op: Operation, now: int, a: Store, b: Store)
    requires LimitsSame(a.limits, b.limits, now) && Tidy(a.limits, now) && Tidy(b.limits, now)
    ensures LimitsSame(Perform(op, a, now).0.limits, Perform(op, b, now).0.limits, now)
    ensures OnAccounts(op) ==> Perform(op, a, now).1 == Perform(op, b, now).1
  {
    forall k
      ensures SeenOf(Perform(op, a, now).0.limits, k, now) == SeenOf(Perform(op, b, now).0.limits, k, now)
    {
      assert SeenOf(a.limits, k, now) == SeenOf(b.limits, k, now);
      AccountsAfter(op, now, a, k);
      AccountsAfter(op, now, b, k);
    }
    if op.CheckAccount? || op.CountAccountFailure? {
      assert SeenOf(a.limits, op.key, now) == SeenOf(b.limits, op.key, now);
    }
  }

  lemma OperationsKeepTidy(op: Operation, now: int, s: Store)
    requires Tidy(s.limits, now)
    ensures Tidy(Perform(op, s, now).0.limits, now)
  {
    match op
    case CheckAccount(key) => CheckKeepsTidy(s.limits, key, now);
    case CountAccountFailure(key) => CountKeepsTidy(s.limits, key, now);
    case _ =>
  }

  lemma InsertKeepsProper(op: Operation, scheme: Scheme, now: int, s: Sessions)
    requires op.Create? && Proper(s, scheme) && BirthOf(op.record) == scheme.birth(op.id)
    ensures Proper(Inserted(s, op.id, op.record, op.replaced, op.victims, now), scheme)
  {
    assert Proper(s[op.id := op.record], scheme);
  }

  /** An insert gives the id the session it stands for. */
  lemma OperationsKeepProper(op: Operation, scheme: Scheme, now: int, s: Store)
    requires Proper(s.sessions, scheme)
    requires op.Create? && Inserts(s.sessions, op.record, op.replaced, op.lifetime, now) && op.id !in s.sessions
             ==> BirthOf(op.record) == scheme.birth(op.id)
    ensures Proper(Perform(op, s, now).0.sessions, scheme)
  {
    if op.Create? && Inserts(s.sessions, op.record, op.replaced, op.lifetime, now) && op.id !in s.sessions {
      InsertKeepsProper(op, scheme, now, s.sessions);
    }
  }

  // ---- Copies left behind in other backends ----

  /** `c` is what `r` was at the same moment or an earlier one. */
  predicate Behind(c: Session, r: Session) {
    BirthOf(c) == BirthOf(r) && c.lastSeenAt <= r.lastSeenAt && RevokedNoEarlier(c.revokedAt, r.revokedAt)
  }

  /** Each session of the copy is an older version of one in `current`, or may be purged. */
  predicate SessionsBehind(copy: Sessions, current: Sessions, now: int) {
    forall k | k in copy && !Purgeable(copy[k].expiresAt, now) :: k in current && Behind(copy[k], current[k])
  }

  ghost predicate TokensBehind(copy: Tokens, current: Tokens, now: int) {
    forall k :: TokenAbsorbed(SeenToken(copy, k, now), SeenToken(current, k, now))
  }

  /** `copy` is what an earlier switch left behind of `current`. */
  ghost predicate LeftBehind(copy: Store, current: Store, now: int) {
    SessionsBehind(copy.sessions, current.sessions, now) && TokensBehind(copy.tokens, current.tokens, now)
  }

  lemma LeftBehindIsAbsorbed(copy: Store, current: Store, scheme: Scheme, now: int)
    requires LeftBehind(copy, current, now) && Proper(copy.sessions, scheme) && Proper(current.sessions, scheme)
    ensures SessionsAbsorbed(copy.sessions, current.sessions, now) && TokensAbsorbed(copy.tokens, current.tokens, now)
  {
    forall k | k in copy.sessions
      ensures if k in current.sessions then SessionAbsorbed(copy.sessions[k], current.sessions[k], now)
              else SeenRow(copy.sessions[k], now) == Gone
    {
      if k in current.sessions {
        assert BirthOf(copy.sessions[k]) == BirthOf(current.sessions[k]);
      }
    }
  }

  lemma LeftBehindLater(copy: Store, current: Store, now: int, later: int)
    requires LeftBehind(copy, current, now) && now <= later
    ensures LeftBehind(copy, current, later)
  {
    forall k ensures TokenAbsorbed(SeenToken(copy.tokens, k, later), SeenToken(current.tokens, k, later)) {
      assert TokenAbsorbed(SeenToken(copy.tokens, k, now), SeenToken(current.tokens, k, now));
    }
  }

  lemma LeftBehindSelf(s: Store, now: int)
    ensures LeftBehind(s, s, now)
  {}

  lemma LeftBehindTrans(a: Store, b: Store, c: Store, now: int)
    requires LeftBehind(a, b, now) && LeftBehind(b, c, now)
    ensures LeftBehind(a, c, now)
  {
    forall k ensures TokenAbsorbed(SeenToken(a.tokens, k, now), SeenToken(c.tokens, k, now)) {
      assert TokenAbsorbed(SeenToken(a.tokens, k, now), SeenToken(b.tokens, k, now));
      assert TokenAbsorbed(SeenToken(b.tokens, k, now), SeenToken(c.tokens, k, now));
    }
  }

  lemma LogoutAdvances(id: Id, token: Token, now: int, t: Tokens)
    ensures forall k :: TokenAbsorbed(SeenToken(t, k, now), SeenToken(Unexpired(t, now), k, now))
    ensures id !in Unexpired(t, now) ==>
              forall k :: TokenAbsorbed(SeenToken(t, k, now), SeenToken(Unexpired(t, now)[id := token], k, now))
  {}

  /** An operation only moves records forward, so that a copy left behind stays behind. */
  lemma OperationsAdvance(op: Operation, now: int, s: Store)
    ensures LeftBehind(s, Perform(op, s, now).0, now)
  {
    if op.ConsumeLogout? {
      LogoutAdvances(op.id, op.token, now, s.tokens);
    }
  }

  /** What is seen of a session later follows from what is seen of it now. */
  function SeenSessionLater(v: SeenSession, later: int): SeenSession {
    match v
    case Gone => Gone
    case Spent(key, expiresAt) => if Purgeable(expiresAt, later) then Gone else v
    case Lately(family, _, expiresAt, revokedAt) =>
      if Purgeable(expiresAt, later) then Gone
      else if expiresAt <= later || later - revokedAt > ROTATION_GRACE then Spent(KeyOf(family), expiresAt)
      else v
    case Live(session) => SeenRow(session, later)
  }

  lemma SeenLaterIs(s: Sessions, k: Id, now: int, later: int)
    requires now <= later
    ensures SeenAs(s, k, later) == SeenSessionLater(SeenAs(s, k, now), later)
  {}

  lemma SessionsSameLater(a: Sessions, b: Sessions, now: int, later: int)
    requires SessionsSame(a, b, now) && now <= later
    ensures SessionsSame(a, b, later)
  {
    forall k ensures SeenAs(a, k, later) == SeenAs(b, k, later) {
      assert SeenAs(a, k, now) == SeenAs(b, k, now);
      SeenLaterIs(a, k, now, later);
      SeenLaterIs(b, k, now, later);
    }
  }

  /** Records that were cleared or dropped come back from a backend that still shows them. */
  lemma ClearedFailuresReturn(current: Store, copy: Store, key: Key, now: int)
    requires SeenOf(copy.limits, key, now) != NOTHING_SEEN
    ensures var cleared := Perform(ClearFailures(key), current, now).0;
            && SeenOf(cleared.limits, key, now) == NOTHING_SEEN
            && SeenOf(Import(copy, cleared).limits, key, now) == SeenOf(copy.limits, key, now)
            && !Same(Import(copy, cleared), cleared, now)
  {}

  /**
   The row of a session that expired more than a day ago comes back from a backend that never purged it.  It is
   not seen, but a logout by its id then revokes what lives of its family, which it did not do before.
   */
  lemma PurgedSessionReturns(current: Store, copy: Store, k: Id, j: Id, now: int)
    requires SessionsAbsorbed(copy.sessions, current.sessions, now)
    requires k in copy.sessions && k !in current.sessions
    requires SeenAs(current.sessions, j, now).Live?
    requires KeyOf(current.sessions[j].family) == KeyOf(copy.sessions[k].family)
    ensures var after := Import(copy, current);
            && SessionsSame(after.sessions, current.sessions, now)
            && SeenAs(Perform(RevokeFamily(k), after, now).0.sessions, j, now).Lately?
            && Perform(RevokeFamily(k), current, now).0 == current
  {
    var after := Import(copy, current);
    SessionsImportedIff(copy.sessions, current.sessions, now);
    assert SeenAs(after.sessions, j, now) == SeenAs(current.sessions, j, now);
    assert after.sessions[k] == copy.sessions[k];
    RevokeSeen(after.sessions, InFamily(KeyOf(after.sessions[k].family)), now, j);
  }
}
