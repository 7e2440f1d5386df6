/**
  The identity store, written twice: locked dictionaries (src/orcheo/identity/repository.py)
  and conditional SQL (src/orcheo/identity/postgres_store.py). Both keep the same five tables.
  Callers hold copies that may be stale. Random tokens are numbers, and hashes are injective,
  so a hash is represented by its token.
 */
module IdentityModel {
  import opened Common

  type Time = int
  type Id = nat
  type Hash = nat

  datatype Challenge = Challenge(email: string, expiresAt: Time, attempts: nat, consumedAt: Option<Time>)

  datatype Session = Session(
    user: Id, client: Option<string>, hash: Hash, expiresAt: Time, revokedAt: Option<Time>, scopes: Option<seq<string>>)
  {
    predicate ActiveAt(now: Time) { revokedAt.None? && now < expiresAt }
  }

  datatype AuthRequest = AuthRequest(
    client: string, user: Option<Id>, decidedAt: Option<Time>, codeHash: Option<Hash>, codeExpiresAt: Option<Time>,
    consumedAt: Option<Time>)

  datatype Passkey = Passkey(user: Id, credential: string, signCount: nat, backedUp: bool, name: string, lastUsedAt: Option<Time>)

  datatype Ceremony = Registration | Authentication
  datatype Ticket = Ticket(ceremony: Ceremony, user: Option<Id>, createdAt: Time, expiresAt: Time)

  datatype Store = Store(
    challenges: map<Id, Challenge>,
    sessions: map<Id, Session>,
    requests: map<Id, AuthRequest>,
    passkeys: map<Id, Passkey>,
    tickets: map<Id, Ticket>)

  datatype Outcome = Ok | Missing | Locked | Duplicate | Revoked(count: nat)

  datatype Action =
    | AddChallenge(id: Id, challenge: Challenge)
    | ConsumeChallenge(id: Id, now: Time, limit: Option<nat>)
    | CountGuess(id: Id, now: Time, max: nat)
    | AddSession(id: Id, session: Session)
    | UpdateSession(id: Id, session: Session)
    | RotateSession(id: Id, session: Session, presented: Hash, now: Time)
    | RevokeAll(user: Id, now: Time)
    | AddRequest(id: Id, request: AuthRequest)
    | Decide(id: Id, request: AuthRequest)
    | ConsumeCode(id: Id, now: Time)
    | AddPasskey(id: Id, passkey: Passkey)
    | RecordUse(id: Id, count: nat, backedUp: bool, now: Time)
    | RenamePasskey(user: Id, id: Id, name: string)
    | DeletePasskey(user: Id, id: Id)
    | AddTicket(id: Id, ticket: Ticket)
    | ConsumeTicket(id: Id, ceremony: Ceremony, signer: Option<Id>, now: Time)

  function Max(a: nat, b: nat): nat { if a >= b then a else b }

  function Empty(): Store { Store(map[], map[], map[], map[], map[]) }

  // ---------------------------------------------------------------- locked dictionaries

  function MemConsumeChallenge(t: map<Id, Challenge>, id: Id, now: Time, limit: Option<nat>): (map<Id, Challenge>, Outcome) {
    if id !in t || t[id].consumedAt.Some? || now >= t[id].expiresAt then (t, Missing)
    else if limit.Some? && t[id].attempts >= limit.value then (t, Locked)
    else (t[id := t[id].(consumedAt := Some(now))], Ok)
  }

  function MemCountGuess(t: map<Id, Challenge>, id: Id, now: Time, max: nat): (map<Id, Challenge>, Outcome) {
    if id !in t || t[id].consumedAt.Some? || now >= t[id].expiresAt then (t, Missing)
    else if t[id].attempts >= max then (t, Locked)
    else (t[id := t[id].(attempts := t[id].attempts + 1)], Ok)
  }

  /** The whole copy is stored, but a revocation on record wins. */
  function MemUpdateSession(t: map<Id, Session>, id: Id, copy: Session): (map<Id, Session>, Outcome) {
    if id !in t then (t, Missing)
    else (t[id := if t[id].revokedAt.Some? then copy.(revokedAt := t[id].revokedAt) else copy], Ok)
  }

  function MemRotateSession(t: map<Id, Session>, id: Id, copy: Session, presented: Hash, now: Time): (map<Id, Session>, Outcome) {
    if id !in t || t[id].hash != presented || !t[id].ActiveAt(now) then (t, Missing)
    else (t[id := copy], Ok)
  }

  predicate Revocable(s: Session, user: Id) { s.user == user && s.revokedAt.None? }

  function RevokedAll(t: map<Id, Session>, user: Id, now: Time): map<Id, Session> {
    map i | i in t :: if Revocable(t[i], user) then t[i].(revokedAt := Some(now)) else t[i]
  }

  function RevocableIds(t: map<Id, Session>, user: Id): set<Id> {
    set i | i in t && Revocable(t[i], user)
  }

  /** The whole copy is stored. */
  function MemDecide(t: map<Id, AuthRequest>, id: Id, copy: AuthRequest): (map<Id, AuthRequest>, Outcome) {
    if id !in t || t[id].decidedAt.Some? then (t, Missing) else (t[id := copy], Ok)
  }

  function MemConsumeCode(t: map<Id, AuthRequest>, id: Id, now: Time): (map<Id, AuthRequest>, Outcome) {
    if id !in t || t[id].consumedAt.Some? then (t, Missing)
    else (t[id := t[id].(consumedAt := Some(now))], Ok)
  }

  predicate Registered(t: map<Id, Passkey>, credential: string) {
    exists i :: i in t && t[i].credential == credential
  }

  function MemAddPasskey(t: map<Id, Passkey>, id: Id, p: Passkey): (map<Id, Passkey>, Outcome) {
    if Registered(t, p.credential) then (t, Duplicate) else (t[id := p], Ok)
  }

  function MemRecordUse(t: map<Id, Passkey>, id: Id, count: nat, backedUp: bool, now: Time): (map<Id, Passkey>, Outcome) {
    if id !in t then (t, Missing)
    else (t[id := t[id].(signCount := Max(t[id].signCount, count), backedUp := backedUp, lastUsedAt := Some(now))], Ok)
  }

  function MemRename(t: map<Id, Passkey>, user: Id, id: Id, name: string): (map<Id, Passkey>, Outcome) {
    if id !in t || t[id].user != user then (t, Missing) else (t[id := t[id].(name := name)], Ok)
  }

  function MemDelete(t: map<Id, Passkey>, user: Id, id: Id): (map<Id, Passkey>, Outcome) {
    if id !in t || t[id].user != user then (t, Missing) else (t - {id}, Ok)
  }

  function Unexpired(t: map<Id, Ticket>, now: Time): map<Id, Ticket> {
    map i | i in t && now < t[i].expiresAt :: t[i]
  }

  function MemConsumeTicket(t: map<Id, Ticket>, id: Id, ceremony: Ceremony, user: Option<Id>, now: Time): (map<Id, Ticket>, Outcome) {
    if id !in t || t[id].ceremony != ceremony || t[id].user != user || now >= t[id].expiresAt then (t, Missing)
    else (t - {id}, Ok)
  }

  function MemStep(s: Store, a: Action): (Store, Outcome) {
    match a
    case AddChallenge(id, c) => (s.(challenges := s.challenges[id := c]), Ok)
    case ConsumeChallenge(id, now, limit) =>
      var r := MemConsumeChallenge(s.challenges, id, now, limit); (s.(challenges := r.0), r.1)
    case CountGuess(id, now, max) => var r := MemCountGuess(s.challenges, id, now, max); (s.(challenges := r.0), r.1)
    case AddSession(id, session) => (s.(sessions := s.sessions[id := session]), Ok)
    case UpdateSession(id, copy) => var r := MemUpdateSession(s.sessions, id, copy); (s.(sessions := r.0), r.1)
    case RotateSession(id, copy, presented, now) =>
      var r := MemRotateSession(s.sessions, id, copy, presented, now); (s.(sessions := r.0), r.1)
    case RevokeAll(user, now) =>
      (s.(sessions := RevokedAll(s.sessions, user, now)), Revoked(|RevocableIds(s.sessions, user)|))
    case AddRequest(id, q) => (s.(requests := s.requests[id := q]), Ok)
    case Decide(id, copy) => var r := MemDecide(s.requests, id, copy); (s.(requests := r.0), r.1)
    case ConsumeCode(id, now) => var r := MemConsumeCode(s.requests, id, now); (s.(requests := r.0), r.1)
    case AddPasskey(id, p) => var r := MemAddPasskey(s.passkeys, id, p); (s.(passkeys := r.0), r.1)
    case RecordUse(id, count, backedUp, now) =>
      var r := MemRecordUse(s.passkeys, id, count, backedUp, now); (s.(passkeys := r.0), r.1)
    case RenamePasskey(user, id, name) => var r := MemRename(s.passkeys, user, id, name); (s.(passkeys := r.0), r.1)
    case DeletePasskey(user, id) => var r := MemDelete(s.passkeys, user, id); (s.(passkeys := r.0), r.1)
    case AddTicket(id, t) => (s.(tickets := Unexpired(s.tickets, t.createdAt)[id := t]), Ok)
    case ConsumeTicket(id, ceremony, user, now) =>
      var r := MemConsumeTicket(s.tickets, id, ceremony, user, now); (s.(tickets := r.0), r.1)
  }

  // ---------------------------------------------------------------- conditional SQL

  /** The rows of a table an UPDATE or DELETE with this condition touches. */
  predicate OpenChallenge(t: map<Id, Challenge>, id: Id, now: Time) {
    id in t && t[id].consumedAt.None? && t[id].expiresAt > now
  }

  /** After an UPDATE that touched no row: is the challenge locked, or gone? A NULL limit compares as unknown. */
  function Diagnosis(t: map<Id, Challenge>, id: Id, now: Time, limit: Option<nat>): Outcome {
    if OpenChallenge(t, id, now) && limit.Some? && t[id].attempts >= limit.value then Locked else Missing
  }

  function SqlConsumeChallenge(t: map<Id, Challenge>, id: Id, now: Time, limit: Option<nat>): (map<Id, Challenge>, Outcome) {
    if OpenChallenge(t, id, now) && (limit.None? || t[id].attempts < limit.value)
    then (t[id := t[id].(consumedAt := Some(now))], Ok)
    else (t, Diagnosis(t, id, now, limit))
  }

  function SqlCountGuess(t: map<Id, Challenge>, id: Id, now: Time, max: nat): (map<Id, Challenge>, Outcome) {
    if OpenChallenge(t, id, now) && t[id].attempts < max
    then (t[id := t[id].(attempts := t[id].attempts + 1)], Ok)
    else (t, Diagnosis(t, id, now, Some(max)))
  }

  function Coalesce(a: Option<Time>, b: Option<Time>): Option<Time> { if a.Some? then a else b }

  function SqlUpdateSession(t: map<Id, Session>, id: Id, copy: Session): (map<Id, Session>, Outcome) {
    if id in t
    then (t[id := t[id].(hash := copy.hash, expiresAt := copy.expiresAt,
                         revokedAt := Coalesce(t[id].revokedAt, copy.revokedAt), scopes := copy.scopes)], Ok)
    else (t, Missing)
  }

  function SqlRotateSession(t: map<Id, Session>, id: Id, copy: Session, presented: Hash, now: Time): (map<Id, Session>, Outcome) {
    if id in t && t[id].hash == presented && t[id].revokedAt.None? && t[id].expiresAt > now
    then (t[id := t[id].(hash := copy.hash, expiresAt := copy.expiresAt, scopes := copy.scopes)], Ok)
    else (t, Missing)
  }

  function SqlDecide(t: map<Id, AuthRequest>, id: Id, copy: AuthRequest): (map<Id, AuthRequest>, Outcome) {
    if id in t && t[id].decidedAt.None?
    then (t[id := t[id].(user := copy.user, decidedAt := copy.decidedAt, codeHash := copy.codeHash, codeExpiresAt := copy.codeExpiresAt)], Ok)
    else (t, Missing)
  }

  function SqlConsumeCode(t: map<Id, AuthRequest>, id: Id, now: Time): (map<Id, AuthRequest>, Outcome) {
    if id in t && t[id].consumedAt.None? then (t[id := t[id].(consumedAt := Some(now))], Ok) else (t, Missing)
  }

  function SqlAddPasskey(t: map<Id, Passkey>, id: Id, p: Passkey): (map<Id, Passkey>, Outcome) {
    if id in t || Registered(t, p.credential) then (t, Duplicate) else (t[id := p], Ok)
  }

  function SqlRecordUse(t: map<Id, Passkey>, id: Id, count: nat, backedUp: bool, now: Time): (map<Id, Passkey>, Outcome) {
    if id in t
    then (t[id := t[id].(signCount := if count > t[id].signCount then count else t[id].signCount, backedUp := backedUp,
                         lastUsedAt := Some(now))], Ok)
    else (t, Missing)
  }

  function SqlRename(t: map<Id, Passkey>, user: Id, id: Id, name: string): (map<Id, Passkey>, Outcome) {
    if id in t && t[id].user == user then (t[id := t[id].(name := name)], Ok) else (t, Missing)
  }

  function SqlDelete(t: map<Id, Passkey>, user: Id, id: Id): (map<Id, Passkey>, Outcome) {
    if id in t && t[id].user == user then (map i | i in t && !(i == id && t[i].user == user) :: t[i], Ok) else (t, Missing)
  }

  function DeleteExpired(t: map<Id, Ticket>, now: Time): map<Id, Ticket> {
    map i | i in t && !(t[i].expiresAt <= now) :: t[i]
  }

  predicate TicketMatches(t: Ticket, ceremony: Ceremony, user: Option<Id>, now: Time) {
    t.ceremony == ceremony && t.user == user && t.expiresAt > now
  }

  function SqlConsumeTicket(t: map<Id, Ticket>, id: Id, ceremony: Ceremony, user: Option<Id>, now: Time): (map<Id, Ticket>, Outcome) {
    if id in t && TicketMatches(t[id], ceremony, user, now)
    then (map i | i in t && !(i == id && TicketMatches(t[i], ceremony, user, now)) :: t[i], Ok)
    else (t, Missing)
  }

  function SqlStep(s: Store, a: Action): (Store, Outcome) {
    match a
    case AddChallenge(id, c) => (s.(challenges := s.challenges[id := c]), Ok)
    case ConsumeChallenge(id, now, limit) =>
      var r := SqlConsumeChallenge(s.challenges, id, now, limit); (s.(challenges := r.0), r.1)
    case CountGuess(id, now, max) => var r := SqlCountGuess(s.challenges, id, now, max); (s.(challenges := r.0), r.1)
    case AddSession(id, session) => (s.(sessions := s.sessions[id := session]), Ok)
    case UpdateSession(id, copy) => var r := SqlUpdateSession(s.sessions, id, copy); (s.(sessions := r.0), r.1)
    case RotateSession(id, copy, presented, now) =>
      var r := SqlRotateSession(s.sessions, id, copy, presented, now); (s.(sessions := r.0), r.1)
    case RevokeAll(user, now) =>
      (s.(sessions := RevokedAll(s.sessions, user, now)), Revoked(|RevocableIds(s.sessions, user)|))
    case AddRequest(id, q) => (s.(requests := s.requests[id := q]), Ok)
    case Decide(id, copy) => var r := SqlDecide(s.requests, id, copy); (s.(requests := r.0), r.1)
    case ConsumeCode(id, now) => var r := SqlConsumeCode(s.requests, id, now); (s.(requests := r.0), r.1)
    case AddPasskey(id, p) => var r := SqlAddPasskey(s.passkeys, id, p); (s.(passkeys := r.0), r.1)
    case RecordUse(id, count, backedUp, now) =>
      var r := SqlRecordUse(s.passkeys, id, count, backedUp, now); (s.(passkeys := r.0), r.1)
    case RenamePasskey(user, id, name) => var r := SqlRename(s.passkeys, user, id, name); (s.(passkeys := r.0), r.1)
    case DeletePasskey(user, id) => var r := SqlDelete(s.passkeys, user, id); (s.(passkeys := r.0), r.1)
    case AddTicket(id, t) => (s.(tickets := DeleteExpired(s.tickets, t.createdAt)[id := t]), Ok)
    case ConsumeTicket(id, ceremony, user, now) =>
      var r := SqlConsumeTicket(s.tickets, id, ceremony, user, now); (s.(tickets := r.0), r.1)
  }

  // ---------------------------------------------------------------- the two stores agree

  /** What every caller guarantees: new rows have new ids, and a copy differs from its row only in fields it may change. */
  predicate Honest(s: Store, a: Action) {
    match a
    case AddChallenge(id, _) => id !in s.challenges
    case AddSession(id, _) => id !in s.sessions
    case AddRequest(id, q) => id !in s.requests && q.decidedAt.None? && q.consumedAt.None?
    case AddPasskey(id, _) => id !in s.passkeys
    case AddTicket(id, _) => id !in s.tickets
    case UpdateSession(id, copy) => id in s.sessions ==> SameOwner(s.sessions[id], copy)
    case RotateSession(id, copy, _, _) => copy.revokedAt.None? && (id in s.sessions ==> SameOwner(s.sessions[id], copy))
    case Decide(id, copy) => copy.decidedAt.Some? && copy.consumedAt.None? && (id in s.requests ==> s.requests[id].client == copy.client)
    case _ => true
  }

  predicate SameOwner(s: Session, copy: Session) { copy.user == s.user && copy.client == s.client }

  /** Is this a decision on a request whose code, not yet issued, is already marked as consumed? */
  predicate LateDecision(s: Store, a: Action) {
    a.Decide? && a.id in s.requests && s.requests[a.id].decidedAt.None? && s.requests[a.id].consumedAt.Some?
  }

  /** On challenges the dictionary's tests and the SQL condition with its diagnosis decide alike. */
  lemma ChallengesAgree(t: map<Id, Challenge>, id: Id, now: Time, limit: Option<nat>, max: nat)
    ensures MemConsumeChallenge(t, id, now, limit) == SqlConsumeChallenge(t, id, now, limit)
    ensures MemCountGuess(t, id, now, max) == SqlCountGuess(t, id, now, max)
  {
  }

  lemma SessionsAgree(t: map<Id, Session>, id: Id, copy: Session, presented: Hash, now: Time)
    requires id in t ==> SameOwner(t[id], copy)
    ensures MemUpdateSession(t, id, copy) == SqlUpdateSession(t, id, copy)
    ensures copy.revokedAt.None? ==> MemRotateSession(t, id, copy, presented, now) == SqlRotateSession(t, id, copy, presented, now)
  {
  }

  lemma PasskeysAgree(t: map<Id, Passkey>, user: Id, id: Id, p: Passkey, count: nat, backedUp: bool, now: Time, name: string)
    ensures id !in t ==> MemAddPasskey(t, id, p) == SqlAddPasskey(t, id, p)
    ensures MemRecordUse(t, id, count, backedUp, now) == SqlRecordUse(t, id, count, backedUp, now)
    ensures MemRename(t, user, id, name) == SqlRename(t, user, id, name)
    ensures MemDelete(t, user, id) == SqlDelete(t, user, id)
  {
    hide Registered;
    assert MemDelete(t, user, id).0 == SqlDelete(t, user, id).0;
  }

  lemma TicketsAgree(t: map<Id, Ticket>, id: Id, ceremony: Ceremony, user: Option<Id>, now: Time)
    ensures MemConsumeTicket(t, id, ceremony, user, now) == SqlConsumeTicket(t, id, ceremony, user, now)
    ensures Unexpired(t, now) == DeleteExpired(t, now)
  {
    assert MemConsumeTicket(t, id, ceremony, user, now).0 == SqlConsumeTicket(t, id, ceremony, user, now).0;
  }

  lemma RequestsAgree(t: map<Id, AuthRequest>, id: Id, copy: AuthRequest, now: Time)
    ensures MemConsumeCode(t, id, now) == SqlConsumeCode(t, id, now)
    ensures id in t && t[id].decidedAt.None? && copy.client == t[id].client ==>
              (MemDecide(t, id, copy) == SqlDecide(t, id, copy) <==> t[id].consumedAt == copy.consumedAt)
    ensures id !in t || t[id].decidedAt.Some? ==> MemDecide(t, id, copy) == SqlDecide(t, id, copy)
  {
    if id in t && t[id].decidedAt.None? {
      assert MemDecide(t, id, copy).0[id] == copy;
      assert SqlDecide(t, id, copy).0[id].consumedAt == t[id].consumedAt;
    }
  }

  /** Both stores give the same answer and the same rows exactly when the call is no late decision. */
  lemma StepsAgree(s: Store, a: Action)
    requires Honest(s, a)
    ensures MemStep(s, a) == SqlStep(s, a) <==> !LateDecision(s, a)
  {
    hide MemConsumeChallenge, SqlConsumeChallenge, MemCountGuess, SqlCountGuess, MemUpdateSession, SqlUpdateSession, MemRotateSession,
      SqlRotateSession, MemDecide, SqlDecide, MemConsumeCode, SqlConsumeCode, MemAddPasskey, SqlAddPasskey, MemRecordUse, SqlRecordUse,
      MemRename, SqlRename, MemDelete, SqlDelete, MemConsumeTicket, SqlConsumeTicket, Unexpired, DeleteExpired, RevokedAll, RevocableIds;
    match a
    case ConsumeChallenge(id, now, limit) => ChallengesAgree(s.challenges, id, now, limit, 0);
    case CountGuess(id, now, max) => ChallengesAgree(s.challenges, id, now, None, max);
    case UpdateSession(id, copy) => SessionsAgree(s.sessions, id, copy, 0, 0);
    case RotateSession(id, copy, presented, now) => SessionsAgree(s.sessions, id, copy, presented, now);
    case Decide(id, copy) => RequestsAgree(s.requests, id, copy, 0);
    case ConsumeCode(id, now) => RequestsAgree(s.requests, id, AuthRequest("", None, None, None, None, None), now);
    case AddPasskey(id, p) => PasskeysAgree(s.passkeys, 0, id, p, 0, false, 0, "");
    case RecordUse(id, count, backedUp, now) => PasskeysAgree(s.passkeys, 0, id, Passkey(0, "", 0, false, "", None), count, backedUp, now, "");
    case RenamePasskey(user, id, name) => PasskeysAgree(s.passkeys, user, id, Passkey(0, "", 0, false, "", None), 0, false, 0, name);
    case DeletePasskey(user, id) => PasskeysAgree(s.passkeys, user, id, Passkey(0, "", 0, false, "", None), 0, false, 0, "");
    case AddTicket(id, t) => TicketsAgree(s.tickets, id, t.ceremony, t.user, t.createdAt);
    case ConsumeTicket(id, ceremony, user, now) => TicketsAgree(s.tickets, id, ceremony, user, now);
    case _ =>
  }
}
