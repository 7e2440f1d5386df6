/**
  The two stores as objects: the dictionaries behind one lock, and the tables changed by
  conditional statements. Each method is proved against the functions of module IdentityModel.
 */
module IdentityStores {
  import opened Common
  import opened IdentityModel

  /** The sessions of `ids` that a revocation would touch. */
  function RevocableIn(t: map<Id, Session>, ids: set<Id>, user: Id): set<Id> {
    set i | i in ids && i in t && Revocable(t[i], user)
  }

  lemma OneLess(t: map<Id, Session>, ids: set<Id>, user: Id, i: Id)
    requires i in ids && i in t
    ensures |RevocableIn(t, ids, user)| == |RevocableIn(t, ids - {i}, user)| + if Revocable(t[i], user) then 1 else 0
  {
    assert RevocableIn(t, ids - {i}, user) == RevocableIn(t, ids, user) - {i};
  }

  class InMemoryIdentityRepository {
    var challenges: map<Id, Challenge>
    var sessions: map<Id, Session>
    var requests: map<Id, AuthRequest>
    var passkeys: map<Id, Passkey>
    var tickets: map<Id, Ticket>

    constructor ()
      ensures State() == Empty()
    {
      challenges, sessions, requests, passkeys, tickets := map[], map[], map[], map[], map[];
    }

    function State(): Store
      reads this
    {
      Store(challenges, sessions, requests, passkeys, tickets)
    }

    method Consume(id: Id, now: Time, limit: Option<nat>) returns (outcome: Outcome)
      modifies this`challenges
      ensures (State(), outcome) == MemStep(old(State()), ConsumeChallenge(id, now, limit))
    {
      if id !in challenges || challenges[id].consumedAt.Some? || now >= challenges[id].expiresAt { return Missing; }
      if limit.Some? && challenges[id].attempts >= limit.value { return Locked; }
      challenges := challenges[id := challenges[id].(consumedAt := Some(now))];
      outcome := Ok;
    }

    method Guess(id: Id, now: Time, max: nat) returns (outcome: Outcome)
      modifies this`challenges
      ensures (State(), outcome) == MemStep(old(State()), CountGuess(id, now, max))
    {
      if id !in challenges || challenges[id].consumedAt.Some? || now >= challenges[id].expiresAt { return Missing; }
      if challenges[id].attempts >= max { return Locked; }
      challenges := challenges[id := challenges[id].(attempts := challenges[id].attempts + 1)];
      outcome := Ok;
    }

    method Update(id: Id, copy: Session) returns (outcome: Outcome)
      modifies this`sessions
      ensures (State(), outcome) == MemStep(old(State()), UpdateSession(id, copy))
    {
      if id !in sessions { return Missing; }
      var session := copy;
      if sessions[id].revokedAt.Some? { session := session.(revokedAt := sessions[id].revokedAt); }
      sessions := sessions[id := session];
      outcome := Ok;
    }

    method Rotate(id: Id, copy: Session, presented: Hash, now: Time) returns (outcome: Outcome)
      modifies this`sessions
      ensures (State(), outcome) == MemStep(old(State()), RotateSession(id, copy, presented, now))
    {
      if id !in sessions || sessions[id].hash != presented || !sessions[id].ActiveAt(now) { return Missing; }
      sessions := sessions[id := copy];
      outcome := Ok;
    }

    /** The loop over the sessions, one assignment at a time. */
    method RevokeSessions(user: Id, now: Time) returns (outcome: Outcome)
      modifies this`sessions
      ensures (State(), outcome) == MemStep(old(State()), RevokeAll(user, now))
    {
      var todo := sessions.Keys;
      var revoked := 0;
      ghost var before := sessions;
      assert RevocableIn(before, todo, user) == RevocableIds(before, user);
      while todo != {}
        invariant todo <= sessions.Keys == before.Keys
        invariant revoked + |RevocableIn(before, todo, user)| == |RevocableIds(before, user)|
        invariant sessions == map i | i in before ::
                    if i !in todo && Revocable(before[i], user) then before[i].(revokedAt := Some(now)) else before[i]
        invariant State() == old(State()).(sessions := sessions)
        decreases todo
      {
        hide RevocableIn, RevocableIds;
        var i :| i in todo;
        OneLess(before, todo, user, i);
        todo := todo - {i};
        if sessions[i].user == user && sessions[i].revokedAt.None? {
          sessions := sessions[i := sessions[i].(revokedAt := Some(now))];
          revoked := revoked + 1;
        }
      }
      assert sessions == RevokedAll(before, user, now);
      assert RevocableIn(before, {}, user) == {};
      outcome := Revoked(revoked);
    }

    method StoreDecision(id: Id, copy: AuthRequest) returns (outcome: Outcome)
      modifies this`requests
      ensures (State(), outcome) == MemStep(old(State()), Decide(id, copy))
    {
      if id !in requests || requests[id].decidedAt.Some? { return Missing; }
      requests := requests[id := copy];
      outcome := Ok;
    }

    method RedeemCode(id: Id, now: Time) returns (outcome: Outcome)
      modifies this`requests
      ensures (State(), outcome) == MemStep(old(State()), ConsumeCode(id, now))
    {
      if id !in requests || requests[id].consumedAt.Some? { return Missing; }
      requests := requests[id := requests[id].(consumedAt := Some(now))];
      outcome := Ok;
    }

    /** Expired tickets are deleted one by one before the new one is stored. */
    method IssueTicket(id: Id, ticket: Ticket) returns (outcome: Outcome)
      modifies this`tickets
      ensures (State(), outcome) == MemStep(old(State()), AddTicket(id, ticket))
    {
      var todo := tickets.Keys;
      while todo != {}
        invariant todo <= tickets.Keys
        invariant tickets == map i | i in old(tickets) && (i in todo || ticket.createdAt < old(tickets)[i].expiresAt) :: old(tickets)[i]
        invariant State() == old(State()).(tickets := tickets)
        decreases todo
      {
        var i :| i in todo;
        todo := todo - {i};
        if ticket.createdAt >= tickets[i].expiresAt { tickets := tickets - {i}; }
      }
      assert tickets == Unexpired(old(tickets), ticket.createdAt);
      tickets := tickets[id := ticket];
      outcome := Ok;
    }

    method RedeemTicket(id: Id, ceremony: Ceremony, signer: Option<Id>, now: Time) returns (outcome: Outcome)
      modifies this`tickets
      ensures (State(), outcome) == MemStep(old(State()), ConsumeTicket(id, ceremony, signer, now))
    {
      if id !in tickets { return Missing; }
      var ticket := tickets[id];
      if ticket.ceremony != ceremony || ticket.user != signer || now >= ticket.expiresAt { return Missing; }
      tickets := tickets - {id};
      outcome := Ok;
    }

    method UsePasskey(id: Id, count: nat, backedUp: bool, now: Time) returns (outcome: Outcome)
      modifies this`passkeys
      ensures (State(), outcome) == MemStep(old(State()), RecordUse(id, count, backedUp, now))
    {
      if id !in passkeys { return Missing; }
      var used := passkeys[id].(signCount := Max(passkeys[id].signCount, count), backedUp := backedUp, lastUsedAt := Some(now));
      passkeys := passkeys[id := used];
      outcome := Ok;
    }
  }

  /** A statement's effect on one table: the condition picks rows by id, `rowcount` counts them. */
  class PostgresIdentityStore {
    var challenges: map<Id, Challenge>
    var sessions: map<Id, Session>
    var requests: map<Id, AuthRequest>
    var passkeys: map<Id, Passkey>
    var tickets: map<Id, Ticket>

    constructor ()
      ensures State() == Empty()
    {
      challenges, sessions, requests, passkeys, tickets := map[], map[], map[], map[], map[];
    }

    function State(): Store
      reads this
    {
      Store(challenges, sessions, requests, passkeys, tickets)
    }

    /** An UPDATE, and a second statement that explains an UPDATE without effect. */
    method Consume(id: Id, now: Time, limit: Option<nat>) returns (outcome: Outcome)
      modifies this`challenges
      ensures (State(), outcome) == SqlStep(old(State()), ConsumeChallenge(id, now, limit))
    {
      var rowcount := 0;
      if OpenChallenge(challenges, id, now) && (limit.None? || challenges[id].attempts < limit.value) {
        challenges := challenges[id := challenges[id].(consumedAt := Some(now))];
        rowcount := 1;
      }
      outcome := Ok;
      if rowcount == 0 { outcome := ExplainFailure(id, now, limit); }
    }

    method ExplainFailure(id: Id, now: Time, limit: Option<nat>) returns (outcome: Outcome)
      ensures outcome == Diagnosis(challenges, id, now, limit)
    {
      var locked := OpenChallenge(challenges, id, now) && limit.Some? && challenges[id].attempts >= limit.value;
      outcome := if locked then Locked else Missing;
    }

    method Guess(id: Id, now: Time, max: nat) returns (outcome: Outcome)
      modifies this`challenges
      ensures (State(), outcome) == SqlStep(old(State()), CountGuess(id, now, max))
    {
      if OpenChallenge(challenges, id, now) && challenges[id].attempts < max {
        challenges := challenges[id := challenges[id].(attempts := challenges[id].attempts + 1)];
        return Ok;
      }
      outcome := ExplainFailure(id, now, Some(max));
    }

    method Update(id: Id, copy: Session) returns (outcome: Outcome)
      modifies this`sessions
      ensures (State(), outcome) == SqlStep(old(State()), UpdateSession(id, copy))
    {
      if id !in sessions { return Missing; }
      var row := sessions[id];
      row := row.(hash := copy.hash, expiresAt := copy.expiresAt, scopes := copy.scopes);
      if row.revokedAt.None? { row := row.(revokedAt := copy.revokedAt); }
      sessions := sessions[id := row];
      outcome := Ok;
    }

    method Rotate(id: Id, copy: Session, presented: Hash, now: Time) returns (outcome: Outcome)
      modifies this`sessions
      ensures (State(), outcome) == SqlStep(old(State()), RotateSession(id, copy, presented, now))
    {
      if !(id in sessions && sessions[id].hash == presented && sessions[id].revokedAt.None? && sessions[id].expiresAt > now) {
        return Missing;
      }
      sessions := sessions[id := sessions[id].(hash := copy.hash, expiresAt := copy.expiresAt, scopes := copy.scopes)];
      outcome := Ok;
    }

    method StoreDecision(id: Id, copy: AuthRequest) returns (outcome: Outcome)
      modifies this`requests
      ensures (State(), outcome) == SqlStep(old(State()), Decide(id, copy))
    {
      if !(id in requests && requests[id].decidedAt.None?) { return Missing; }
      var row := requests[id].(user := copy.user, decidedAt := copy.decidedAt);
      requests := requests[id := row.(codeHash := copy.codeHash, codeExpiresAt := copy.codeExpiresAt)];
      outcome := Ok;
    }

    method RedeemCode(id: Id, now: Time) returns (outcome: Outcome)
      modifies this`requests
      ensures (State(), outcome) == SqlStep(old(State()), ConsumeCode(id, now))
    {
      if !(id in requests && requests[id].consumedAt.None?) { return Missing; }
      requests := requests[id := requests[id].(consumedAt := Some(now))];
      outcome := Ok;
    }
  }
}
