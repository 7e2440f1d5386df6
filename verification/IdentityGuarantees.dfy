/**
  What holds over whole runs of the identity store, for any interleaving of callers with
  stale copies: the two stores agree, revocation is permanent, and refresh hashes,
  challenges, codes and passkey tickets are used at most once.
 */
module IdentityGuarantees {
  import opened Common
  import opened IdentityModel

  /** The two stores: locked dictionaries, and conditional SQL. */
  datatype Kind = Memory | Sql

  function StoreStep(k: Kind, s: Store, a: Action): (Store, Outcome) { if k.Memory? then MemStep(s, a) else SqlStep(s, a) }

  function After(k: Kind, s: Store, actions: seq<Action>): Store
    decreases |actions|
  {
    if actions == [] then s else After(k, StoreStep(k, s, actions[0]).0, actions[1..])
  }

  function Outcomes(k: Kind, s: Store, actions: seq<Action>): seq<Outcome>
    decreases |actions|
  {
    if actions == [] then [] else [StoreStep(k, s, actions[0]).1] + Outcomes(k, StoreStep(k, s, actions[0]).0, actions[1..])
  }

  ghost predicate HonestRun(k: Kind, s: Store, actions: seq<Action>)
    decreases |actions|
  {
    actions != [] ==> Honest(s, actions[0]) && HonestRun(k, StoreStep(k, s, actions[0]).0, actions[1..])
  }

  /** How many of the wanted actions succeed. */
  function Successes(k: Kind, s: Store, actions: seq<Action>, wanted: Action -> bool): nat
    decreases |actions|
  {
    if actions == [] then 0
    else
      (if wanted(actions[0]) && StoreStep(k, s, actions[0]).1.Ok? then 1 else 0) +
      Successes(k, StoreStep(k, s, actions[0]).0, actions[1..], wanted)
  }

  /** Whatever a call does, both stores answer alike, and all but the authorization requests end alike. */
  lemma AlikeButRequests(k: Kind, s: Store, a: Action)
    requires Honest(s, a)
    ensures StoreStep(k, s, a).1 == SqlStep(s, a).1
    ensures var s', q := StoreStep(k, s, a).0, SqlStep(s, a).0;
            s'.challenges == q.challenges && s'.sessions == q.sessions && s'.passkeys == q.passkeys && s'.tickets == q.tickets
  {
    StepsAgree(s, a);
    if LateDecision(s, a) { LateDecisionOk(s, a); }
    hide MemStep, SqlStep, LateDecision, Honest;
  }

  lemma LateDecisionOk(s: Store, a: Action)
    requires Honest(s, a) && LateDecision(s, a)
    ensures MemStep(s, a).1 == SqlStep(s, a).1
    ensures var m, q := MemStep(s, a).0, SqlStep(s, a).0;
            m.challenges == q.challenges && m.sessions == q.sessions && m.passkeys == q.passkeys && m.tickets == q.tickets
  {
  }

  // ---------------------------------------------------------------- the stores agree over runs

  /** A code is presented only once it was issued. */
  predicate Orderly(s: Store, a: Action) {
    a.ConsumeCode? && a.id in s.requests ==> s.requests[a.id].decidedAt.Some?
  }

  ghost predicate OrderlyRun(s: Store, actions: seq<Action>)
    decreases |actions|
  {
    actions != [] ==> Orderly(s, actions[0]) && OrderlyRun(StoreStep(Sql, s, actions[0]).0, actions[1..])
  }

  ghost predicate NoEarlyCodes(s: Store) {
    forall i :: i in s.requests && s.requests[i].decidedAt.None? ==> s.requests[i].consumedAt.None?
  }

  lemma StepKeepsCodes(s: Store, a: Action)
    requires NoEarlyCodes(s) && Honest(s, a) && Orderly(s, a)
    ensures NoEarlyCodes(SqlStep(s, a).0) && !LateDecision(s, a)
  {
    hide SqlConsumeChallenge, SqlCountGuess, SqlUpdateSession, SqlRotateSession, SqlAddPasskey, SqlRecordUse, SqlRename, SqlDelete,
      SqlConsumeTicket, DeleteExpired, RevokedAll, RevocableIds;
  }

  /** When codes are presented only after they were issued, the two stores are indistinguishable. */
  lemma {:induction false} RunsAgree(s: Store, actions: seq<Action>)
    requires NoEarlyCodes(s) && HonestRun(Sql, s, actions) && OrderlyRun(s, actions)
    ensures After(Memory, s, actions) == After(Sql, s, actions) && Outcomes(Memory, s, actions) == Outcomes(Sql, s, actions)
    decreases |actions|
  {
    hide MemStep, SqlStep, Honest, Orderly, NoEarlyCodes, LateDecision;
    if actions != [] {
      StepKeepsCodes(s, actions[0]);
      StepsAgree(s, actions[0]);
      RunsAgree(SqlStep(s, actions[0]).0, actions[1..]);
    }
  }

  /** Without that order the dictionary forgets: a decision reopens a code consumed before it, and the SQL does not. */
  lemma EarlyCodeConsumedTwice(id: Id, client: string, now: Time)
    ensures var undecided := AuthRequest(client, None, None, None, None, None);
            var decided := undecided.(user := Some(1), decidedAt := Some(now), codeHash := Some(7), codeExpiresAt := Some(now + 1));
            var actions := [AddRequest(id, undecided), ConsumeCode(id, now), Decide(id, decided), ConsumeCode(id, now)];
            && HonestRun(Memory, Empty(), actions) && HonestRun(Sql, Empty(), actions)
            && Outcomes(Memory, Empty(), actions) == [Ok, Ok, Ok, Ok]
            && Outcomes(Sql, Empty(), actions) == [Ok, Ok, Ok, Missing]
  {
    var undecided := AuthRequest(client, None, None, None, None, None);
    var decided := undecided.(user := Some(1), decidedAt := Some(now), codeHash := Some(7), codeExpiresAt := Some(now + 1));
    var actions := [AddRequest(id, undecided), ConsumeCode(id, now), Decide(id, decided), ConsumeCode(id, now)];
    var s1 := Empty().(requests := map[id := undecided]);
    var s2 := Empty().(requests := map[id := undecided.(consumedAt := Some(now))]);
    var m3 := Empty().(requests := map[id := decided]);
    var q3 := Empty().(requests := map[id := decided.(consumedAt := Some(now))]);
    assert MemStep(Empty(), actions[0]) == (s1, Ok) && SqlStep(Empty(), actions[0]) == (s1, Ok);
    assert map[id := undecided][id := undecided.(consumedAt := Some(now))] == s2.requests;
    assert map[id := undecided.(consumedAt := Some(now))][id := decided] == m3.requests;
    assert map[id := undecided.(consumedAt := Some(now))][id := decided.(consumedAt := Some(now))] == q3.requests;
    assert MemStep(s1, actions[1]) == (s2, Ok) && SqlStep(s1, actions[1]) == (s2, Ok);
    assert MemStep(s2, actions[2]) == (m3, Ok) && SqlStep(s2, actions[2]) == (q3, Ok);
    assert MemStep(m3, actions[3]).1 == Ok && SqlStep(q3, actions[3]).1 == Missing;
    assert Honest(Empty(), actions[0]) && Honest(s1, actions[1]) && Honest(s2, actions[2]) && Honest(q3, actions[3]) && Honest(m3, actions[3]);
    hide MemStep, SqlStep, Honest;
    assert actions[1..] == [actions[1], actions[2], actions[3]];
    assert actions[1..][1..] == [actions[2], actions[3]];
    assert actions[1..][1..][1..] == [actions[3]];
    assert Outcomes(Memory, m3, [actions[3]]) == [Ok] && Outcomes(Sql, q3, [actions[3]]) == [Missing];
    assert HonestRun(Sql, q3, [actions[3]]) && HonestRun(Memory, m3, [actions[3]]);
    assert Outcomes(Memory, s2, [actions[2], actions[3]]) == [Ok, Ok] && Outcomes(Sql, s2, [actions[2], actions[3]]) == [Ok, Missing];
    assert HonestRun(Sql, s2, [actions[2], actions[3]]) && HonestRun(Memory, s2, [actions[2], actions[3]]);
  }

  // ---------------------------------------------------------------- revocation is permanent

  predicate RevokedAt(s: Store, id: Id, at: Time) {
    id in s.sessions && s.sessions[id].revokedAt == Some(at)
  }

  lemma StepKeepsRevocation(s: Store, a: Action, id: Id, at: Time)
    requires Honest(s, a) && RevokedAt(s, id, at)
    ensures RevokedAt(SqlStep(s, a).0, id, at)
  {
    hide SqlConsumeChallenge, SqlCountGuess, SqlDecide, SqlConsumeCode, SqlAddPasskey, SqlRecordUse, SqlRename, SqlDelete,
      SqlConsumeTicket, DeleteExpired, RevocableIds;
  }

  /** A revoked session stays revoked with its first timestamp, whatever stale copies are stored. */
  lemma {:induction false} RevocationIsPermanent(k: Kind, s: Store, actions: seq<Action>, id: Id, at: Time)
    requires HonestRun(k, s, actions) && RevokedAt(s, id, at)
    ensures RevokedAt(After(k, s, actions), id, at)
    decreases |actions|
  {
    hide StoreStep, SqlStep, Honest;
    if actions != [] {
      StepKeepsRevocation(s, actions[0], id, at);
      AlikeButRequests(k, s, actions[0]);
      RevocationIsPermanent(k, StoreStep(k, s, actions[0]).0, actions[1..], id, at);
    }
  }

  // ---------------------------------------------------------------- one winner per refresh hash

  function NewHashes(a: Action): set<Hash> {
    match a
    case AddSession(_, session) => {session.hash}
    case RotateSession(_, copy, _, _) => {copy.hash}
    case _ => {}
  }

  /**
    New hashes were never seen before. An update may bring an older hash back, as a revocation
    with a copy read before a rotation does, if it leaves the session revoked.
   */
  predicate FreshHashes(s: Store, a: Action, used: set<Hash>) {
    && NewHashes(a) !! used
    && (a.UpdateSession? && a.id in s.sessions ==>
          || a.session.hash == s.sessions[a.id].hash
          || a.session.revokedAt.Some?
          || s.sessions[a.id].revokedAt.Some?)
  }

  ghost predicate FreshRun(k: Kind, s: Store, actions: seq<Action>, used: set<Hash>)
    decreases |actions|
  {
    actions != [] ==>
      && Honest(s, actions[0]) && FreshHashes(s, actions[0], used)
      && FreshRun(k, StoreStep(k, s, actions[0]).0, actions[1..], used + NewHashes(actions[0]))
  }

  predicate Holds(t: map<Id, Session>, i: Id, h: Hash) { i in t && t[i].revokedAt.None? && t[i].hash == h }

  /** Among the sessions that are not revoked each holds a used hash of its own. */
  ghost predicate HashesOk(t: map<Id, Session>, used: set<Hash>) {
    && (forall i, h :: Holds(t, i, h) ==> h in used)
    && (forall i, j, h :: Holds(t, i, h) && Holds(t, j, h) ==> i == j)
  }

  predicate Held(t: map<Id, Session>, h: Hash) { exists i :: i in t && Holds(t, i, h) }

  predicate Wins(k: Kind, s: Store, a: Action, h: Hash) {
    a.RotateSession? && a.presented == h && StoreStep(k, s, a).1.Ok?
  }

  function Winners(k: Kind, s: Store, actions: seq<Action>, h: Hash): nat
    decreases |actions|
  {
    if actions == [] then 0
    else (if Wins(k, s, actions[0], h) then 1 else 0) + Winners(k, StoreStep(k, s, actions[0]).0, actions[1..], h)
  }

  /** How a step changes the session table, as far as hashes go. */
  lemma StepHashes(s: Store, a: Action, used: set<Hash>, h: Hash)
    requires Honest(s, a) && FreshHashes(s, a, used) && HashesOk(s.sessions, used)
    ensures var t' := SqlStep(s, a).0.sessions;
            && HashesOk(t', used + NewHashes(a))
            && (Wins(Sql, s, a, h) ==> Held(s.sessions, h) && h in used && !Held(t', h))
            && (Held(t', h) ==> Held(s.sessions, h) || h in NewHashes(a))
  {
    HoldersAfter(s, a, used);
    hide SqlStep, Holds, FreshHashes, Honest;
    if Wins(Sql, s, a, h) { WinnerGivesUp(s, a, used, h); }
  }

  /** Whoever holds a hash after a step held it before, or it is new and the step gave it to this session. */
  lemma HoldersAfter(s: Store, a: Action, used: set<Hash>)
    requires Honest(s, a) && FreshHashes(s, a, used)
    ensures forall i, g :: Holds(SqlStep(s, a).0.sessions, i, g) ==>
              Holds(s.sessions, i, g) || (g in NewHashes(a) && g !in used && (a.AddSession? || a.RotateSession?) && a.id == i)
  {
    hide SqlConsumeChallenge, SqlCountGuess, SqlDecide, SqlConsumeCode, SqlAddPasskey, SqlRecordUse, SqlRename, SqlDelete,
      SqlConsumeTicket, DeleteExpired, RevocableIds;
  }

  /** The session that rotates held the presented hash and holds a new one afterwards. */
  lemma WinnerGivesUp(s: Store, a: Action, used: set<Hash>, h: Hash)
    requires Honest(s, a) && FreshHashes(s, a, used) && HashesOk(s.sessions, used) && Wins(Sql, s, a, h)
    ensures Held(s.sessions, h) && h in used && !Held(SqlStep(s, a).0.sessions, h)
  {
    HoldersAfter(s, a, used);
    assert Holds(s.sessions, a.id, h);
    assert !Holds(SqlStep(s, a).0.sessions, a.id, h);
    hide SqlStep, FreshHashes, Honest, Wins, Holds;
  }

  /**
    At most one rotation ever wins with a given refresh hash, also when a revocation with a stale
    copy writes an older hash back.
   */
  lemma {:induction false} OneWinnerPerHash(k: Kind, s: Store, actions: seq<Action>, used: set<Hash>, h: Hash)
    requires FreshRun(k, s, actions, used) && HashesOk(s.sessions, used)
    ensures Winners(k, s, actions, h) <= if Held(s.sessions, h) || h !in used then 1 else 0
    decreases |actions|
  {
    if actions != [] {
      StepHashes(s, actions[0], used, h);
      AlikeButRequests(k, s, actions[0]);
      assert Wins(k, s, actions[0], h) == Wins(Sql, s, actions[0], h) by { hide SqlStep, MemStep, Honest, FreshHashes; }
      hide StoreStep, SqlStep, Honest, HashesOk, Held, Wins;
      OneWinnerPerHash(k, StoreStep(k, s, actions[0]).0, actions[1..], used + NewHashes(actions[0]), h);
    }
  }

  // ---------------------------------------------------------------- single use

  predicate ChallengeSpent(s: Store, id: Id) { id in s.challenges && s.challenges[id].consumedAt.Some? }

  lemma StepSpendsChallenge(s: Store, a: Action, id: Id)
    requires Honest(s, a)
    ensures ChallengeSpent(s, id) ==> ChallengeSpent(SqlStep(s, a).0, id)
    ensures a.ConsumeChallenge? && a.id == id && SqlStep(s, a).1.Ok? ==>
              !ChallengeSpent(s, id) && ChallengeSpent(SqlStep(s, a).0, id)
  {
    hide SqlUpdateSession, SqlRotateSession, SqlDecide, SqlConsumeCode, SqlAddPasskey, SqlRecordUse, SqlRename, SqlDelete,
      SqlConsumeTicket, DeleteExpired, RevokedAll, RevocableIds;
  }

  /** A challenge is consumed at most once, by whichever caller comes first. */
  lemma {:induction false} ChallengeConsumedOnce(k: Kind, s: Store, actions: seq<Action>, id: Id, wanted: Action -> bool)
    requires HonestRun(k, s, actions) && forall a :: wanted(a) <==> a.ConsumeChallenge? && a.id == id
    ensures Successes(k, s, actions, wanted) <= if ChallengeSpent(s, id) then 0 else 1
    decreases |actions|
  {
    hide StoreStep, SqlStep, Honest;
    if actions != [] {
      StepSpendsChallenge(s, actions[0], id);
      AlikeButRequests(k, s, actions[0]);
      ChallengeConsumedOnce(k, StoreStep(k, s, actions[0]).0, actions[1..], id, wanted);
    }
  }

  predicate CodeSpent(s: Store, id: Id) { id in s.requests && s.requests[id].consumedAt.Some? }

  /** Does this call reopen the code of request `id`? Only the dictionary does, on a decision that comes late. */
  predicate Reopens(k: Kind, s: Store, a: Action, id: Id) { k.Memory? && LateDecision(s, a) && a.id == id }

  predicate ConsumesCode(k: Kind, s: Store, a: Action, id: Id) { a.ConsumeCode? && a.id == id && StoreStep(k, s, a).1.Ok? }

  function CountOf(b: bool): nat { if b then 1 else 0 }

  /** A code is spent by a consumption that succeeds, reopened by a late decision, and left alone by everything else. */
  lemma StepSpendsCode(k: Kind, s: Store, a: Action, id: Id)
    requires Honest(s, a)
    ensures CountOf(CodeSpent(StoreStep(k, s, a).0, id)) + CountOf(Reopens(k, s, a, id)) ==
            CountOf(CodeSpent(s, id)) + CountOf(ConsumesCode(k, s, a, id))
  {
    hide SqlUpdateSession, SqlRotateSession, SqlConsumeChallenge, SqlCountGuess, SqlAddPasskey, SqlRecordUse, SqlRename, SqlDelete,
      SqlConsumeTicket, DeleteExpired, RevokedAll, RevocableIds, MemUpdateSession, MemRotateSession, MemConsumeChallenge, MemCountGuess,
      MemAddPasskey, MemRecordUse, MemRename, MemDelete, MemConsumeTicket, Unexpired;
  }

  function Reopenings(k: Kind, s: Store, actions: seq<Action>, id: Id): nat
    decreases |actions|
  {
    if actions == [] then 0 else CountOf(Reopens(k, s, actions[0], id)) + Reopenings(k, StoreStep(k, s, actions[0]).0, actions[1..], id)
  }

  predicate Decided(s: Store, id: Id) { id in s.requests && s.requests[id].decidedAt.Some? }

  lemma StepDecides(k: Kind, s: Store, a: Action, id: Id)
    requires Honest(s, a)
    ensures Decided(s, id) ==> Decided(StoreStep(k, s, a).0, id) && !Reopens(k, s, a, id)
    ensures Reopens(k, s, a, id) ==> Decided(StoreStep(k, s, a).0, id)
  {
    hide SqlUpdateSession, SqlRotateSession, SqlConsumeChallenge, SqlCountGuess, SqlAddPasskey, SqlRecordUse, SqlRename, SqlDelete,
      SqlConsumeTicket, DeleteExpired, RevokedAll, RevocableIds, MemUpdateSession, MemRotateSession, MemConsumeChallenge, MemCountGuess,
      MemAddPasskey, MemRecordUse, MemRename, MemDelete, MemConsumeTicket, Unexpired;
  }

  lemma {:induction false} CodesBalance(k: Kind, s: Store, actions: seq<Action>, id: Id, wanted: Action -> bool)
    requires HonestRun(k, s, actions) && forall a :: wanted(a) <==> a.ConsumeCode? && a.id == id
    ensures CountOf(CodeSpent(After(k, s, actions), id)) + Reopenings(k, s, actions, id) ==
            CountOf(CodeSpent(s, id)) + Successes(k, s, actions, wanted)
    ensures Reopenings(k, s, actions, id) <= (if Decided(s, id) || k.Sql? then 0 else 1)
    decreases |actions|
  {
    if actions != [] {
      StepSpendsCode(k, s, actions[0], id);
      StepDecides(k, s, actions[0], id);
      hide StoreStep, Honest, CodeSpent, Decided;
      CodesBalance(k, StoreStep(k, s, actions[0]).0, actions[1..], id, wanted);
    }
  }

  /**
    An authorization code is consumed at most once in SQL (section 4.1.2 of RFC 6749). In the
    dictionary it is consumed twice exactly when a late decision reopened it and it was
    consumed again, and never more often.
   */
  lemma CodeConsumedOnce(k: Kind, s: Store, actions: seq<Action>, id: Id, wanted: Action -> bool)
    requires HonestRun(k, s, actions) && forall a :: wanted(a) <==> a.ConsumeCode? && a.id == id
    ensures k.Sql? ==> Successes(k, s, actions, wanted) <= if CodeSpent(s, id) then 0 else 1
    ensures k.Memory? ==> Successes(k, s, actions, wanted) <= 2
    ensures k.Memory? && !CodeSpent(s, id) ==>
              (Successes(k, s, actions, wanted) == 2 <==> Reopenings(k, s, actions, id) > 0 && CodeSpent(After(k, s, actions), id))
  {
    CodesBalance(k, s, actions, id, wanted);
    hide After, Successes, Reopenings, CodeSpent;
  }

  lemma StepSpendsTicket(s: Store, a: Action, id: Id)
    requires Honest(s, a) && !(a.AddTicket? && a.id == id)
    ensures id !in s.tickets ==> id !in SqlStep(s, a).0.tickets
    ensures a.ConsumeTicket? && a.id == id && SqlStep(s, a).1.Ok? ==> id in s.tickets && id !in SqlStep(s, a).0.tickets
  {
    hide SqlUpdateSession, SqlRotateSession, SqlConsumeChallenge, SqlCountGuess, SqlAddPasskey, SqlRecordUse, SqlRename, SqlDelete,
      SqlDecide, SqlConsumeCode, RevokedAll, RevocableIds;
  }

  /** A passkey ceremony's challenge answers at most once, and never once it was purged. */
  lemma {:induction false} TicketConsumedOnce(k: Kind, s: Store, actions: seq<Action>, id: Id, wanted: Action -> bool)
    requires HonestRun(k, s, actions) && forall a :: a in actions ==> !(a.AddTicket? && a.id == id)
    requires forall a :: wanted(a) <==> a.ConsumeTicket? && a.id == id
    ensures Successes(k, s, actions, wanted) <= if id in s.tickets then 1 else 0
    decreases |actions|
  {
    hide StoreStep, SqlStep, Honest;
    if actions != [] {
      assert actions[0] in actions && forall a :: a in actions[1..] ==> a in actions;
      StepSpendsTicket(s, actions[0], id);
      AlikeButRequests(k, s, actions[0]);
      TicketConsumedOnce(k, StoreStep(k, s, actions[0]).0, actions[1..], id, wanted);
    }
  }

  // ---------------------------------------------------------------- guesses and counters

  lemma StepCountsGuess(s: Store, a: Action, id: Id, max: nat)
    requires Honest(s, a) && id in s.challenges
    ensures var s' := SqlStep(s, a).0;
            && id in s'.challenges
            && s'.challenges[id].attempts ==
               s.challenges[id].attempts + (if a.CountGuess? && a.id == id && SqlStep(s, a).1.Ok? then 1 else 0)
            && (a.CountGuess? && a.id == id && a.max <= max && s.challenges[id].attempts <= max ==> s'.challenges[id].attempts <= max)
  {
    hide SqlUpdateSession, SqlRotateSession, SqlDecide, SqlConsumeCode, SqlAddPasskey, SqlRecordUse, SqlRename, SqlDelete,
      SqlConsumeTicket, DeleteExpired, RevokedAll, RevocableIds;
  }

  /** No failed guess is lost, and their number never passes the limit. */
  lemma {:induction false} GuessesCounted(k: Kind, s: Store, actions: seq<Action>, id: Id, max: nat, wanted: Action -> bool)
    requires HonestRun(k, s, actions) && id in s.challenges && s.challenges[id].attempts <= max
    requires forall a :: wanted(a) <==> a.CountGuess? && a.id == id
    requires forall a :: a in actions && wanted(a) ==> a.max <= max
    ensures var s' := After(k, s, actions);
            && id in s'.challenges && s'.challenges[id].attempts <= max
            && s'.challenges[id].attempts == s.challenges[id].attempts + Successes(k, s, actions, wanted)
    decreases |actions|
  {
    hide StoreStep, SqlStep, Honest;
    if actions != [] {
      assert actions[0] in actions && forall a :: a in actions[1..] ==> a in actions;
      StepCountsGuess(s, actions[0], id, max);
      AlikeButRequests(k, s, actions[0]);
      GuessesCounted(k, StoreStep(k, s, actions[0]).0, actions[1..], id, max, wanted);
    }
  }

  lemma StepKeepsSignCount(s: Store, a: Action, id: Id)
    requires Honest(s, a) && !(a.AddPasskey? && a.id == id)
    ensures id in SqlStep(s, a).0.passkeys ==>
              && id in s.passkeys && SqlStep(s, a).0.passkeys[id].signCount >= s.passkeys[id].signCount
              && (a.RecordUse? && a.id == id ==> SqlStep(s, a).0.passkeys[id].signCount >= a.count)
  {
    hide SqlUpdateSession, SqlRotateSession, SqlDecide, SqlConsumeCode, SqlConsumeChallenge, SqlCountGuess,
      SqlConsumeTicket, DeleteExpired, RevokedAll, RevocableIds;
  }

  /** Over a run, the signature counter of a passkey that is still there is no lower than before, nor than any count recorded. */
  lemma {:induction false} SignCountNeverDrops(k: Kind, s: Store, actions: seq<Action>, id: Id)
    requires HonestRun(k, s, actions) && forall a :: a in actions ==> !(a.AddPasskey? && a.id == id)
    ensures var s' := After(k, s, actions);
            id in s'.passkeys ==>
              && id in s.passkeys && s'.passkeys[id].signCount >= s.passkeys[id].signCount
              && forall a :: a in actions && a.RecordUse? && a.id == id ==> s'.passkeys[id].signCount >= a.count
    decreases |actions|
  {
    hide StoreStep, SqlStep, Honest;
    if actions != [] {
      assert actions[0] in actions && forall a :: a in actions[1..] ==> a in actions;
      StepKeepsSignCount(s, actions[0], id);
      AlikeButRequests(k, s, actions[0]);
      SignCountNeverDrops(k, StoreStep(k, s, actions[0]).0, actions[1..], id);
      assert forall a :: a in actions ==> a == actions[0] || a in actions[1..];
    }
  }

  /** A challenge its UPDATE found missing, consumed or expired is never later diagnosed as locked, ids not being reused. */
  lemma {:induction false} DiagnosisHolds(k: Kind, s: Store, actions: seq<Action>, id: Id, now: Time, limit: Option<nat>)
    requires HonestRun(k, s, actions) && !OpenChallenge(s.challenges, id, now)
    requires id in s.challenges || forall a :: a in actions ==> !(a.AddChallenge? && a.id == id)
    ensures Diagnosis(After(k, s, actions).challenges, id, now, limit) == Missing
    decreases |actions|
  {
    hide StoreStep, SqlStep, Honest;
    if actions != [] {
      assert actions[0] in actions && forall a :: a in actions[1..] ==> a in actions;
      StaysClosed(s, actions[0], id, now);
      AlikeButRequests(k, s, actions[0]);
      DiagnosisHolds(k, StoreStep(k, s, actions[0]).0, actions[1..], id, now, limit);
    }
  }

  lemma StaysClosed(s: Store, a: Action, id: Id, now: Time)
    requires Honest(s, a) && !OpenChallenge(s.challenges, id, now)
    requires id in s.challenges || !(a.AddChallenge? && a.id == id)
    ensures !OpenChallenge(SqlStep(s, a).0.challenges, id, now) && (id in SqlStep(s, a).0.challenges <==> id in s.challenges)
  {
    hide SqlUpdateSession, SqlRotateSession, SqlDecide, SqlConsumeCode, SqlAddPasskey, SqlRecordUse, SqlRename, SqlDelete,
      SqlConsumeTicket, DeleteExpired, RevokedAll, RevocableIds;
  }
}
