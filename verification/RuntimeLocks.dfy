/**
  Advisory locks of the durable runtime. Every transaction takes its locks in one fixed order
  of classes, so the wait-for graph of any reachable state has no cycle and some open
  transaction can always move, as long as no two locks that the requests of the run name in
  different classes have the same hash: PostgreSQL identifies an advisory lock by a 64-bit
  hash of its name.
 */
module RuntimeLocks {
  import opened Common
  import opened RuntimeModel
  import opened DurableModel
  import opened RuntimeInterleaving
  import G = RuntimeGuarantees
  import R = RuntimeRefinement

  /** The class of a lock, in the order `accept` takes them. */
  function Rank(name: LockName): nat {
    match name
    case KeyLock(_) => 0
    case BucketLock(RateOp(AppWindow(_))) => 1
    case BucketLock(RateOp(IpWindow(_, _))) => 2
    case BucketLock(RateOp(SessionWindow(_, _))) => 3
    case BucketLock(ConcurrencyOp(_, _)) => 4
  }

  function SpecLock(spec: Spec): LockName { BucketLock(spec.operation) }

  /** The limits of a request come in strictly increasing lock order. */
  lemma SpecsAscend(req: Request, now: Time, timeoutAt: Time)
    ensures var specs := Specs(req, now, timeoutAt);
            && (forall i :: 0 <= i < |specs| ==> Rank(SpecLock(specs[i])) > 0)
            && (forall i, j :: 0 <= i < j < |specs| ==> Rank(SpecLock(specs[i])) < Rank(SpecLock(specs[j])))
  {
    R.SpecsAt(req, now, timeoutAt);
  }

  // ---------------------------------------------------------------- the locks a request names

  /** The locks of a request in the order it takes them: its key, then one per limit. */
  function LockNames(req: Request): (names: seq<LockName>)
    ensures |names| == |Specs(req, 0, 0)| + 1 && names[0] == KeyLock(ScopeOf(req))
    ensures forall j :: 0 <= j < |Specs(req, 0, 0)| ==> names[j + 1] == SpecLock(Specs(req, 0, 0)[j])
  {
    var specs := Specs(req, 0, 0);
    [KeyLock(ScopeOf(req))] + seq(|specs|, j requires 0 <= j < |specs| => SpecLock(specs[j]))
  }

  /** The instants of a transaction do not matter for its locks. */
  lemma NamesOf(w: World, tx: Tx)
    ensures |LockNames(tx.req)| == |SpecsOf(w, tx)| + 1
    ensures forall j :: 0 <= j < |SpecsOf(w, tx)| ==> SpecLock(SpecsOf(w, tx)[j]) == LockNames(tx.req)[j + 1]
  {
    R.SpecsAt(tx.req, tx.now, TimeoutAt(w.cfg, tx.req, tx.now));
    R.SpecsAt(tx.req, 0, 0);
    hide Specs;
  }

  /** Locks that these requests name in different classes have different hashes; two of one class may share one. */
  ghost predicate ClassesApart(w: World, reqs: set<Request>) {
    forall a, b, i, j :: a in reqs && b in reqs && 0 <= i < |LockNames(a)| && 0 <= j < |LockNames(b)| ==>
      w.lockHash(LockNames(a)[i]) == w.lockHash(LockNames(b)[j]) ==> Rank(LockNames(a)[i]) == Rank(LockNames(b)[j])
  }

  /** A run that begins no other requests. */
  ghost predicate BeginsOnly(actions: seq<Action>, reqs: set<Request>) {
    forall a :: a in actions && a.Begin? ==> a.req in reqs
  }

  ghost predicate RequestsFrom(s: Sys, reqs: set<Request>) { forall t :: t in s.txs ==> s.txs[t].req in reqs }

  ghost predicate SameRequests(s: Sys, s': Sys) { forall u :: u in s'.txs ==> u in s.txs && s'.txs[u].req == s.txs[u].req }

  lemma LockKeepsRequests(w: World, s: Sys, t: TxId, id: LeaseId)
    requires t in s.txs && (s.txs[t].pc.TakeKeyLock? || s.txs[t].pc.TakeBucketLock?)
    ensures SameRequests(s, Statement(w, s, t, id))
  {
    LockStatements(w, s, t, id);
    hide Statement, SpecsOf, ScopeOf;
  }

  lemma MoveKeepsRequests(w: World, s: Sys, t: TxId, id: LeaseId)
    requires t in s.txs
    requires var pc := s.txs[t].pc; pc.PurgeKeys? || pc.Lookup? || pc.InsertRun? || pc.InsertKey? || pc.ReleaseStale?
    ensures SameRequests(s, Statement(w, s, t, id))
  {
    hide SpecsOf, KeysSeen, ScopeOf, LacksClientIdentity, StaleLeases, BucketPc;
  }

  lemma WriteKeepsRequests(w: World, s: Sys, t: TxId, id: LeaseId)
    requires t in s.txs
    requires var pc := s.txs[t].pc; pc.CountUsed? || pc.InsertLease? || pc.Commit?
    ensures SameRequests(s, Statement(w, s, t, id))
  {
    hide SpecsOf, ScopeOf, LeasesSeen, LiveLeases, FreshId, BucketPc, CommitAccept;
    if s.txs[t].pc.Commit? { CommitKeepsRequests(w, s, t, id); }
  }

  lemma CommitKeepsRequests(w: World, s: Sys, t: TxId, id: LeaseId)
    requires t in s.txs && s.txs[t].pc.Commit?
    ensures SameRequests(s, Statement(w, s, t, id))
  {
    hide SpecsOf, ScopeOf, CommitAccept;
    if |s.txs[t].ids| == |SpecsOf(w, s.txs[t])| { CommitIsEnd(w, s, t); }
  }

  lemma StatementKeepsRequests(w: World, s: Sys, t: TxId, id: LeaseId)
    requires t in s.txs
    ensures SameRequests(s, Statement(w, s, t, id))
  {
    var pc := s.txs[t].pc;
    hide Statement, SameRequests;
    if pc.TakeKeyLock? || pc.TakeBucketLock? { LockKeepsRequests(w, s, t, id); }
    else if pc.CountUsed? || pc.InsertLease? || pc.Commit? { WriteKeepsRequests(w, s, t, id); }
    else { MoveKeepsRequests(w, s, t, id); }
  }

  lemma {:induction false} AfterRequests(w: World, s: Sys, actions: seq<Action>, reqs: set<Request>)
    requires BeginsOnly(actions, reqs) && RequestsFrom(s, reqs)
    ensures RequestsFrom(After(w, s, actions), reqs)
    decreases |actions|
  {
    if actions != [] {
      var a := actions[0];
      assert a in actions && forall b :: b in actions[1..] ==> b in actions;
      if a.Advance? && a.t in s.txs { StatementKeepsRequests(w, s, a.t, a.id); }
      assert RequestsFrom(Step(w, s, a), reqs) by { hide Statement, MayBegin, SettleNow; }
      hide Step;
      AfterRequests(w, Step(w, s, a), actions[1..], reqs);
    }
  }

  // ---------------------------------------------------------------- held and wanted locks

  predicate Took(w: World, tx: Tx, name: LockName) {
    || (tx.pc != TakeKeyLock && name == KeyLock(ScopeOf(tx.req)))
    || (exists j :: 0 <= j < Locked(w, tx) && j < |SpecsOf(w, tx)| && name == SpecLock(SpecsOf(w, tx)[j]))
  }

  /** The lock a transaction asks for next. */
  function Wanted(w: World, tx: Tx): Option<LockName> {
    match tx.pc
    case TakeKeyLock => Some(KeyLock(ScopeOf(tx.req)))
    case TakeBucketLock(i) => if i < |SpecsOf(w, tx)| then Some(SpecLock(SpecsOf(w, tx)[i])) else None
    case _ => None
  }

  /** How many of its locks a transaction has taken. */
  function Taken(w: World, tx: Tx): nat { if tx.pc.TakeKeyLock? then 0 else 1 + Locked(w, tx) }

  /** It has taken its first locks, and wants the next. */
  lemma TakenMeans(w: World, tx: Tx)
    ensures forall name :: Took(w, tx, name) ==> exists j :: 0 <= j < Taken(w, tx) && j < |LockNames(tx.req)| && name == LockNames(tx.req)[j]
    ensures forall j :: 0 <= j < Taken(w, tx) && j < |LockNames(tx.req)| ==> Took(w, tx, LockNames(tx.req)[j])
    ensures Wanted(w, tx).Some? ==> Taken(w, tx) < |LockNames(tx.req)| && Wanted(w, tx).value == LockNames(tx.req)[Taken(w, tx)]
  {
    NamesOf(w, tx);
    hide SpecsOf, LockNames;
    forall name | Took(w, tx, name) ensures exists j :: 0 <= j < Taken(w, tx) && j < |LockNames(tx.req)| && name == LockNames(tx.req)[j] {
      if tx.pc != TakeKeyLock && name == KeyLock(ScopeOf(tx.req)) {
        assert name == LockNames(tx.req)[0];
      } else {
        var j :| 0 <= j < Locked(w, tx) && j < |SpecsOf(w, tx)| && name == SpecLock(SpecsOf(w, tx)[j]);
        assert name == LockNames(tx.req)[j + 1];
      }
    }
    forall j | 0 <= j < Taken(w, tx) && j < |LockNames(tx.req)| ensures Took(w, tx, LockNames(tx.req)[j]) {
      if j > 0 { assert LockNames(tx.req)[j] == SpecLock(SpecsOf(w, tx)[j - 1]); }
    }
  }

  /** Whatever a transaction has taken ranks below what it wants. */
  lemma WantsAbove(w: World, tx: Tx, name: LockName)
    requires Took(w, tx, name) && Wanted(w, tx).Some?
    ensures Rank(name) < Rank(Wanted(w, tx).value)
  {
    SpecsAscend(tx.req, tx.now, TimeoutAt(w.cfg, tx.req, tx.now));
  }

  /** `t` waits for a lock that `u` holds. */
  predicate WaitsFor(w: World, s: Sys, t: TxId, u: TxId) {
    && t in s.txs && u in s.txs && t != u
    && Wanted(w, s.txs[t]).Some?
    && w.lockHash(Wanted(w, s.txs[t]).value) in s.locks
    && s.locks[w.lockHash(Wanted(w, s.txs[t]).value)] == u
  }

  predicate Blocked(w: World, s: Sys, t: TxId) {
    t in s.txs && exists u :: u in s.txs && WaitsFor(w, s, t, u)
  }

  /** Every lock held belongs to an open transaction that took a name with that hash. */
  ghost predicate LocksOwned(w: World, s: Sys) {
    forall k :: k in s.locks ==> HasTaken(w, s, s.locks[k], k)
  }

  ghost predicate HasTaken(w: World, s: Sys, t: TxId, k: int) {
    t in s.txs && exists name :: Took(w, s.txs[t], name) && w.lockHash(name) == k
  }

  // ---------------------------------------------------------------- ownership is invariant

  /** A transaction that keeps its instant and request and moves forward still has all it took. */
  lemma TookGrows(w: World, tx: Tx, tx': Tx, name: LockName)
    requires tx'.req == tx.req && tx'.now == tx.now && Took(w, tx, name)
    requires Locked(w, tx) <= Locked(w, tx') && (tx.pc != TakeKeyLock ==> tx'.pc != TakeKeyLock)
    ensures Took(w, tx', name)
  {
    assert SpecsOf(w, tx') == SpecsOf(w, tx);
    hide SpecsOf, ScopeOf, Locked;
  }

  /** Replacing one transaction by one further on, that may have taken one more lock. */
  lemma PutOwned(w: World, s: Sys, t: TxId, tx': Tx, locks': map<int, TxId>)
    requires LocksOwned(w, s) && t in s.txs
    requires tx'.req == s.txs[t].req && tx'.now == s.txs[t].now
    requires Locked(w, s.txs[t]) <= Locked(w, tx') && (s.txs[t].pc != TakeKeyLock ==> tx'.pc != TakeKeyLock)
    requires forall k :: k in locks' ==>
               (k in s.locks && locks'[k] == s.locks[k]) || (locks'[k] == t && exists name :: Took(w, tx', name) && w.lockHash(name) == k)
    ensures LocksOwned(w, Put(s.(locks := locks'), t, tx'))
  {
    var s' := Put(s.(locks := locks'), t, tx');
    hide Took, Locked;
    forall k | k in locks' ensures HasTaken(w, s', locks'[k], k) {
      if k in s.locks && locks'[k] == s.locks[k] {
        assert HasTaken(w, s, s.locks[k], k);
        var name :| Took(w, s.txs[s.locks[k]], name) && w.lockHash(name) == k;
        if s.locks[k] == t { TookGrows(w, s.txs[t], tx', name); }
      }
    }
  }

  lemma TakeLockOwned(w: World, s: Sys, t: TxId, name: LockName, next: Pc)
    requires LocksOwned(w, s) && t in s.txs
    requires var tx' := s.txs[t].(pc := next);
             Took(w, tx', name) && Locked(w, s.txs[t]) <= Locked(w, tx') && next != TakeKeyLock
    ensures LocksOwned(w, TakeLock(w, s, t, name, next))
  {
    hide LocksOwned, Took, Locked;
    var k := w.lockHash(name);
    if !(k in s.locks && s.locks[k] != t) {
      PutOwned(w, s, t, s.txs[t].(pc := next), s.locks[k := t]);
    }
  }

  lemma UnlockOwned(w: World, s: Sys, t: TxId)
    requires LocksOwned(w, s)
    ensures LocksOwned(w, Unlock(s, t))
  {
    var s' := Unlock(s, t);
    hide Took;
    forall k | k in s'.locks ensures HasTaken(w, s', s'.locks[k], k) {
      assert HasTaken(w, s, s.locks[k], k);
    }
  }

  /** Ownership looks only at locks and transactions. */
  lemma OwnedElsewhere(w: World, s: Sys, s': Sys)
    requires LocksOwned(w, s) && s'.locks == s.locks && s'.txs == s.txs
    ensures LocksOwned(w, s')
  {
    hide Took;
    forall k | k in s'.locks ensures HasTaken(w, s', s'.locks[k], k) {
      assert HasTaken(w, s, s.locks[k], k);
    }
  }

  lemma LockStatementOwned(w: World, s: Sys, t: TxId, id: LeaseId)
    requires LocksOwned(w, s) && t in s.txs && (s.txs[t].pc.TakeKeyLock? || s.txs[t].pc.TakeBucketLock?)
    ensures LocksOwned(w, Statement(w, s, t, id))
  {
    var tx := s.txs[t];
    LockStatements(w, s, t, id);
    if tx.pc.TakeKeyLock? {
      TakeLockOwned(w, s, t, KeyLock(ScopeOf(tx.req)), PurgeKeys);
    } else if tx.pc.i < |SpecsOf(w, tx)| {
      SpecsIgnorePc(w, tx, ReleaseStale(tx.pc.i));
      hide SpecsOf;
      assert SpecLock(SpecsOf(w, tx)[tx.pc.i]) == BucketLock(SpecsOf(w, tx)[tx.pc.i].operation);
      TakeLockOwned(w, s, t, BucketLock(SpecsOf(w, tx)[tx.pc.i].operation), ReleaseStale(tx.pc.i));
    }
  }

  /** A transaction that ends gives up its locks, whatever it commits. */
  lemma EndOwned(w: World, s: Sys, t: TxId, db: DbState, scopes: map<Handle, Scope>)
    requires LocksOwned(w, s)
    ensures LocksOwned(w, Unlock(s.(db := db, scopes := scopes), t))
  {
    hide LocksOwned, Unlock;
    OwnedElsewhere(w, s, s.(db := db, scopes := scopes));
    UnlockOwned(w, s.(db := db, scopes := scopes), t);
  }

  /** A transaction that moves forward without taking a lock. */
  lemma ForwardOwned(w: World, s: Sys, t: TxId, tx': Tx)
    requires LocksOwned(w, s) && t in s.txs && tx'.req == s.txs[t].req && tx'.now == s.txs[t].now
    requires Locked(w, s.txs[t]) <= Locked(w, tx') && tx'.pc != TakeKeyLock
    ensures LocksOwned(w, Put(s, t, tx'))
  {
    hide LocksOwned, Took, Locked;
    assert s.(locks := s.locks) == s;
    PutOwned(w, s, t, tx', s.locks);
  }

  /** A lookup, a check of the token or of the key: on to the next statement, or the end. */
  lemma MoveStatementOwned(w: World, s: Sys, t: TxId, id: LeaseId)
    requires LocksOwned(w, s) && t in s.txs
    requires var pc := s.txs[t].pc; pc.PurgeKeys? || pc.Lookup? || pc.InsertRun? || pc.InsertKey?
    ensures LocksOwned(w, Statement(w, s, t, id))
  {
    var tx := s.txs[t];
    hide LocksOwned, SpecsOf, KeysSeen, ScopeOf, LacksClientIdentity, Unlock, Put;
    EndOwned(w, s, t, s.db, s.scopes);
    EndOwned(w, s, t, s.db.(idem := KeysSeen(s.db.idem, tx)), s.scopes);
    assert s.(db := s.db, scopes := s.scopes) == s;
    match tx.pc
    case PurgeKeys =>
      ForwardOwned(w, s, t, tx.(purged := map k | k in s.db.idem && s.db.idem[k].expiresAt <= tx.now :: s.db.idem[k], pc := Lookup));
    case Lookup => ForwardOwned(w, s, t, tx.(pc := BucketPc(w, tx, 0)));
    case InsertRun => SpecsIgnorePc(w, tx, InsertKey); ForwardOwned(w, s, t, tx.(pc := InsertKey));
    case InsertKey => SpecsIgnorePc(w, tx, Commit); ForwardOwned(w, s, t, tx.(pc := Commit));
  }

  lemma ReleaseOwned(w: World, s: Sys, t: TxId, id: LeaseId)
    requires TxsOk(w, s) && LocksOwned(w, s) && t in s.txs && s.txs[t].pc.ReleaseStale?
    ensures LocksOwned(w, Statement(w, s, t, id))
  {
    hide TxsOk, LocksOwned, SpecsOf, StaleLeases, Statement, Put;
    InsertRoom(w, s, t);
    ReleaseIs(w, s, t, id);
    var tx, i := s.txs[t], s.txs[t].pc.i;
    ForwardOwned(w, s, t, tx.(released := tx.released + StaleLeases(s.db.leases, SpecsOf(w, tx)[i].operation, tx.now), pc := CountUsed(i)));
  }

  lemma ReleaseIs(w: World, s: Sys, t: TxId, id: LeaseId)
    requires t in s.txs && s.txs[t].pc.ReleaseStale? && s.txs[t].pc.i < |SpecsOf(w, s.txs[t])|
    ensures var tx, i := s.txs[t], s.txs[t].pc.i;
            Statement(w, s, t, id) ==
            Put(s, t, tx.(released := tx.released + StaleLeases(s.db.leases, SpecsOf(w, tx)[i].operation, tx.now), pc := CountUsed(i)))
  {
    hide SpecsOf, StaleLeases, Put;
  }

  lemma CountOwned(w: World, s: Sys, t: TxId, id: LeaseId)
    requires TxsOk(w, s) && LocksOwned(w, s) && t in s.txs && s.txs[t].pc.CountUsed?
    ensures LocksOwned(w, Statement(w, s, t, id))
  {
    var tx := s.txs[t];
    var tx' := tx.(pc := InsertLease(tx.pc.i));
    assert Locked(w, tx) == Locked(w, tx') && Rollback(s, t) == Unlock(s, t);
    hide *;
    G.InBucket(w, s, t);
    G.BucketStatements(w, s, t, id);
    UnlockOwned(w, s, t);
    ForwardOwned(w, s, t, tx');
  }

  lemma InsertMoves(w: World, tx: Tx, tx': Tx)
    requires tx.pc.InsertLease? && tx.pc.i < |SpecsOf(w, tx)|
    requires tx'.req == tx.req && tx'.now == tx.now && tx'.pc == BucketPc(w, tx, tx.pc.i + 1)
    ensures Locked(w, tx) <= Locked(w, tx') && tx'.pc != TakeKeyLock
  {
    G.SpecsSame(w, tx, tx');
    hide SpecsOf;
  }

  lemma InsertOwned(w: World, s: Sys, t: TxId, id: LeaseId)
    requires TxsOk(w, s) && LocksOwned(w, s) && t in s.txs && s.txs[t].pc.InsertLease?
    ensures LocksOwned(w, Statement(w, s, t, id))
  {
    G.InBucket(w, s, t);
    var tx := s.txs[t];
    var tx' := tx.(ids := tx.ids + [id], pc := BucketPc(w, tx, tx.pc.i + 1));
    InsertMoves(w, tx, tx');
    hide *;
    G.BucketStatements(w, s, t, id);
    ForwardOwned(w, s, t, tx');
  }

  lemma CommitOwned(w: World, s: Sys, t: TxId, id: LeaseId)
    requires TxsOk(w, s) && LocksOwned(w, s) && t in s.txs && s.txs[t].pc.Commit?
    ensures LocksOwned(w, Statement(w, s, t, id))
  {
    G.InBucket(w, s, t);
    G.BucketStatements(w, s, t, id);
    hide TxsOk, LocksOwned, SpecsOf, CommitAccept, Statement;
    if |s.txs[t].ids| == |SpecsOf(w, s.txs[t])| {
      var s' := CommitAccept(w, s, t);
      EndOwned(w, s, t, s'.db, s'.scopes);
      CommitIsEnd(w, s, t);
    }
  }

  lemma CommitIsEnd(w: World, s: Sys, t: TxId)
    requires t in s.txs && |s.txs[t].ids| == |SpecsOf(w, s.txs[t])|
    ensures var s' := CommitAccept(w, s, t); s' == Unlock(s.(db := s'.db, scopes := s'.scopes), t)
  {
    hide SpecsOf, KeysSeen, LeasesSeen, RowOf, EntryOf, ScopeOf;
  }

  lemma StepKeepsOwned(w: World, s: Sys, a: Action)
    requires TxsOk(w, s) && LocksOwned(w, s)
    ensures LocksOwned(w, Step(w, s, a))
  {
    hide TxsOk, LocksOwned, Statement, SettleNow, MayBegin, Unlock, Put;
    match a
    case Advance(t, id) =>
      if t in s.txs {
        var pc := s.txs[t].pc;
        if pc.TakeKeyLock? || pc.TakeBucketLock? {
          LockStatementOwned(w, s, t, id);
        } else if pc.ReleaseStale? {
          ReleaseOwned(w, s, t, id);
        } else if pc.CountUsed? {
          CountOwned(w, s, t, id);
        } else if pc.InsertLease? {
          InsertOwned(w, s, t, id);
        } else if pc.Commit? {
          CommitOwned(w, s, t, id);
        } else {
          MoveStatementOwned(w, s, t, id);
        }
      }
    case Abort(t) => if t in s.txs { UnlockOwned(w, s, t); }
    case Begin(t, req, token) =>
      if MayBegin(w, s, t, req, token) { BeginOwned(w, s, t, req, token); }
    case _ => OwnedElsewhere(w, s, Step(w, s, a));
  }

  lemma BeginOwned(w: World, s: Sys, t: TxId, req: Request, token: Handle)
    requires LocksOwned(w, s) && MayBegin(w, s, t, req, token)
    ensures LocksOwned(w, Put(s, t, Tx(req, s.clock, token, TakeKeyLock, map[], {}, [])))
  {
    G.FreshTx(w, s, t, req, token);
    hide MayBegin, Took;
    var s' := Put(s, t, Tx(req, s.clock, token, TakeKeyLock, map[], {}, []));
    forall k | k in s'.locks ensures HasTaken(w, s', s'.locks[k], k) {
      assert HasTaken(w, s, s.locks[k], k);
    }
  }

  lemma {:induction false} AfterOwned(w: World, s: Sys, actions: seq<Action>)
    requires TxsOk(w, s) && SettlersOk(s) && LocksOwned(w, s)
    ensures LocksOwned(w, After(w, s, actions))
    decreases |actions|
  {
    hide TxsOk, LocksOwned, SettlersOk, Step;
    if actions != [] {
      StepKeepsOwned(w, s, actions[0]);
      StepKeepsTxs(w, s, actions[0]);
      AfterOwned(w, Step(w, s, actions[0]), actions[1..]);
    }
  }

  // ---------------------------------------------------------------- no deadlock

  /** Waiting climbs the order: whoever is waited for wants a lock of a strictly higher class. */
  lemma WaitingClimbs(w: World, s: Sys, reqs: set<Request>, t: TxId, u: TxId)
    requires ClassesApart(w, reqs) && RequestsFrom(s, reqs) && LocksOwned(w, s) && WaitsFor(w, s, t, u) && Wanted(w, s.txs[u]).Some?
    ensures Rank(Wanted(w, s.txs[t]).value) < Rank(Wanted(w, s.txs[u]).value)
  {
    var k := w.lockHash(Wanted(w, s.txs[t]).value);
    assert HasTaken(w, s, u, k);
    TakenMeans(w, s.txs[t]);
    TakenMeans(w, s.txs[u]);
    hide Took, Wanted, LockNames, Taken;
    var name :| Took(w, s.txs[u], name) && w.lockHash(name) == k;
    WantsAbove(w, s.txs[u], name);
    var j :| 0 <= j < Taken(w, s.txs[u]) && j < |LockNames(s.txs[u].req)| && name == LockNames(s.txs[u].req)[j];
    var i := Taken(w, s.txs[t]);
    assert w.lockHash(LockNames(s.txs[t].req)[i]) == w.lockHash(LockNames(s.txs[u].req)[j]);
  }

  /** A chain of transactions each waiting for the next. */
  ghost predicate WaitChain(w: World, s: Sys, ts: seq<TxId>) {
    forall i :: 0 <= i < |ts| - 1 ==> WaitsFor(w, s, ts[i], ts[i + 1])
  }

  lemma {:induction false} ChainClimbs(w: World, s: Sys, reqs: set<Request>, ts: seq<TxId>)
    requires ClassesApart(w, reqs) && RequestsFrom(s, reqs) && LocksOwned(w, s) && |ts| >= 2 && WaitChain(w, s, ts)
    requires ts[|ts| - 1] in s.txs && Wanted(w, s.txs[ts[|ts| - 1]]).Some?
    ensures ts[0] in s.txs && Wanted(w, s.txs[ts[0]]).Some?
    ensures Rank(Wanted(w, s.txs[ts[0]]).value) < Rank(Wanted(w, s.txs[ts[|ts| - 1]]).value)
  {
    hide ClassesApart, RequestsFrom, LocksOwned, Wanted;
    assert WaitsFor(w, s, ts[0], ts[1]);
    if |ts| > 2 {
      forall i | 0 <= i < |ts| - 2 ensures WaitsFor(w, s, ts[1..][i], ts[1..][i + 1]) {
        assert WaitsFor(w, s, ts[i + 1], ts[i + 2]);
      }
      ChainClimbs(w, s, reqs, ts[1..]);
    }
    WaitingClimbs(w, s, reqs, ts[0], ts[1]);
  }

  /** A deadlock: transactions that wait for each other in a circle. */
  ghost predicate Circle(w: World, s: Sys, ts: seq<TxId>) {
    |ts| >= 2 && ts[0] == ts[|ts| - 1] && WaitChain(w, s, ts)
  }

  /** If the requests begun in a run keep their classes apart, no state it reaches has a circle of any length. */
  lemma NoDeadlock(w: World, clock: Time, actions: seq<Action>, reqs: set<Request>, ts: seq<TxId>)
    requires BeginsOnly(actions, reqs) && ClassesApart(w, reqs)
    ensures !Circle(w, After(w, Start(clock), actions), ts)
  {
    var s := After(w, Start(clock), actions);
    AfterOwned(w, Start(clock), actions);
    AfterRequests(w, Start(clock), actions, reqs);
    hide LocksOwned, ClassesApart, RequestsFrom, After;
    if Circle(w, s, ts) {
      assert WaitsFor(w, s, ts[0], ts[1]);
      ChainClimbs(w, s, reqs, ts);
      assert false;
    }
  }

  // ---------------------------------------------------------------- without a circle someone can move

  /** A path of waiting transactions that visits none twice. */
  ghost predicate WaitPath(w: World, s: Sys, ts: seq<TxId>) {
    && ts != [] && WaitChain(w, s, ts)
    && (forall i :: 0 <= i < |ts| ==> ts[i] in s.txs)
    && (forall i, j :: 0 <= i < j < |ts| ==> ts[i] != ts[j])
  }

  lemma WaitOn(w: World, s: Sys, ts: seq<TxId>, u: TxId)
    requires ts != [] && WaitChain(w, s, ts) && WaitsFor(w, s, ts[|ts| - 1], u)
    ensures WaitChain(w, s, ts + [u])
  {
    hide WaitsFor;
    var more := ts + [u];
    forall i | 0 <= i < |more| - 1 ensures WaitsFor(w, s, more[i], more[i + 1]) {
      if i < |ts| - 1 { assert WaitsFor(w, s, ts[i], ts[i + 1]); }
    }
  }

  lemma ClosesCircle(w: World, s: Sys, ts: seq<TxId>, j: nat)
    requires j < |ts| && WaitChain(w, s, ts) && WaitsFor(w, s, ts[|ts| - 1], ts[j])
    ensures Circle(w, s, ts[j..] + [ts[j]])
  {
    hide WaitsFor;
    var tail := ts[j..];
    forall i | 0 <= i < |tail| - 1 ensures WaitsFor(w, s, tail[i], tail[i + 1]) {
      assert WaitsFor(w, s, ts[j + i], ts[j + i + 1]);
    }
    WaitOn(w, s, tail, ts[j]);
  }

  lemma {:induction false} DistinctCount(ts: seq<TxId>, all: set<TxId>)
    requires (forall i :: 0 <= i < |ts| ==> ts[i] in all) && (forall i, j :: 0 <= i < j < |ts| ==> ts[i] != ts[j])
    ensures |ts| <= |all|
    decreases |ts|
  {
    if ts != [] { DistinctCount(ts[1..], all - {ts[0]}); }
  }

  lemma ExtendPath(w: World, s: Sys, ts: seq<TxId>, u: TxId)
    requires WaitPath(w, s, ts) && u in s.txs && WaitsFor(w, s, ts[|ts| - 1], u) && u !in ts
    ensures WaitPath(w, s, ts + [u])
  {
    WaitOn(w, s, ts, u);
    hide WaitsFor, WaitChain;
  }

  lemma BlockedBy(w: World, s: Sys, t: TxId) returns (u: TxId)
    requires Blocked(w, s, t)
    ensures u in s.txs && WaitsFor(w, s, t, u)
  {
    hide WaitsFor;
    u :| u in s.txs && WaitsFor(w, s, t, u);
  }

  /** A path ends with one that waits for another, on the path or not. */
  lemma PathEnd(w: World, s: Sys, ts: seq<TxId>) returns (u: TxId)
    requires WaitPath(w, s, ts) && forall t :: t in s.txs ==> Blocked(w, s, t)
    ensures u in s.txs && WaitsFor(w, s, ts[|ts| - 1], u) && |ts| <= |s.txs.Keys|
    ensures u in ts ==> exists circle :: Circle(w, s, circle)
  {
    hide WaitsFor, WaitChain, Circle, Blocked;
    DistinctCount(ts, s.txs.Keys);
    u := BlockedBy(w, s, ts[|ts| - 1]);
    if u in ts {
      var j :| 0 <= j < |ts| && ts[j] == u;
      ClosesCircle(w, s, ts, j);
    }
  }

  /** If all that wait in turn are blocked, the path closes. */
  lemma {:induction false} FollowPath(w: World, s: Sys, ts: seq<TxId>)
    requires WaitPath(w, s, ts) && forall t :: t in s.txs ==> Blocked(w, s, t)
    ensures exists circle :: Circle(w, s, circle)
    decreases |s.txs.Keys| + 1 - |ts|
  {
    hide *;
    PathNonEmpty(w, s, ts);
    var u := PathEnd(w, s, ts);
    if u !in ts {
      ExtendPath(w, s, ts, u);
      FollowPath(w, s, ts + [u]);
    }
  }

  lemma PathNonEmpty(w: World, s: Sys, ts: seq<TxId>)
    requires WaitPath(w, s, ts)
    ensures ts != []
  {
  }

  /** In any state with open transactions and no circle some transaction waits for nobody. */
  lemma UnblockedWithoutCircle(w: World, s: Sys)
    requires s.txs != map[] && forall ts :: !Circle(w, s, ts)
    ensures exists t :: t in s.txs && !Blocked(w, s, t)
  {
    var t :| t in s.txs;
    OneIsPath(w, s, t);
    hide Circle, Blocked, WaitPath;
    if forall u :: u in s.txs ==> Blocked(w, s, u) { FollowPath(w, s, [t]); }
  }

  /** So if the requests begun keep their classes apart, some open transaction can always take its next step. */
  lemma SomeoneCanMove(w: World, clock: Time, actions: seq<Action>, reqs: set<Request>)
    requires BeginsOnly(actions, reqs) && ClassesApart(w, reqs) && After(w, Start(clock), actions).txs != map[]
    ensures var s := After(w, Start(clock), actions); exists t :: t in s.txs && !Blocked(w, s, t)
  {
    hide *;
    forall ts: seq<TxId> ensures !Circle(w, After(w, Start(clock), actions), ts) { NoDeadlock(w, clock, actions, reqs, ts); }
    UnblockedWithoutCircle(w, After(w, Start(clock), actions));
  }

  lemma OneIsPath(w: World, s: Sys, t: TxId)
    requires t in s.txs
    ensures WaitPath(w, s, [t])
  {
    hide WaitsFor;
  }
}
