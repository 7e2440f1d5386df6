/**
  What holds in every state the interleaved transactions of module RuntimeInterleaving can
  reach: limits are never exceeded at real time, concurrency leases mirror unsettled runs, a
  scope has at most one unexpired run, and a settled run never changes again.
 */
module RuntimeGuarantees {
  import opened Common
  import opened RuntimeModel
  import opened DurableModel
  import opened RuntimeInterleaving
  import R = RuntimeRefinement

  // ---------------------------------------------------------------- leases mirror runs

  lemma DbOkLater(fx: R.Fixed, d: DbState, now: Time, later: Time)
    requires R.DbOk(fx, d, now) && now <= later
    ensures R.DbOk(fx, d, later)
  {
    forall h | h in d.runs ensures R.RowOk(fx, d.leases, d.runs[h], later) {
      assert R.RowOk(fx, d.leases, d.runs[h], now);
    }
  }

  /** Deleting key rows keeps the database's invariant. */
  lemma FewerKeys(fx: R.Fixed, d: DbState, idem: map<Scope, IdemEntry>, now: Time)
    requires R.DbOk(fx, d, now) && forall k :: k in idem ==> k in d.idem && d.idem[k] == idem[k]
    ensures R.DbOk(fx, d.(idem := idem), now)
  {
    assert forall l :: R.Owned(d, l) ==> R.Owned(d.(idem := idem), l);
  }

  lemma AcceptKeepsDb(w: World, s: Sys, t: TxId)
    requires TxsOk(w, s) && R.DbOk(w.fx, s.db, s.clock)
    requires t in s.txs && |s.txs[t].ids| == |SpecsOf(w, s.txs[t])|
    ensures R.DbOk(w.fx, CommitAccept(w, s, t).db, s.clock)
  {
    hide SpecsOf, R.DbOk, R.RowOk, TxsOk, LeasesSeen, KeysSeen, R.ConcurrencyIds, R.Aged, Gate, R.Regular, NewRun, R.Inserted;
    var tx := s.txs[t];
    var d := s.db.(idem := KeysSeen(s.db.idem, tx));
    var leases := LeasesSeen(w, s.db.leases, tx);
    CommitLeases(w, s, t);
    CommittedRow(w, s, t, leases);
    KeysSeenFewer(s.db.idem, tx);
    FewerKeys(w.fx, s.db, d.idem, s.clock);
    NewRunExpiry(w, tx);
    assert tx.ids[..|SpecsOf(w, tx)|] == tx.ids;
    R.RowAdded(w.fx, d, leases, SpecsOf(w, tx), tx.ids, tx.token, RowOf(w, tx), ScopeOf(tx.req), EntryOf(w, tx), s.clock, tx.now);
  }

  lemma KeysSeenFewer(idem: map<Scope, IdemEntry>, tx: Tx)
    ensures forall k :: k in KeysSeen(idem, tx) ==> k in idem && KeysSeen(idem, tx)[k] == idem[k]
  {
  }

  /** The row a transaction is about to commit is a good one, and its token and leases are new. */
  lemma CommittedRow(w: World, s: Sys, t: TxId, leases: map<LeaseId, Lease>)
    requires TxsOk(w, s) && t in s.txs && |s.txs[t].ids| == |SpecsOf(w, s.txs[t])|
    requires R.Inserted(leases, s.txs[t].req.workspace, SpecsOf(w, s.txs[t]), s.txs[t].ids)
    ensures var tx := s.txs[t];
            && tx.token !in s.db.runs && tx.now <= s.clock && R.FreshIds(s.db.leases, tx.ids)
            && R.RowOk(w.fx, leases, RowOf(w, tx), s.clock)
            && (forall l :: l in RowOf(w, tx).leases ==> l in tx.ids)
            && (forall i :: 0 <= i < |tx.ids| && tx.ids[i] in leases && leases[tx.ids[i]].operation.ConcurrencyOp? ==>
                  tx.ids[i] in RowOf(w, tx).leases)
  {
    var tx := s.txs[t];
    assert TxShape(w, s, tx);
    R.NewRowOk(w.cfg, w.fx, tx.req, tx.now, leases, tx.ids, s.clock);
    AcceptedIds(w, tx);
  }

  lemma NewRunExpiry(w: World, tx: Tx)
    ensures NewRun(w.cfg, tx.req, tx.now).expiresAt == tx.now + w.cfg.handleTtl
  {
  }

  /** The row of an accepted run names its concurrency lease, and only that. */
  lemma AcceptedIds(w: World, tx: Tx)
    requires |tx.ids| == |SpecsOf(w, tx)|
    ensures forall l :: l in RowOf(w, tx).leases ==> l in tx.ids
    ensures forall i :: 0 <= i < |tx.ids| && SpecsOf(w, tx)[i].operation.ConcurrencyOp? ==> tx.ids[i] in RowOf(w, tx).leases
  {
    R.ConcurrencyIdsAre(tx.req, tx.now, TimeoutAt(w.cfg, tx.req, tx.now), tx.ids);
    R.SpecsAt(tx.req, tx.now, TimeoutAt(w.cfg, tx.req, tx.now));
  }

  /** A settlement either leaves the tables alone or finishes one unsettled run. */
  lemma SettlesOne(w: World, db: DbState, u: Settler)
    ensures SettleNow(w, db, u) == db ||
            (u.handle in db.runs && exists settled ::
               R.Finishes(db.runs[u.handle].run, settled) && SettleNow(w, db, u) == Settle(db, u.handle, settled, u.now))
  {
    if SettleNow(w, db, u) != db {
      var run := db.runs[u.handle].run;
      match u.kind
      case ByReport(report) =>
        assert R.Finishes(run, CompletedRun(w.cfg, run, report, u.now));
      case ByCancel =>
        assert R.Finishes(run, run.(status := Cancelled));
      case ByStatus(q) =>
        assert R.Finishes(run, MarkFailed(run, TimedOut));
    }
  }

  /** What a statement can do to the tables. */
  lemma StatementWrites(w: World, s: Sys, t: TxId, id: LeaseId)
    requires t in s.txs
    ensures var s' := Statement(w, s, t, id);
            || (s'.db == s.db && s'.scopes == s.scopes)
            || s' == CommitReplay(s, t)
            || (s.txs[t].pc == Commit && |s.txs[t].ids| == |SpecsOf(w, s.txs[t])| && s' == CommitAccept(w, s, t))
  {
    hide SpecsOf, LeasesSeen, KeysSeen, LiveLeases, CommitAccept, CommitReplay, StaleLeases, FreshId, Gate, ScopeOf,
      LacksClientIdentity, BucketPc, TakeLock, Put, Rollback;
    TakeLockWrites(w, s, t);
    assert forall tx :: Put(s, t, tx).db == s.db && Put(s, t, tx).scopes == s.scopes by { PutWrites(s, t); }
    assert Rollback(s, t).db == s.db && Rollback(s, t).scopes == s.scopes by { RollbackWrites(s, t); }
  }

  lemma TakeLockWrites(w: World, s: Sys, t: TxId)
    requires t in s.txs
    ensures forall name, next :: TakeLock(w, s, t, name, next).db == s.db && TakeLock(w, s, t, name, next).scopes == s.scopes
  {
  }

  lemma PutWrites(s: Sys, t: TxId)
    ensures forall tx :: Put(s, t, tx).db == s.db && Put(s, t, tx).scopes == s.scopes
  {
  }

  lemma RollbackWrites(s: Sys, t: TxId)
    ensures Rollback(s, t).db == s.db && Rollback(s, t).scopes == s.scopes
  {
  }

  lemma StepKeepsDb(w: World, s: Sys, a: Action)
    requires TxsOk(w, s) && SettlersOk(s) && R.DbOk(w.fx, s.db, s.clock)
    ensures R.DbOk(w.fx, Step(w, s, a).db, Step(w, s, a).clock)
  {
    hide R.DbOk, TxsOk, Statement, SettleNow, CommitAccept;
    match a
    case Tick(elapsed) => DbOkLater(w.fx, s.db, s.clock, s.clock + elapsed);
    case Advance(t, id) =>
      if t in s.txs {
        StatementWrites(w, s, t, id);
        StatementSettlers(w, s, t, id);
        FewerKeys(w.fx, s.db, KeysSeen(s.db.idem, s.txs[t]), s.clock);
        if |s.txs[t].ids| == |SpecsOf(w, s.txs[t])| { AcceptKeepsDb(w, s, t); }
      }
    case FinishSettle(u) =>
      if u in s.settlers {
        SettlesOne(w, s.db, s.settlers[u]);
        if SettleNow(w, s.db, s.settlers[u]) != s.db {
          var h := s.settlers[u].handle;
          var settled :| R.Finishes(s.db.runs[h].run, settled) &&
            SettleNow(w, s.db, s.settlers[u]) == Settle(s.db, h, settled, s.settlers[u].now);
          R.SettleKeepsDb(w.fx, s.db, h, settled, s.clock, s.settlers[u].now);
        }
      }
    case _ =>
  }

  // ---------------------------------------------------------------- one live run per scope

  predicate PastLookup(tx: Tx) {
    !(tx.pc.TakeKeyLock? || tx.pc.PurgeKeys? || tx.pc.Lookup?)
  }

  /** An unexpired run of the given scope. */
  predicate LiveUnder(s: Sys, h: Handle, scope: Scope) {
    h in s.db.runs && h in s.scopes && s.scopes[h] == scope && s.db.runs[h].run.expiresAt > s.clock
  }

  /** Every run is remembered under its scope, and an unexpired one is the run its scope's key points at. */
  ghost predicate KeysCurrent(s: Sys) {
    && (forall h :: h in s.db.runs ==> h in s.scopes)
    && (forall h :: h in s.db.runs && h in s.scopes && s.db.runs[h].run.expiresAt > s.clock ==>
          s.scopes[h] in s.db.idem && s.db.idem[s.scopes[h]].handle == h)
  }

  /** No unexpired run exists under the scope of a transaction that is past its lookup. */
  ghost predicate LookupsHold(s: Sys) {
    forall t, h :: t in s.txs && PastLookup(s.txs[t]) ==> !LiveUnder(s, h, ScopeOf(s.txs[t].req))
  }

  ghost predicate ScopesOk(s: Sys) { KeysCurrent(s) && LookupsHold(s) }

  predicate LookupHits(s: Sys, tx: Tx) {
    var seen := KeysSeen(s.db.idem, tx);
    var scope := ScopeOf(tx.req);
    scope in seen && seen[scope].handle in s.db.runs && seen[scope].expiresAt > tx.now
  }

  /** A lookup finds the unexpired run of its scope, however stale the instant it uses. */
  lemma LiveRunFound(w: World, s: Sys, t: TxId, h: Handle)
    requires TxsOk(w, s) && R.DbOk(w.fx, s.db, s.clock) && ScopesOk(s) && t in s.txs
    requires LiveUnder(s, h, ScopeOf(s.txs[t].req))
    ensures LookupHits(s, s.txs[t])
  {
    assert TxShape(w, s, s.txs[t]);
    LiveKeysSeen(w, s, t, h);
    hide SpecsOf, Gate, R.Regular;
  }

  /** A lookup that finds nothing proves that no unexpired run has the scope. */
  lemma MissMeansFree(w: World, s: Sys, t: TxId)
    requires TxsOk(w, s) && R.DbOk(w.fx, s.db, s.clock) && ScopesOk(s) && t in s.txs
    requires !LookupHits(s, s.txs[t])
    ensures forall h :: !LiveUnder(s, h, ScopeOf(s.txs[t].req))
  {
    hide TxsOk, R.DbOk, ScopesOk, LookupHits, LiveUnder;
    forall h ensures LiveUnder(s, h, ScopeOf(s.txs[t].req)) ==> LookupHits(s, s.txs[t]) {
      if LiveUnder(s, h, ScopeOf(s.txs[t].req)) { LiveRunFound(w, s, t, h); }
    }
  }

  /** Two transactions past their lookup have different scopes: both hold their key locks. */
  lemma ScopesExclusive(w: World, s: Sys, t: TxId, u: TxId)
    requires TxsOk(w, s) && t in s.txs && u in s.txs && t != u
    requires PastLookup(s.txs[t]) && PastLookup(s.txs[u])
    ensures ScopeOf(s.txs[t].req) != ScopeOf(s.txs[u].req)
  {
    assert TxLocks(w, s, t) && TxLocks(w, s, u);
  }

  /** Deleting expired keys does not touch a live run's key. */
  lemma LiveKeysSeen(w: World, s: Sys, t: TxId, h: Handle)
    requires TxsOk(w, s) && R.DbOk(w.fx, s.db, s.clock) && ScopesOk(s) && t in s.txs
    requires h in s.db.runs && s.db.runs[h].run.expiresAt > s.clock
    ensures h in s.scopes && s.scopes[h] in KeysSeen(s.db.idem, s.txs[t])
    ensures KeysSeen(s.db.idem, s.txs[t])[s.scopes[h]].handle == h
  {
    assert TxShape(w, s, s.txs[t]);
  }

  lemma ReplayKeepsScopes(w: World, s: Sys, t: TxId)
    requires TxsOk(w, s) && R.DbOk(w.fx, s.db, s.clock) && ScopesOk(s) && t in s.txs
    ensures ScopesOk(CommitReplay(s, t)) && ScopesOk(Rollback(s, t))
  {
    var s' := CommitReplay(s, t);
    forall h | h in s'.db.runs && s'.db.runs[h].run.expiresAt > s'.clock
      ensures s'.scopes[h] in s'.db.idem && s'.db.idem[s'.scopes[h]].handle == h
    {
      LiveKeysSeen(w, s, t, h);
    }
    forall u, h | u in s'.txs && PastLookup(s'.txs[u]) ensures !LiveUnder(s', h, ScopeOf(s'.txs[u].req)) {
      assert !LiveUnder(s, h, ScopeOf(s.txs[u].req));
    }
    forall u, h | u in Rollback(s, t).txs && PastLookup(s.txs[u])
      ensures !LiveUnder(Rollback(s, t), h, ScopeOf(s.txs[u].req))
    {
      assert !LiveUnder(s, h, ScopeOf(s.txs[u].req));
    }
  }

  /** What a commit does to runs, keys and scopes. */
  lemma AcceptWrites(w: World, s: Sys, t: TxId)
    requires t in s.txs && |s.txs[t].ids| == |SpecsOf(w, s.txs[t])|
    ensures var tx := s.txs[t]; var s' := CommitAccept(w, s, t);
            && s'.db.runs == s.db.runs[tx.token := RowOf(w, tx)]
            && s'.db.idem == KeysSeen(s.db.idem, tx)[ScopeOf(tx.req) := EntryOf(w, tx)]
            && s'.scopes == s.scopes[tx.token := ScopeOf(tx.req)] && s'.clock == s.clock
  {
    hide SpecsOf, KeysSeen, LeasesSeen, RowOf, EntryOf, ScopeOf;
  }

  /** No other live run has the scope of a transaction past its lookup. */
  lemma OtherScope(s: Sys, t: TxId, h: Handle)
    requires ScopesOk(s) && t in s.txs && s.txs[t].pc == Commit
    requires h in s.db.runs && s.db.runs[h].run.expiresAt > s.clock && h in s.scopes
    ensures s.scopes[h] != ScopeOf(s.txs[t].req)
  {
    hide ScopeOf;
    assert !LiveUnder(s, h, ScopeOf(s.txs[t].req));
  }

  /** After a commit the new run is the one under its scope's key. */
  lemma AcceptedScopes(w: World, s: Sys, t: TxId, h: Handle)
    requires TxsOk(w, s) && R.DbOk(w.fx, s.db, s.clock) && ScopesOk(s)
    requires t in s.txs && s.txs[t].pc == Commit && |s.txs[t].ids| == |SpecsOf(w, s.txs[t])|
    requires var s' := CommitAccept(w, s, t); h in s'.db.runs && s'.db.runs[h].run.expiresAt > s'.clock
    ensures var s' := CommitAccept(w, s, t);
            h in s'.scopes && s'.scopes[h] in s'.db.idem && s'.db.idem[s'.scopes[h]].handle == h
  {
    hide TxsOk, R.DbOk, SpecsOf, KeysSeen, LeasesSeen, RowOf, CommitAccept, ScopeOf, ScopesOk, LiveUnder;
    AcceptWrites(w, s, t);
    var tx := s.txs[t];
    if h != tx.token {
      LiveKeysSeen(w, s, t, h);
      OtherScope(s, t, h);
    }
  }

  /** A commit gives no other open transaction past its lookup a run under its scope. */
  lemma AcceptedElsewhere(w: World, s: Sys, t: TxId, u: TxId, h: Handle)
    requires TxsOk(w, s) && ScopesOk(s)
    requires t in s.txs && s.txs[t].pc == Commit && |s.txs[t].ids| == |SpecsOf(w, s.txs[t])|
    requires u in s.txs && u != t && PastLookup(s.txs[u])
    ensures !LiveUnder(CommitAccept(w, s, t), h, ScopeOf(s.txs[u].req))
  {
    hide TxsOk, SpecsOf, KeysSeen, LeasesSeen, RowOf;
    ScopesExclusive(w, s, t, u);
    assert !LiveUnder(s, h, ScopeOf(s.txs[u].req));
  }

  lemma AcceptFrame(w: World, s: Sys, t: TxId)
    requires t in s.txs && |s.txs[t].ids| == |SpecsOf(w, s.txs[t])|
    ensures var s' := CommitAccept(w, s, t);
            && s'.txs == s.txs - {t} && s'.clock == s.clock
            && s'.db.runs.Keys == s.db.runs.Keys + {s.txs[t].token}
            && s'.scopes.Keys == s.scopes.Keys + {s.txs[t].token}
            && s'.db.leases == LeasesSeen(w, s.db.leases, s.txs[t])
  {
    hide SpecsOf, KeysSeen, LeasesSeen, RowOf, EntryOf, ScopeOf;
  }

  lemma AcceptKeepsKeys(w: World, s: Sys, t: TxId)
    requires TxsOk(w, s) && R.DbOk(w.fx, s.db, s.clock) && ScopesOk(s)
    requires t in s.txs && s.txs[t].pc == Commit && |s.txs[t].ids| == |SpecsOf(w, s.txs[t])|
    ensures KeysCurrent(CommitAccept(w, s, t))
  {
    var s' := CommitAccept(w, s, t);
    assert (forall h :: h in s'.db.runs ==> h in s'.scopes) by {
      AcceptWrites(w, s, t);
      assert KeysCurrent(s);
      hide TxsOk, R.DbOk, SpecsOf, CommitAccept, LookupsHold, KeysSeen, RowOf, EntryOf, ScopeOf;
    }
    hide TxsOk, R.DbOk, SpecsOf, CommitAccept, LookupsHold, ScopesOk;
    forall h | h in s'.db.runs && s'.db.runs[h].run.expiresAt > s'.clock
      ensures h in s'.scopes && s'.scopes[h] in s'.db.idem && s'.db.idem[s'.scopes[h]].handle == h
    {
      AcceptedScopes(w, s, t, h);
    }
  }

  lemma AcceptKeepsLookups(w: World, s: Sys, t: TxId)
    requires TxsOk(w, s) && ScopesOk(s)
    requires t in s.txs && s.txs[t].pc == Commit && |s.txs[t].ids| == |SpecsOf(w, s.txs[t])|
    ensures LookupsHold(CommitAccept(w, s, t))
  {
    var s' := CommitAccept(w, s, t);
    AcceptFrame(w, s, t);
    hide TxsOk, SpecsOf, PastLookup, LiveUnder, CommitAccept, KeysCurrent, ScopesOk, LeasesSeen;
    forall u, h | u in s'.txs && PastLookup(s'.txs[u]) ensures !LiveUnder(s', h, ScopeOf(s'.txs[u].req)) {
      AcceptedElsewhere(w, s, t, u, h);
    }
  }

  lemma AcceptKeepsScopes(w: World, s: Sys, t: TxId)
    requires TxsOk(w, s) && R.DbOk(w.fx, s.db, s.clock) && ScopesOk(s)
    requires t in s.txs && s.txs[t].pc == Commit && |s.txs[t].ids| == |SpecsOf(w, s.txs[t])|
    ensures ScopesOk(CommitAccept(w, s, t))
  {
    AcceptKeepsKeys(w, s, t);
    AcceptKeepsLookups(w, s, t);
    hide TxsOk, R.DbOk, SpecsOf, CommitAccept, KeysCurrent, LookupsHold;
  }

  /** A private statement of `t` that stays on the same side of the lookup, or passes it after a miss. */
  lemma PutKeepsScopes(s: Sys, t: TxId, s': Sys)
    requires ScopesOk(s) && t in s.txs && s'.txs.Keys == s.txs.Keys
    requires s'.db == s.db && s'.scopes == s.scopes && s'.clock == s.clock
    requires forall u :: u in s.txs && u != t ==> s'.txs[u] == s.txs[u]
    requires s'.txs[t].req == s.txs[t].req
    requires PastLookup(s'.txs[t]) ==> PastLookup(s.txs[t]) || forall h :: !LiveUnder(s, h, ScopeOf(s.txs[t].req))
    ensures ScopesOk(s')
  {
    forall u, h | u in s'.txs && PastLookup(s'.txs[u]) ensures !LiveUnder(s', h, ScopeOf(s'.txs[u].req)) {
      assert !LiveUnder(s, h, ScopeOf(s.txs[u].req));
    }
  }

  lemma LookupKeepsScopes(w: World, s: Sys, t: TxId, id: LeaseId)
    requires TxsOk(w, s) && R.DbOk(w.fx, s.db, s.clock) && ScopesOk(s) && t in s.txs && s.txs[t].pc == Lookup
    ensures ScopesOk(Statement(w, s, t, id))
  {
    hide TxsOk, R.DbOk, ScopesOk, SpecsOf, CommitReplay, Rollback, KeysSeen, LiveUnder, Gate;
    ReplayKeepsScopes(w, s, t);
    if LookupHits(s, s.txs[t]) || LacksClientIdentity(s.txs[t].req) {
    } else {
      MissMeansFree(w, s, t);
      PutKeepsScopes(s, t, Statement(w, s, t, id));
    }
  }

  lemma StatementKeepsScopes(w: World, s: Sys, t: TxId, id: LeaseId)
    requires TxsOk(w, s) && R.DbOk(w.fx, s.db, s.clock) && ScopesOk(s) && t in s.txs
    ensures ScopesOk(Statement(w, s, t, id))
  {
    hide TxsOk, R.DbOk, ScopesOk, SpecsOf, CommitAccept, CommitReplay, Rollback, KeysSeen, LeasesSeen, LiveUnder, FreshId,
      Gate, StaleLeases, LiveLeases;
    var s' := Statement(w, s, t, id);
    var tx := s.txs[t];
    ReplayKeepsScopes(w, s, t);
    if tx.pc == Lookup {
      LookupKeepsScopes(w, s, t, id);
    } else if tx.pc == Commit {
      if |tx.ids| == |SpecsOf(w, tx)| { AcceptKeepsScopes(w, s, t); }
    } else if s' != Rollback(s, t) {
      PutKeepsScopes(s, t, s');
    }
  }

  /** Settling keeps every run's scope, key and expiry. */
  lemma FinishKeepsScopes(w: World, s: Sys, u: TxId)
    requires ScopesOk(s) && u in s.settlers
    ensures ScopesOk(s.(db := SettleNow(w, s.db, s.settlers[u]), settlers := s.settlers - {u}))
  {
    var s' := s.(db := SettleNow(w, s.db, s.settlers[u]), settlers := s.settlers - {u});
    SettleGrows(w, s.db, s.settlers[u]);
    SettleExpiry(w, s.db, s.settlers[u]);
    hide SettleNow;
    forall t, h | t in s'.txs && PastLookup(s'.txs[t]) ensures !LiveUnder(s', h, ScopeOf(s'.txs[t].req)) {
      assert !LiveUnder(s, h, ScopeOf(s.txs[t].req));
    }
  }

  lemma SettleExpiry(w: World, db: DbState, u: Settler)
    ensures forall h :: h in db.runs && h in SettleNow(w, db, u).runs ==>
              SettleNow(w, db, u).runs[h].run.expiresAt == db.runs[h].run.expiresAt
  {
    SettlesOne(w, db, u);
  }

  lemma StepKeepsScopes(w: World, s: Sys, a: Action)
    requires TxsOk(w, s) && R.DbOk(w.fx, s.db, s.clock) && ScopesOk(s)
    ensures ScopesOk(Step(w, s, a))
  {
    hide R.DbOk, TxsOk, Statement, SettleNow, MayBegin;
    match a
    case Tick(elapsed) =>
      var s' := Step(w, s, a);
      forall t, h | t in s'.txs && PastLookup(s'.txs[t]) ensures !LiveUnder(s', h, ScopeOf(s'.txs[t].req)) {
        assert !LiveUnder(s, h, ScopeOf(s.txs[t].req));
      }
    case Begin(t, req, token) =>
      var s' := Step(w, s, a);
      forall u, h | u in s'.txs && PastLookup(s'.txs[u]) ensures !LiveUnder(s', h, ScopeOf(s'.txs[u].req)) {
        assert u in s.txs && s'.txs[u] == s.txs[u] && !LiveUnder(s, h, ScopeOf(s.txs[u].req));
      }
    case Advance(t, id) => if t in s.txs { StatementKeepsScopes(w, s, t, id); }
    case Abort(t) => if t in s.txs { ReplayKeepsScopes(w, s, t); }
    case BeginSettle(u, handle, kind) =>
      var s' := Step(w, s, a);
      forall t, h | t in s'.txs && PastLookup(s'.txs[t]) ensures !LiveUnder(s', h, ScopeOf(s'.txs[t].req)) {
        assert !LiveUnder(s, h, ScopeOf(s.txs[t].req));
      }
    case FinishSettle(u) => if u in s.settlers { FinishKeepsScopes(w, s, u); }
  }

  // ---------------------------------------------------------------- limits

  function OpApp(op: Operation): AppId {
    if op.RateOp? then op.key.app else op.app
  }

  ghost predicate WorkspacesOk(w: World, leases: map<LeaseId, Lease>) {
    forall l :: l in leases ==> leases[l].workspace == w.fx.workspaceOf(OpApp(leases[l].operation))
  }

  /** Committed leases of a bucket that count at the real time. */
  function LiveCommitted(s: Sys, op: Operation): set<LeaseId> {
    set l | l in s.db.leases && s.db.leases[l].operation == op && s.db.leases[l].LiveAt(s.clock)
  }

  /** Uncommitted leases of a bucket that will count once committed. */
  function LivePending(w: World, tx: Tx, op: Operation, clock: Time): set<LeaseId> {
    set j | 0 <= j < |tx.ids| && j < |SpecsOf(w, tx)| &&
            SpecsOf(w, tx)[j].operation == op && SpecsOf(w, tx)[j].expiresAt > clock :: tx.ids[j]
  }

  /** Every lease, committed or not, that occupies a bucket at the real time. */
  function Occupied(w: World, s: Sys, op: Operation): set<LeaseId> {
    LiveCommitted(s, op) + set t, l | t in s.txs && l in LivePending(w, s.txs[t], op, s.clock) :: l
  }

  /** No bucket is over its cap, and one about to receive a lease is below it. */
  ghost predicate Bounded(w: World, s: Sys) {
    && WithinCaps(w, s)
    && (forall t :: t in s.txs ==> SlotFound(w, s, s.txs[t]))
  }

  ghost predicate WithinCaps(w: World, s: Sys) {
    forall op :: |Occupied(w, s, op)| <= w.cap(op)
  }

  predicate SlotFound(w: World, s: Sys, tx: Tx) {
    tx.pc.InsertLease? && tx.pc.i < |SpecsOf(w, tx)| ==> HasSlot(w, s, SpecsOf(w, tx)[tx.pc.i].operation)
  }

  predicate HasSlot(w: World, s: Sys, op: Operation) {
    |Occupied(w, s, op)| < w.cap(op)
  }

  /** Two transactions inside buckets are inside different ones. */
  lemma BucketsExclusive(w: World, s: Sys, t: TxId, u: TxId, i: nat, j: nat)
    requires TxsOk(w, s) && t in s.txs && u in s.txs
    requires i < Locked(w, s.txs[t]) && i < |SpecsOf(w, s.txs[t])|
    requires j < Locked(w, s.txs[u]) && j < |SpecsOf(w, s.txs[u])|
    requires SpecsOf(w, s.txs[t])[i].operation == SpecsOf(w, s.txs[u])[j].operation
    ensures t == u
  {
    assert TxLocks(w, s, t) && TxLocks(w, s, u);
    assert Holds(w, s, t, BucketLock(SpecsOf(w, s.txs[t])[i].operation));
    assert Holds(w, s, u, BucketLock(SpecsOf(w, s.txs[u])[j].operation));
  }

  lemma SpecsWorkspace(w: World, s: Sys, tx: Tx, j: nat)
    requires TxShape(w, s, tx) && j < |SpecsOf(w, tx)|
    ensures OpApp(SpecsOf(w, tx)[j].operation) == tx.req.app
    ensures tx.req.workspace == w.fx.workspaceOf(tx.req.app)
  {
    R.SpecsAt(tx.req, tx.now, TimeoutAt(w.cfg, tx.req, tx.now));
    R.GateScopes(w.cfg, tx.req);
  }

  /** Even with a stale instant, a transaction under its bucket's lock counts every committed lease that is live now. */
  lemma CountSeesCommitted(w: World, s: Sys, t: TxId, op: Operation, l: LeaseId)
    requires TxsOk(w, s) && WorkspacesOk(w, s.db.leases) && t in s.txs
    requires OpApp(op) == s.txs[t].req.app && s.txs[t].req.workspace == w.fx.workspaceOf(s.txs[t].req.app)
    requires |s.txs[t].ids| <= |SpecsOf(w, s.txs[t])| && l in LiveCommitted(s, op)
    ensures l in LiveLeases(LeasesSeen(w, s.db.leases, s.txs[t]), s.txs[t].req.workspace, op, s.txs[t].now)
  {
    hide SpecsOf, TxsOk, NthLease, FirstIndex, Gate;
    NotReleased(w, s, t, l);
  }

  /** A transaction that started in the past marked only expired leases, and inserted only new ones. */
  lemma NotReleased(w: World, s: Sys, t: TxId, l: LeaseId)
    requires TxsOk(w, s) && t in s.txs && l in s.db.leases
    ensures s.txs[t].now <= s.clock && l !in s.txs[t].ids
    ensures s.db.leases[l].expiresAt > s.clock ==> l !in s.txs[t].released
  {
    TxOf(w, s, t);
    ShapeUnused(w, s, s.txs[t]);
    hide SpecsOf, TxsOk, TxLocks, Locked, InsertedSoFar, Gate, R.Regular, R.Mentions, R.FreshIds;
  }

  /** Nobody has an uncommitted lease in a bucket whose lock holder is still counting. */
  lemma NothingPending(w: World, s: Sys, t: TxId, i: nat, u: TxId)
    requires TxsOk(w, s) && t in s.txs && u in s.txs
    requires s.txs[t].pc == CountUsed(i) && i < |SpecsOf(w, s.txs[t])|
    ensures LivePending(w, s.txs[u], SpecsOf(w, s.txs[t])[i].operation, s.clock) == {}
  {
    var tx, tu := s.txs[t], s.txs[u];
    assert TxShape(w, s, tx) && TxShape(w, s, tu);
    hide Gate, R.Regular, R.Mentions, TxsOk;
    var op := SpecsOf(w, tx)[i].operation;
    forall j: nat | j < |tu.ids| && j < |SpecsOf(w, tu)| ensures SpecsOf(w, tu)[j].operation != op {
      if SpecsOf(w, tu)[j].operation == op { BucketsExclusive(w, s, t, u, i, j); }
    }
  }

  lemma CountSeesOccupied(w: World, s: Sys, t: TxId, i: nat)
    requires TxsOk(w, s) && WorkspacesOk(w, s.db.leases)
    requires t in s.txs && s.txs[t].pc == CountUsed(i) && i < |SpecsOf(w, s.txs[t])|
    ensures var tx := s.txs[t];
            && |tx.ids| <= |SpecsOf(w, tx)|
            && Occupied(w, s, SpecsOf(w, tx)[i].operation) <=
               LiveLeases(LeasesSeen(w, s.db.leases, tx), tx.req.workspace, SpecsOf(w, tx)[i].operation, tx.now)
  {
    var tx := s.txs[t];
    assert TxShape(w, s, tx);
    var op := SpecsOf(w, tx)[i].operation;
    SpecsWorkspace(w, s, tx, i);
    hide SpecsOf, TxsOk, TxShape, LiveLeases, LeasesSeen, LiveCommitted, LivePending, WorkspacesOk;
    forall l | l in Occupied(w, s, op)
      ensures l in LiveLeases(LeasesSeen(w, s.db.leases, tx), tx.req.workspace, op, tx.now)
    {
      forall u | u in s.txs ensures LivePending(w, s.txs[u], op, s.clock) == {} {
        NothingPending(w, s, t, i, u);
      }
      CountSeesCommitted(w, s, t, op, l);
    }
  }

  lemma SpecsSame(w: World, tx: Tx, tx': Tx)
    requires tx'.req == tx.req && tx'.now == tx.now
    ensures SpecsOf(w, tx') == SpecsOf(w, tx)
  {
  }

  lemma SpecsAlways(w: World)
    ensures forall tx: Tx, tx': Tx :: tx'.req == tx.req && tx'.now == tx.now ==> SpecsOf(w, tx') == SpecsOf(w, tx)
  {
    forall tx: Tx, tx': Tx | tx'.req == tx.req && tx'.now == tx.now ensures SpecsOf(w, tx') == SpecsOf(w, tx) {
      SpecsSame(w, tx, tx');
    }
  }

  /** `s'` differs from `s` by what transaction `t` keeps to itself. */
  predicate OnlyPrivate(s: Sys, t: TxId, s': Sys) {
    && t in s.txs && s'.txs.Keys == s.txs.Keys
    && s'.db == s.db && s'.clock == s.clock
    && (forall u :: u in s.txs && u != t ==> s'.txs[u] == s.txs[u])
    && s'.txs[t].req == s.txs[t].req && s'.txs[t].now == s.txs[t].now
  }

  /** No bucket gains an occupant, and nobody new is about to insert. */
  ghost predicate Shrinks(w: World, s: Sys, s': Sys) {
    && (forall op :: Occupied(w, s', op) <= Occupied(w, s, op))
    && (forall u :: u in s'.txs && s'.txs[u].pc.InsertLease? ==> u in s.txs && s'.txs[u] == s.txs[u])
  }

  lemma ShrinkingKeepsBounds(w: World, s: Sys, s': Sys)
    requires Bounded(w, s) && Shrinks(w, s, s')
    ensures Bounded(w, s')
  {
    hide Occupied, SpecsOf;
    forall op ensures |Occupied(w, s', op)| <= |Occupied(w, s, op)| {
      SubsetCard(Occupied(w, s', op), Occupied(w, s, op));
    }
  }

  lemma PrivateKeepsOccupied(w: World, s: Sys, t: TxId, s': Sys, op: Operation)
    requires OnlyPrivate(s, t, s') && s'.txs[t].ids == s.txs[t].ids
    ensures Occupied(w, s', op) == Occupied(w, s, op)
  {
    SpecsAlways(w);
    hide SpecsOf;
    assert LiveCommitted(s', op) == LiveCommitted(s, op);
    forall u | u in s.txs ensures LivePending(w, s'.txs[u], op, s.clock) == LivePending(w, s.txs[u], op, s.clock) {
    }
    hide LivePending, LiveCommitted;
  }

  /** A private statement other than an insert, that does not get ready to insert. */
  lemma PrivateShrinks(w: World, s: Sys, t: TxId, s': Sys)
    requires OnlyPrivate(s, t, s') && s'.txs[t].ids == s.txs[t].ids && !s'.txs[t].pc.InsertLease?
    ensures Shrinks(w, s, s')
  {
    hide Occupied;
    forall op ensures Occupied(w, s', op) == Occupied(w, s, op) { PrivateKeepsOccupied(w, s, t, s', op); }
  }

  /** A transaction under its bucket's lock that counts fewer than the limit has found a free slot. */
  lemma CountFindsSlot(w: World, s: Sys, t: TxId, i: nat)
    requires TxsOk(w, s) && WorkspacesOk(w, s.db.leases)
    requires t in s.txs && s.txs[t].pc == CountUsed(i) && i < |SpecsOf(w, s.txs[t])| && |s.txs[t].ids| <= |SpecsOf(w, s.txs[t])|
    requires var tx := s.txs[t]; var spec := SpecsOf(w, tx)[i];
             |LiveLeases(LeasesSeen(w, s.db.leases, tx), tx.req.workspace, spec.operation, tx.now)| < spec.limit
    ensures HasSlot(w, s, SpecsOf(w, s.txs[t])[i].operation)
  {
    var tx := s.txs[t];
    var op := SpecsOf(w, tx)[i].operation;
    CapsHold(w, s, t);
    CountSeesOccupied(w, s, t, i);
    hide *;
    SubsetCard(Occupied(w, s, op), LiveLeases(LeasesSeen(w, s.db.leases, tx), tx.req.workspace, op, tx.now));
    assert HasSlot(w, s, op) by { HasSlotMeans(w, s, op); }
  }

  lemma HasSlotMeans(w: World, s: Sys, op: Operation)
    ensures HasSlot(w, s, op) <==> |Occupied(w, s, op)| < w.cap(op)
  {
    hide Occupied;
  }

  lemma CapsHold(w: World, s: Sys, t: TxId)
    requires TxsOk(w, s) && t in s.txs
    ensures forall i :: 0 <= i < |SpecsOf(w, s.txs[t])| ==>
              SpecsOf(w, s.txs[t])[i].limit <= w.cap(SpecsOf(w, s.txs[t])[i].operation)
  {
    assert TxShape(w, s, s.txs[t]);
    hide SpecsOf, TxsOk, Gate, R.Regular;
  }

  /** Entering the insert statement after a count that found a slot. */
  lemma CountKeepsBounds(w: World, s: Sys, t: TxId, i: nat)
    requires Bounded(w, s) && t in s.txs && i < |SpecsOf(w, s.txs[t])|
    requires HasSlot(w, s, SpecsOf(w, s.txs[t])[i].operation)
    ensures Bounded(w, Put(s, t, s.txs[t].(pc := InsertLease(i))))
  {
    var s' := Put(s, t, s.txs[t].(pc := InsertLease(i)));
    SpecsSame(w, s.txs[t], s'.txs[t]);
    hide SpecsOf, Occupied;
    forall op ensures Occupied(w, s', op) == Occupied(w, s, op) { PrivateKeepsOccupied(w, s, t, s', op); }
    SameOccupied(w, s, s');
    assert SlotFound(w, s', s'.txs[t]);
    hide SlotFound, WithinCaps;
  }

  /** Bounds depend on the occupants alone. */
  lemma SameOccupied(w: World, s: Sys, s': Sys)
    requires forall op :: Occupied(w, s', op) == Occupied(w, s, op)
    ensures WithinCaps(w, s) ==> WithinCaps(w, s')
    ensures forall op :: HasSlot(w, s', op) == HasSlot(w, s, op)
    ensures forall tx :: SlotFound(w, s', tx) == SlotFound(w, s, tx)
  {
    hide SpecsOf, Occupied;
  }

  /** An insert adds its one lease to its own bucket only. */
  lemma InsertOccupies(w: World, s: Sys, t: TxId, i: nat, id: LeaseId, op: Operation)
    requires t in s.txs && s.txs[t].pc == InsertLease(i) && |s.txs[t].ids| == i < |SpecsOf(w, s.txs[t])|
    ensures var tx := s.txs[t];
            Occupied(w, Put(s, t, tx.(ids := tx.ids + [id], pc := BucketPc(w, tx, i + 1))), op) <=
            Occupied(w, s, op) + if op == SpecsOf(w, tx)[i].operation then {id} else {}
  {
    var tx := s.txs[t];
    var tx' := tx.(ids := tx.ids + [id], pc := BucketPc(w, tx, i + 1));
    var s' := Put(s, t, tx');
    SpecsSame(w, tx, tx');
    hide SpecsOf;
    assert LiveCommitted(s', op) == LiveCommitted(s, op);
    var extra := if op == SpecsOf(w, tx)[i].operation then {id} else {};
    forall l | l in LivePending(w, tx', op, s.clock) ensures l in LivePending(w, tx, op, s.clock) + extra {
      var j :| 0 <= j < |tx'.ids| && j < |SpecsOf(w, tx')| &&
               SpecsOf(w, tx')[j].operation == op && SpecsOf(w, tx')[j].expiresAt > s.clock && l == tx'.ids[j];
      if j < i { assert tx.ids[j] == l; }
    }
  }

  /** After an insert, a transaction ready to insert elsewhere still has its slot. */
  lemma OthersKeepSlots(w: World, s: Sys, t: TxId, i: nat, u: TxId, s': Sys)
    requires TxsOk(w, s) && Bounded(w, s) && t in s.txs && s.txs[t].pc == InsertLease(i) && i < |SpecsOf(w, s.txs[t])|
    requires u in s.txs && u != t
    requires forall op :: op != SpecsOf(w, s.txs[t])[i].operation ==> |Occupied(w, s', op)| <= |Occupied(w, s, op)|
    ensures SlotFound(w, s', s.txs[u])
  {
    hide SpecsOf, Occupied, TxsOk;
    assert SlotFound(w, s, s.txs[u]);
    if s.txs[u].pc.InsertLease? && s.txs[u].pc.i < |SpecsOf(w, s.txs[u])| {
      var j := s.txs[u].pc.i;
      if SpecsOf(w, s.txs[t])[i].operation == SpecsOf(w, s.txs[u])[j].operation {
        BucketsExclusive(w, s, t, u, i, j);
      }
    }
  }

  /** The slot that was found pays for the insert. */
  lemma InsertWithinCaps(w: World, s: Sys, t: TxId, i: nat, id: LeaseId)
    requires Bounded(w, s) && t in s.txs && s.txs[t].pc == InsertLease(i)
    requires |s.txs[t].ids| == i < |SpecsOf(w, s.txs[t])|
    ensures var tx := s.txs[t];
            var s' := Put(s, t, tx.(ids := tx.ids + [id], pc := BucketPc(w, tx, i + 1)));
            WithinCaps(w, s') && forall op :: op != SpecsOf(w, tx)[i].operation ==> |Occupied(w, s', op)| <= |Occupied(w, s, op)|
  {
    hide Occupied, BucketPc, SpecsOf;
    var tx := s.txs[t];
    var mine := SpecsOf(w, tx)[i].operation;
    assert SlotFound(w, s, tx);
    hide SlotFound;
    var s' := Put(s, t, tx.(ids := tx.ids + [id], pc := BucketPc(w, tx, i + 1)));
    forall op ensures |Occupied(w, s', op)| <= |Occupied(w, s, op)| + (if op == mine then 1 else 0) {
      InsertCount(w, s, t, i, id, op);
    }
  }

  lemma InsertCount(w: World, s: Sys, t: TxId, i: nat, id: LeaseId, op: Operation)
    requires t in s.txs && s.txs[t].pc == InsertLease(i) && |s.txs[t].ids| == i < |SpecsOf(w, s.txs[t])|
    ensures var tx := s.txs[t];
            |Occupied(w, Put(s, t, tx.(ids := tx.ids + [id], pc := BucketPc(w, tx, i + 1))), op)| <=
            |Occupied(w, s, op)| + (if op == SpecsOf(w, tx)[i].operation then 1 else 0)
  {
    hide *;
    InsertOccupies(w, s, t, i, id, op);
    var tx := s.txs[t];
    var extra: set<LeaseId> := if op == SpecsOf(w, tx)[i].operation then {id} else {};
    SubsetCard(Occupied(w, Put(s, t, tx.(ids := tx.ids + [id], pc := BucketPc(w, tx, i + 1))), op), Occupied(w, s, op) + extra);
  }

  lemma InsertKeepsBounds(w: World, s: Sys, t: TxId, i: nat, id: LeaseId)
    requires TxsOk(w, s) && Bounded(w, s) && t in s.txs && s.txs[t].pc == InsertLease(i)
    requires |s.txs[t].ids| == i < |SpecsOf(w, s.txs[t])|
    ensures var tx := s.txs[t]; Bounded(w, Put(s, t, tx.(ids := tx.ids + [id], pc := BucketPc(w, tx, i + 1))))
  {
    hide SpecsOf, Occupied, TxsOk, SlotFound, WithinCaps, BucketPc;
    var tx := s.txs[t];
    var tx' := tx.(ids := tx.ids + [id], pc := BucketPc(w, tx, i + 1));
    var s' := Put(s, t, tx');
    NotInserting(w, s', tx', tx, i + 1);
    InsertWithinCaps(w, s, t, i, id);
    forall u | u in s.txs && u != t ensures SlotFound(w, s', s.txs[u]) {
      OthersKeepSlots(w, s, t, i, u, s');
    }
  }

  lemma NotInserting(w: World, s: Sys, tx: Tx, from: Tx, i: nat)
    requires tx.pc == BucketPc(w, from, i)
    ensures SlotFound(w, s, tx)
  {
    hide SpecsOf;
  }

  /** Ending a transaction without its leases frees what it held. */
  lemma EndShrinks(w: World, s: Sys, t: TxId, s': Sys)
    requires t in s.txs && s'.txs == s.txs - {t} && s'.clock == s.clock && s'.db.leases == s.db.leases
    ensures Shrinks(w, s, s')
  {
    hide SpecsOf, LivePending;
  }

  /** What is live in a bucket after a commit was live before, committed or not. */
  lemma CommittedOccupants(w: World, s: Sys, s': Sys, tx: Tx, op: Operation)
    requires |tx.ids| == |SpecsOf(w, tx)| && s'.clock == s.clock
    requires LeasesGrow(s.db.leases, s'.db.leases) && R.Inserted(s'.db.leases, tx.req.workspace, SpecsOf(w, tx), tx.ids)
    requires forall l :: l in s'.db.leases ==> l in s.db.leases || l in tx.ids
    ensures LiveCommitted(s', op) <= LiveCommitted(s, op) + LivePending(w, tx, op, s.clock)
  {
    hide SpecsOf;
    forall l | l in LiveCommitted(s', op) ensures l in LiveCommitted(s, op) + LivePending(w, tx, op, s.clock) {
      if l !in s.db.leases {
        var j :| 0 <= j < |tx.ids| && tx.ids[j] == l;
        assert s'.db.leases[l] == Lease(tx.req.workspace, SpecsOf(w, tx)[j].operation, SpecsOf(w, tx)[j].expiresAt, None);
      }
    }
  }

  /** A transaction that ends hands its occupants to the committed ones at most. */
  lemma HandedOver(w: World, s: Sys, s': Sys, t: TxId, op: Operation)
    requires t in s.txs && s'.txs == s.txs - {t} && s'.clock == s.clock
    requires LiveCommitted(s', op) <= LiveCommitted(s, op) + LivePending(w, s.txs[t], op, s.clock)
    ensures Occupied(w, s', op) <= Occupied(w, s, op)
  {
    hide LiveCommitted, LivePending, SpecsOf;
  }

  /** A commit turns its uncommitted leases into committed ones. */
  lemma AcceptShrinks(w: World, s: Sys, t: TxId)
    requires TxsOk(w, s) && t in s.txs && |s.txs[t].ids| == |SpecsOf(w, s.txs[t])|
    ensures Shrinks(w, s, CommitAccept(w, s, t))
  {
    var s' := CommitAccept(w, s, t);
    AcceptFrame(w, s, t);
    forall op ensures Occupied(w, s', op) <= Occupied(w, s, op) {
      hide *;
      CommitLeases(w, s, t);
      CommittedOccupants(w, s, s', s.txs[t], op);
      HandedOver(w, s, s', t, op);
    }
    hide SpecsOf, TxsOk, LeasesSeen, CommitAccept, Occupied;
  }

  /** Time, and releases, only empty buckets. */
  lemma ReleaseShrinks(w: World, s: Sys, s': Sys)
    requires s'.txs == s.txs && s.clock <= s'.clock
    requires LeasesGrow(s.db.leases, s'.db.leases) && s'.db.leases.Keys == s.db.leases.Keys
    ensures Shrinks(w, s, s')
  {
    hide SpecsOf;
    forall op ensures LiveCommitted(s', op) <= LiveCommitted(s, op) {
    }
    forall op, u | u in s.txs ensures LivePending(w, s'.txs[u], op, s'.clock) <= LivePending(w, s.txs[u], op, s.clock) {
    }
    hide LiveCommitted, LivePending;
  }

  lemma BeginShrinks(w: World, s: Sys, t: TxId, tx: Tx)
    requires t !in s.txs && tx.ids == [] && !tx.pc.InsertLease?
    ensures Shrinks(w, s, Put(s, t, tx))
  {
    var s' := Put(s, t, tx);
    hide SpecsOf;
    forall op ensures LiveCommitted(s', op) == LiveCommitted(s, op) && LivePending(w, tx, op, s.clock) == {} {
    }
    hide LiveCommitted, LivePending;
  }

  /** Outside counting, inserting and committing, a statement writes nothing to any bucket. */
  lemma QuietStatement(w: World, s: Sys, t: TxId, id: LeaseId)
    requires t in s.txs && !(s.txs[t].pc.InsertLease? || s.txs[t].pc.CountUsed? || s.txs[t].pc.Commit?)
    ensures var s' := Statement(w, s, t, id);
            || s' == Rollback(s, t) || s' == CommitReplay(s, t)
            || (OnlyPrivate(s, t, s') && s'.txs[t].ids == s.txs[t].ids && !s'.txs[t].pc.InsertLease?)
  {
    hide SpecsOf, KeysSeen, StaleLeases, Gate, CommitReplay, Rollback, ScopeOf, LacksClientIdentity, LeasesSeen, LiveLeases;
    match s.txs[t].pc {
      case TakeKeyLock => QuietLock(w, s, t, KeyLock(ScopeOf(s.txs[t].req)), PurgeKeys);
      case TakeBucketLock(i) =>
        if i < |SpecsOf(w, s.txs[t])| { QuietLock(w, s, t, BucketLock(SpecsOf(w, s.txs[t])[i].operation), ReleaseStale(i)); }
      case _ =>
    }
    hide TakeLock;
  }

  lemma QuietLock(w: World, s: Sys, t: TxId, name: LockName, next: Pc)
    requires t in s.txs && !s.txs[t].pc.InsertLease? && !next.InsertLease?
    ensures var s' := TakeLock(w, s, t, name, next);
            OnlyPrivate(s, t, s') && s'.txs[t].ids == s.txs[t].ids && !s'.txs[t].pc.InsertLease?
  {
  }

  /** What the three statements that touch a bucket do. */
  lemma BucketStatements(w: World, s: Sys, t: TxId, id: LeaseId)
    requires t in s.txs && |s.txs[t].ids| <= |SpecsOf(w, s.txs[t])|
    ensures var tx := s.txs[t]; var s' := Statement(w, s, t, id);
            match tx.pc
            case CountUsed(i) =>
              i < |SpecsOf(w, tx)| ==>
                s' == if |LiveLeases(LeasesSeen(w, s.db.leases, tx), tx.req.workspace, SpecsOf(w, tx)[i].operation, tx.now)|
                         >= SpecsOf(w, tx)[i].limit
                      then Rollback(s, t) else Put(s, t, tx.(pc := InsertLease(i)))
            case InsertLease(i) =>
              s' == if FreshId(s, id) then Put(s, t, tx.(ids := tx.ids + [id], pc := BucketPc(w, tx, i + 1))) else s
            case Commit => s' == if |tx.ids| == |SpecsOf(w, tx)| then CommitAccept(w, s, t) else s
            case _ => true
  {
    hide SpecsOf, LeasesSeen, LiveLeases, Rollback, Put, FreshId, BucketPc, CommitAccept, CommitReplay, TakeLock, KeysSeen,
      StaleLeases, ScopeOf, LacksClientIdentity;
  }

  lemma InBucket(w: World, s: Sys, t: TxId)
    requires TxsOk(w, s) && t in s.txs
    ensures |s.txs[t].ids| <= |SpecsOf(w, s.txs[t])|
    ensures s.txs[t].pc.CountUsed? ==> s.txs[t].pc.i < |SpecsOf(w, s.txs[t])|
    ensures s.txs[t].pc.InsertLease? ==> |s.txs[t].ids| == s.txs[t].pc.i < |SpecsOf(w, s.txs[t])|
  {
    TxOf(w, s, t);
    hide SpecsOf, TxsOk, Gate, R.Regular, R.FreshIds, R.Mentions;
  }

  lemma CountStatementKeepsBounds(w: World, s: Sys, t: TxId, i: nat, id: LeaseId)
    requires TxsOk(w, s) && WorkspacesOk(w, s.db.leases) && Bounded(w, s) && t in s.txs && s.txs[t].pc == CountUsed(i)
    ensures Bounded(w, Statement(w, s, t, id))
  {
    var tx := s.txs[t];
    hide *;
    EndKeepsBounds(w, s, t);
    InBucket(w, s, t);
    BucketStatements(w, s, t, id);
    if |LiveLeases(LeasesSeen(w, s.db.leases, tx), tx.req.workspace, SpecsOf(w, tx)[i].operation, tx.now)| < SpecsOf(w, tx)[i].limit {
      CountFindsSlot(w, s, t, i);
      CountKeepsBounds(w, s, t, i);
    }
  }

  lemma EndKeepsBounds(w: World, s: Sys, t: TxId)
    requires Bounded(w, s) && t in s.txs
    ensures Bounded(w, Rollback(s, t)) && Bounded(w, CommitReplay(s, t))
  {
    hide Bounded, Shrinks;
    EndShrinks(w, s, t, Rollback(s, t));
    ShrinkingKeepsBounds(w, s, Rollback(s, t));
    EndShrinks(w, s, t, CommitReplay(s, t));
    ShrinkingKeepsBounds(w, s, CommitReplay(s, t));
  }

  lemma QuietKeepsBounds(w: World, s: Sys, t: TxId, id: LeaseId)
    requires Bounded(w, s) && t in s.txs && !(s.txs[t].pc.InsertLease? || s.txs[t].pc.CountUsed? || s.txs[t].pc.Commit?)
    ensures Bounded(w, Statement(w, s, t, id))
  {
    hide *;
    var s' := Statement(w, s, t, id);
    QuietStatement(w, s, t, id);
    EndKeepsBounds(w, s, t);
    if s' != Rollback(s, t) && s' != CommitReplay(s, t) {
      PrivateShrinks(w, s, t, s');
      ShrinkingKeepsBounds(w, s, s');
    }
  }

  lemma CommitKeepsBounds(w: World, s: Sys, t: TxId)
    requires TxsOk(w, s) && Bounded(w, s) && t in s.txs && |s.txs[t].ids| == |SpecsOf(w, s.txs[t])|
    ensures Bounded(w, CommitAccept(w, s, t))
  {
    hide *;
    AcceptShrinks(w, s, t);
    ShrinkingKeepsBounds(w, s, CommitAccept(w, s, t));
  }

  lemma InsertStatementKeepsBounds(w: World, s: Sys, t: TxId, id: LeaseId)
    requires TxsOk(w, s) && Bounded(w, s) && t in s.txs && s.txs[t].pc.InsertLease?
    ensures Bounded(w, Statement(w, s, t, id))
  {
    hide *;
    InBucket(w, s, t);
    InsertStatementIs(w, s, t, id);
    if FreshId(s, id) { InsertKeepsBounds(w, s, t, s.txs[t].pc.i, id); }
  }

  lemma InsertStatementIs(w: World, s: Sys, t: TxId, id: LeaseId)
    requires t in s.txs && s.txs[t].pc.InsertLease? && |s.txs[t].ids| <= |SpecsOf(w, s.txs[t])|
    ensures var tx := s.txs[t];
            Statement(w, s, t, id) ==
            if FreshId(s, id) then Put(s, t, tx.(ids := tx.ids + [id], pc := BucketPc(w, tx, tx.pc.i + 1))) else s
  {
    hide *;
    BucketStatements(w, s, t, id);
  }

  lemma CommitStatementKeepsBounds(w: World, s: Sys, t: TxId, id: LeaseId)
    requires TxsOk(w, s) && Bounded(w, s) && t in s.txs && s.txs[t].pc.Commit?
    ensures Bounded(w, Statement(w, s, t, id))
  {
    hide *;
    InBucket(w, s, t);
    CommitStatementIs(w, s, t, id);
    if |s.txs[t].ids| == |SpecsOf(w, s.txs[t])| { CommitKeepsBounds(w, s, t); }
  }

  lemma CommitStatementIs(w: World, s: Sys, t: TxId, id: LeaseId)
    requires t in s.txs && s.txs[t].pc.Commit? && |s.txs[t].ids| <= |SpecsOf(w, s.txs[t])|
    ensures Statement(w, s, t, id) == if |s.txs[t].ids| == |SpecsOf(w, s.txs[t])| then CommitAccept(w, s, t) else s
  {
    hide *;
    BucketStatements(w, s, t, id);
  }

  /** Every statement keeps every bucket within its cap. */
  lemma StatementKeepsBounds(w: World, s: Sys, t: TxId, id: LeaseId)
    requires TxsOk(w, s) && WorkspacesOk(w, s.db.leases) && Bounded(w, s) && t in s.txs
    ensures Bounded(w, Statement(w, s, t, id))
  {
    var tx := s.txs[t];
    hide *;
    if tx.pc.CountUsed? {
      CountStatementKeepsBounds(w, s, t, tx.pc.i, id);
    } else if tx.pc.InsertLease? {
      InsertStatementKeepsBounds(w, s, t, id);
    } else if tx.pc.Commit? {
      CommitStatementKeepsBounds(w, s, t, id);
    } else {
      QuietKeepsBounds(w, s, t, id);
    }
  }

  lemma StepKeepsBounds(w: World, s: Sys, a: Action)
    requires TxsOk(w, s) && WorkspacesOk(w, s.db.leases) && Bounded(w, s)
    ensures Bounded(w, Step(w, s, a))
  {
    hide Bounded, TxsOk, WorkspacesOk, Shrinks, Statement, SettleNow, MayBegin;
    var s' := Step(w, s, a);
    match a
    case Tick(elapsed) => ReleaseShrinks(w, s, s'); ShrinkingKeepsBounds(w, s, s');
    case Begin(t, req, token) =>
      if MayBegin(w, s, t, req, token) {
        assert t !in s.txs by { FreshTx(w, s, t, req, token); }
        BeginShrinks(w, s, t, Tx(req, s.clock, token, TakeKeyLock, map[], {}, []));
        ShrinkingKeepsBounds(w, s, s');
      }
    case Advance(t, id) => if t in s.txs { StatementKeepsBounds(w, s, t, id); }
    case Abort(t) =>
      if t in s.txs {
        EndShrinks(w, s, t, s');
        ShrinkingKeepsBounds(w, s, s');
      }
    case BeginSettle(u, handle, kind) => ReleaseShrinks(w, s, s'); ShrinkingKeepsBounds(w, s, s');
    case FinishSettle(u) =>
      if u in s.settlers {
        SettleGrows(w, s.db, s.settlers[u]);
        ReleaseShrinks(w, s, s');
        ShrinkingKeepsBounds(w, s, s');
      }
  }

  lemma FreshTx(w: World, s: Sys, t: TxId, req: Request, token: Handle)
    requires MayBegin(w, s, t, req, token)
    ensures t !in s.txs
  {
  }

  /** Each lease belongs to the workspace of the app it limits. */
  lemma AcceptKeepsWorkspaces(w: World, s: Sys, t: TxId)
    requires TxsOk(w, s) && WorkspacesOk(w, s.db.leases) && t in s.txs && |s.txs[t].ids| == |SpecsOf(w, s.txs[t])|
    ensures WorkspacesOk(w, CommitAccept(w, s, t).db.leases)
  {
    var tx := s.txs[t];
    CommitLeases(w, s, t);
    TxOf(w, s, t);
    hide SpecsOf, TxsOk, TxShape, LeasesSeen;
    var leases' := CommitAccept(w, s, t).db.leases;
    forall l | l in leases' ensures leases'[l].workspace == w.fx.workspaceOf(OpApp(leases'[l].operation)) {
      if l !in s.db.leases {
        var j: nat :| j < |tx.ids| && tx.ids[j] == l;
        SpecsWorkspace(w, s, tx, j);
      }
    }
  }

  lemma StepKeepsWorkspaces(w: World, s: Sys, a: Action)
    requires TxsOk(w, s) && WorkspacesOk(w, s.db.leases)
    ensures WorkspacesOk(w, Step(w, s, a).db.leases)
  {
    hide TxsOk, Statement, SettleNow, MayBegin, CommitAccept, SpecsOf, KeysSeen;
    match a
    case Advance(t, id) =>
      if t in s.txs {
        StatementWrites(w, s, t, id);
        if |s.txs[t].ids| == |SpecsOf(w, s.txs[t])| { AcceptKeepsWorkspaces(w, s, t); }
      }
    case FinishSettle(u) => if u in s.settlers { SettleGrows(w, s.db, s.settlers[u]); }
    case _ =>
  }

  // ---------------------------------------------------------------- every reachable state

  ghost predicate Invariant(w: World, s: Sys) {
    && TxsOk(w, s)
    && SettlersOk(s)
    && R.DbOk(w.fx, s.db, s.clock)
    && ScopesOk(s)
    && WorkspacesOk(w, s.db.leases)
    && Bounded(w, s)
  }

  /** The invariant holds after any sequence of steps, from any clock. */
  lemma {:induction false} RunKeepsInvariant(w: World, s: Sys, actions: seq<Action>)
    requires Invariant(w, s)
    ensures Invariant(w, After(w, s, actions))
    decreases |actions|
  {
    if actions != [] {
      StepKeepsTxs(w, s, actions[0]);
      StepKeepsDb(w, s, actions[0]);
      StepKeepsScopes(w, s, actions[0]);
      StepKeepsWorkspaces(w, s, actions[0]);
      StepKeepsBounds(w, s, actions[0]);
      hide TxsOk, SettlersOk, R.DbOk, ScopesOk, WorkspacesOk, Bounded, Step;
      RunKeepsInvariant(w, Step(w, s, actions[0]), actions[1..]);
    }
  }

  lemma StartInvariant(w: World, clock: Time)
    ensures Invariant(w, Start(clock))
  {
    hide SpecsOf;
    forall op ensures Occupied(w, Start(clock), op) == {} {
    }
  }

  /** A limit is never exceeded at real time, although transactions act on stale instants. */
  lemma QuotaNeverExceeded(w: World, clock: Time, actions: seq<Action>, op: Operation)
    ensures var s := After(w, Start(clock), actions); |LiveCommitted(s, op)| <= w.cap(op)
  {
    StartInvariant(w, clock);
    RunKeepsInvariant(w, Start(clock), actions);
    var s := After(w, Start(clock), actions);
    assert WithinCaps(w, s) && |Occupied(w, s, op)| <= w.cap(op);
    hide LiveCommitted, LivePending;
    SubsetCard(LiveCommitted(s, op), Occupied(w, s, op));
  }

  /** A concurrency lease counts exactly while the one run that stored it is unsettled and not timed out. */
  lemma LeaseConservation(w: World, clock: Time, actions: seq<Action>, l: LeaseId)
    requires var s := After(w, Start(clock), actions); l in s.db.leases && s.db.leases[l].operation.ConcurrencyOp?
    ensures var s := After(w, Start(clock), actions);
            exists h :: h in s.db.runs && l in s.db.runs[h].leases
              && (forall h' :: h' in s.db.runs && l in s.db.runs[h'].leases ==> h' == h)
              && (s.db.leases[l].LiveAt(s.clock) <==>
                  s.db.runs[h].run.Unsettled() && s.db.runs[h].run.timeoutAt > s.clock)
  {
    StartInvariant(w, clock);
    RunKeepsInvariant(w, Start(clock), actions);
    var s := After(w, Start(clock), actions);
    hide After, TxsOk, ScopesOk, Bounded, WorkspacesOk, R.DbOk;
    OwnedOnce(w.fx, s.db, s.clock, l);
  }

  lemma OwnedOnce(fx: R.Fixed, db: DbState, now: Time, l: LeaseId)
    requires R.DbOk(fx, db, now) && l in db.leases && db.leases[l].operation.ConcurrencyOp?
    ensures exists h :: h in db.runs && l in db.runs[h].leases
              && (forall h' :: h' in db.runs && l in db.runs[h'].leases ==> h' == h)
              && (db.leases[l].LiveAt(now) <==> db.runs[h].run.Unsettled() && db.runs[h].run.timeoutAt > now)
  {
    assert R.Owned(db, l);
    var h :| h in db.runs && l in db.runs[h].leases;
    assert R.RowOk(fx, db.leases, db.runs[h], now);
  }

  /** Runs of one binding that are neither settled nor timed out. */
  function InFlight(s: Sys, app: AppId, binding: BindingId): set<Handle> {
    set h | h in s.db.runs && s.db.runs[h].run.app == app && s.db.runs[h].run.binding == binding
            && s.db.runs[h].run.Unsettled() && s.db.runs[h].run.timeoutAt > s.clock
  }

  /** The lease an in-flight run holds. */
  function LeaseOf(s: Sys, h: Handle): LeaseId {
    if h in s.db.runs && s.db.runs[h].leases != [] then s.db.runs[h].leases[0] else 0
  }

  lemma FlyingHoldsLease(w: World, s: Sys, app: AppId, binding: BindingId, h: Handle)
    requires R.DbOk(w.fx, s.db, s.clock) && w.fx.limited(app, binding) && h in InFlight(s, app, binding)
    ensures LeaseOf(s, h) in s.db.runs[h].leases && LeaseOf(s, h) in LiveCommitted(s, ConcurrencyOp(app, binding))
  {
    assert R.RowOk(w.fx, s.db.leases, s.db.runs[h], s.clock);
    hide R.DbOk;
  }

  /** In-flight runs hold distinct live leases. */
  lemma FlyingCounted(w: World, s: Sys, app: AppId, binding: BindingId)
    requires R.DbOk(w.fx, s.db, s.clock) && w.fx.limited(app, binding)
    ensures |InFlight(s, app, binding)| <= |LiveCommitted(s, ConcurrencyOp(app, binding))|
  {
    var flying := InFlight(s, app, binding);
    assert forall h :: h in flying ==> h in s.db.runs;
    hide R.DbOk, InFlight, LiveCommitted, LeaseOf;
    var leaseOf := map h | h in flying :: LeaseOf(s, h);
    var held := set h | h in flying :: LeaseOf(s, h);
    forall h | h in flying
      ensures LeaseOf(s, h) in s.db.runs[h].leases && LeaseOf(s, h) in LiveCommitted(s, ConcurrencyOp(app, binding))
    {
      FlyingHoldsLease(w, s, app, binding, h);
    }
    forall h1, h2 | h1 in leaseOf && h2 in leaseOf && leaseOf[h1] == leaseOf[h2] ensures h1 == h2 {
      R.OneOwner(w.fx, s.db, s.clock, h1, h2, LeaseOf(s, h1));
    }
    forall l | l in held ensures exists h :: h in leaseOf && leaseOf[h] == l {
      var h :| h in flying && LeaseOf(s, h) == l;
      assert h in leaseOf && leaseOf[h] == l;
    }
    InjectiveCard(leaseOf, held);
    assert leaseOf.Keys == flying;
    SubsetCard(held, LiveCommitted(s, ConcurrencyOp(app, binding)));
  }

  /** So a binding that limits concurrency never has more runs in flight than its limit. */
  lemma RunsInFlightBounded(w: World, clock: Time, actions: seq<Action>, app: AppId, binding: BindingId)
    requires w.fx.limited(app, binding)
    ensures |InFlight(After(w, Start(clock), actions), app, binding)| <= w.cap(ConcurrencyOp(app, binding))
  {
    StartInvariant(w, clock);
    RunKeepsInvariant(w, Start(clock), actions);
    QuotaNeverExceeded(w, clock, actions, ConcurrencyOp(app, binding));
    hide After, TxsOk, ScopesOk, Bounded, WorkspacesOk, R.DbOk;
    FlyingCounted(w, After(w, Start(clock), actions), app, binding);
  }

  /** One scope never has two unexpired runs, however accepts with the same key interleave. */
  lemma OneLiveRunPerScope(w: World, clock: Time, actions: seq<Action>, h1: Handle, h2: Handle)
    requires var s := After(w, Start(clock), actions);
             exists scope :: LiveUnder(s, h1, scope) && LiveUnder(s, h2, scope)
    ensures h1 == h2
  {
    StartInvariant(w, clock);
    RunKeepsInvariant(w, Start(clock), actions);
    hide After, TxsOk, Bounded, WorkspacesOk, R.DbOk;
  }

  /** A settled run is never written again. */
  lemma StepKeepsSettled(w: World, s: Sys, a: Action, h: Handle)
    requires TxsOk(w, s) && h in s.db.runs && !s.db.runs[h].run.Unsettled()
    ensures h in Step(w, s, a).db.runs && Step(w, s, a).db.runs[h] == s.db.runs[h]
  {
    hide TxsOk, Statement, SettleNow, MayBegin, SpecsOf, KeysSeen, LeasesSeen;
    match a
    case Advance(t, id) =>
      if t in s.txs {
        TxOf(w, s, t);
        StatementWrites(w, s, t, id);
      }
    case FinishSettle(u) =>
      if u in s.settlers { SettlesOne(w, s.db, s.settlers[u]); }
    case _ =>
  }

  lemma {:induction false} SettledForever(w: World, s: Sys, actions: seq<Action>, h: Handle)
    requires Invariant(w, s) && h in s.db.runs && !s.db.runs[h].run.Unsettled()
    ensures h in After(w, s, actions).db.runs && After(w, s, actions).db.runs[h] == s.db.runs[h]
    decreases |actions|
  {
    if actions != [] {
      StepKeepsSettled(w, s, actions[0], h);
      RunKeepsInvariant(w, s, actions[..1]);
      assert After(w, s, actions[..1]) == Step(w, s, actions[0]) by { OneStep(w, s, actions[0]); assert actions[..1] == [actions[0]]; }
      hide Invariant, Step;
      SettledForever(w, Step(w, s, actions[0]), actions[1..], h);
    }
  }

  lemma OneStep(w: World, s: Sys, a: Action)
    ensures After(w, s, [a]) == Step(w, s, a)
  {
    hide Step;
    assert [a][1..] == [];
  }
}
