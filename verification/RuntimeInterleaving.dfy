/**
  Concurrent transactions of the durable runtime, interleaved statement by statement.

  Each `accept` reads its instant before it takes any lock, so it may act on a stale one. Its
  writes stay private until it commits; its advisory locks are held until it ends. Settling a
  run (`complete`, `cancel`, a `status` that finds the deadline passed) locks only that run's
  row and is one step, again with an instant read earlier. The clock may move between any two
  steps, and any transaction may be rolled back at any point.
 */
module RuntimeInterleaving {
  import opened Common
  import opened RuntimeModel
  import opened DurableModel
  import R = RuntimeRefinement

  type TxId = nat

  /** What an advisory lock names: an idempotency scope, or the bucket of a limit. */
  datatype LockName = KeyLock(scope: Scope) | BucketLock(operation: Operation)

  /** Settings of the service, the fixed facts about bindings, the largest limit any request carries, and the lock hash. */
  datatype World = World(cfg: Config, fx: R.Fixed, cap: Operation -> nat, lockHash: LockName -> int)

  /** The statement a transaction runs next. */
  datatype Pc =
    | TakeKeyLock
    | PurgeKeys
    | Lookup
    | TakeBucketLock(i: nat)
    | ReleaseStale(i: nat)
    | CountUsed(i: nat)
    | InsertLease(i: nat)
    | InsertRun
    | InsertKey
    | Commit

  /** An open `accept` and its uncommitted writes. */
  datatype Tx = Tx(
    req: Request,
    now: Time,
    token: Handle,
    pc: Pc,
    purged: map<Scope, IdemEntry>,
    released: set<LeaseId>,
    ids: seq<LeaseId>)

  datatype SettleKind = ByReport(report: Report) | ByCancel | ByStatus(q: Query)

  /** An open settlement: the instant it read, and what it will do. */
  datatype Settler = Settler(handle: Handle, kind: SettleKind, now: Time)

  /** `scopes` remembers under which scope each run was accepted. */
  datatype Sys = Sys(
    clock: Time,
    db: DbState,
    locks: map<int, TxId>,
    txs: map<TxId, Tx>,
    settlers: map<TxId, Settler>,
    scopes: map<Handle, Scope>)

  datatype Action =
    | Tick(elapsed: nat)
    | Begin(t: TxId, req: Request, token: Handle)
    | Advance(t: TxId, id: LeaseId)
    | Abort(t: TxId)
    | BeginSettle(u: TxId, handle: Handle, kind: SettleKind)
    | FinishSettle(u: TxId)

  // ---------------------------------------------------------------- one transaction

  function SpecsOf(w: World, tx: Tx): seq<Spec> {
    Specs(tx.req, tx.now, TimeoutAt(w.cfg, tx.req, tx.now))
  }

  /** The lease behind the j-th insert of a transaction. */
  function NthLease(w: World, tx: Tx, j: nat): Lease
    requires j < |SpecsOf(w, tx)|
  {
    Lease(tx.req.workspace, SpecsOf(w, tx)[j].operation, SpecsOf(w, tx)[j].expiresAt, None)
  }

  function FirstIndex(ids: seq<LeaseId>, l: LeaseId): (j: nat)
    requires l in ids
    ensures j < |ids| && ids[j] == l
  {
    if ids[0] == l then 0 else 1 + FirstIndex(ids[1..], l)
  }

  /** The uncommitted leases of a transaction. */
  function Pending(w: World, tx: Tx): map<LeaseId, Lease>
    requires |tx.ids| <= |SpecsOf(w, tx)|
  {
    map l | l in tx.ids :: NthLease(w, tx, FirstIndex(tx.ids, l))
  }

  /** Committed leases after a transaction's releases; a lease keeps the first release it got. */
  function WithReleases(leases: map<LeaseId, Lease>, released: set<LeaseId>, now: Time): map<LeaseId, Lease> {
    map l | l in leases ::
      if l in released && leases[l].releasedAt.None? then leases[l].(releasedAt := Some(now)) else leases[l]
  }

  /** The lease table as the transaction sees it, and as its commit leaves it. */
  function LeasesSeen(w: World, leases: map<LeaseId, Lease>, tx: Tx): map<LeaseId, Lease>
    requires |tx.ids| <= |SpecsOf(w, tx)|
  {
    WithReleases(leases, tx.released, tx.now) + Pending(w, tx)
  }

  /** The key table after a transaction's deletes: a row inserted meanwhile is a different row. */
  function KeysSeen(idem: map<Scope, IdemEntry>, tx: Tx): map<Scope, IdemEntry> {
    map k | k in idem && !(k in tx.purged && tx.purged[k] == idem[k]) :: idem[k]
  }

  function EntryOf(w: World, tx: Tx): IdemEntry {
    IdemEntry(tx.req.payload, tx.token, tx.now + w.cfg.handleTtl)
  }

  function RowOf(w: World, tx: Tx): RunRow
    requires |tx.ids| >= |SpecsOf(w, tx)|
  {
    RunRow(NewRun(w.cfg, tx.req, tx.now), R.ConcurrencyIds(SpecsOf(w, tx), tx.ids))
  }

  // ---------------------------------------------------------------- ending a transaction

  function Unlock(s: Sys, t: TxId): Sys {
    s.(locks := map k | k in s.locks && s.locks[k] != t :: s.locks[k], txs := s.txs - {t})
  }

  /** Rollback drops the private writes with the locks. */
  function Rollback(s: Sys, t: TxId): Sys { Unlock(s, t) }

  /** A replay commits nothing but its deletes. */
  function CommitReplay(s: Sys, t: TxId): Sys
    requires t in s.txs
  {
    Unlock(s.(db := s.db.(idem := KeysSeen(s.db.idem, s.txs[t]))), t)
  }

  function CommitAccept(w: World, s: Sys, t: TxId): Sys
    requires t in s.txs && |s.txs[t].ids| == |SpecsOf(w, s.txs[t])|
  {
    var tx := s.txs[t];
    var scope := ScopeOf(tx.req);
    var db := DbState(
      s.db.runs[tx.token := RowOf(w, tx)],
      KeysSeen(s.db.idem, tx)[scope := EntryOf(w, tx)],
      LeasesSeen(w, s.db.leases, tx));
    Unlock(s.(db := db, scopes := s.scopes[tx.token := scope]), t)
  }

  // ---------------------------------------------------------------- statements

  function Put(s: Sys, t: TxId, tx: Tx): Sys { s.(txs := s.txs[t := tx]) }

  /** Take an advisory lock if nobody else has it; otherwise wait, which changes nothing. */
  function TakeLock(w: World, s: Sys, t: TxId, name: LockName, next: Pc): Sys
    requires t in s.txs
  {
    var k := w.lockHash(name);
    if k in s.locks && s.locks[k] != t then s
    else Put(s.(locks := s.locks[k := t]), t, s.txs[t].(pc := next))
  }

  function BucketPc(w: World, tx: Tx, i: nat): Pc {
    if i < |SpecsOf(w, tx)| then TakeBucketLock(i) else InsertRun
  }

  function StaleLeases(leases: map<LeaseId, Lease>, op: Operation, now: Time): set<LeaseId> {
    set l | l in leases && leases[l].operation == op && leases[l].releasedAt.None? && leases[l].expiresAt <= now
  }

  predicate FreshId(s: Sys, id: LeaseId) {
    id !in s.db.leases && forall t :: t in s.txs ==> id !in s.txs[t].ids
  }

  /** One statement of transaction `t`; `id` is the random lease id an insert draws. */
  function Statement(w: World, s: Sys, t: TxId, id: LeaseId): Sys
    requires t in s.txs
  {
    var tx := s.txs[t];
    var specs := SpecsOf(w, tx);
    var scope := ScopeOf(tx.req);
    match tx.pc
    case TakeKeyLock => TakeLock(w, s, t, KeyLock(scope), PurgeKeys)
    case PurgeKeys =>
      var stale := map k | k in s.db.idem && s.db.idem[k].expiresAt <= tx.now :: s.db.idem[k];
      Put(s, t, tx.(purged := stale, pc := Lookup))
    case Lookup =>
      var seen := KeysSeen(s.db.idem, tx);
      if scope in seen && seen[scope].handle in s.db.runs && seen[scope].expiresAt > tx.now then
        if seen[scope].request == tx.req.payload then CommitReplay(s, t) else Rollback(s, t)
      else if LacksClientIdentity(tx.req) then Rollback(s, t)
      else Put(s, t, tx.(pc := BucketPc(w, tx, 0)))
    case TakeBucketLock(i) =>
      if i < |specs| then TakeLock(w, s, t, BucketLock(specs[i].operation), ReleaseStale(i)) else s
    case ReleaseStale(i) =>
      if i < |specs| then
        Put(s, t, tx.(released := tx.released + StaleLeases(s.db.leases, specs[i].operation, tx.now), pc := CountUsed(i)))
      else s
    case CountUsed(i) =>
      if i < |specs| && |tx.ids| <= |specs| then
        if |LiveLeases(LeasesSeen(w, s.db.leases, tx), tx.req.workspace, specs[i].operation, tx.now)| >= specs[i].limit
        then Rollback(s, t)
        else Put(s, t, tx.(pc := InsertLease(i)))
      else s
    case InsertLease(i) =>
      if FreshId(s, id) then Put(s, t, tx.(ids := tx.ids + [id], pc := BucketPc(w, tx, i + 1))) else s
    case InsertRun =>
      if tx.token in s.db.runs then Rollback(s, t) else Put(s, t, tx.(pc := InsertKey))
    case InsertKey =>
      if scope in KeysSeen(s.db.idem, tx) then Rollback(s, t) else Put(s, t, tx.(pc := Commit))
    case Commit =>
      if |tx.ids| == |specs| then CommitAccept(w, s, t) else s
  }

  // ---------------------------------------------------------------- the system

  /** What the environment guarantees of a new transaction. */
  predicate MayBegin(w: World, s: Sys, t: TxId, req: Request, token: Handle) {
    && t !in s.txs
    && token !in s.db.runs && (forall u :: u in s.txs ==> s.txs[u].token != token)
    && Gate(w.cfg, req).None?
    && R.Regular(w.cfg, w.fx, req, s.clock)
    && var specs := Specs(req, s.clock, TimeoutAt(w.cfg, req, s.clock));
       forall i :: 0 <= i < |specs| ==> specs[i].limit <= w.cap(specs[i].operation)
  }

  function SettleNow(w: World, db: DbState, u: Settler): DbState {
    match u.kind
    case ByReport(report) => Complete(w.cfg, db, u.handle, report, u.now).0
    case ByCancel => Cancel(db, u.handle, u.now).0
    case ByStatus(q) => ReadStatus(db, u.handle, q, u.now).0
  }

  /** One step; an action that is not possible now leaves the system as it is. */
  function Step(w: World, s: Sys, a: Action): Sys {
    match a
    case Tick(elapsed) => s.(clock := s.clock + elapsed)
    case Begin(t, req, token) =>
      if MayBegin(w, s, t, req, token)
      then Put(s, t, Tx(req, s.clock, token, TakeKeyLock, map[], {}, []))
      else s
    case Advance(t, id) => if t in s.txs then Statement(w, s, t, id) else s
    case Abort(t) => if t in s.txs then Rollback(s, t) else s
    case BeginSettle(u, handle, kind) =>
      if u in s.settlers then s else s.(settlers := s.settlers[u := Settler(handle, kind, s.clock)])
    case FinishSettle(u) =>
      if u in s.settlers
      then s.(db := SettleNow(w, s.db, s.settlers[u]), settlers := s.settlers - {u})
      else s
  }

  function Start(clock: Time): Sys {
    Sys(clock, DbState(map[], map[], map[]), map[], map[], map[], map[])
  }

  function After(w: World, s: Sys, actions: seq<Action>): Sys
    decreases |actions|
  {
    if actions == [] then s else After(w, Step(w, s, actions[0]), actions[1..])
  }

  // ---------------------------------------------------------------- the invariant of one transaction

  /** How many bucket locks a transaction has taken, and how many leases it has inserted. */
  function Locked(w: World, tx: Tx): nat {
    if tx.pc.TakeKeyLock? || tx.pc.PurgeKeys? || tx.pc.Lookup? then 0
    else if tx.pc.TakeBucketLock? then tx.pc.i
    else if InsideBucket(tx) then tx.pc.i + 1
    else |SpecsOf(w, tx)|
  }

  function InsertedSoFar(w: World, tx: Tx): nat {
    if InsideBucket(tx) then tx.pc.i else Locked(w, tx)
  }

  /** Between taking a bucket's lock and inserting the lease. */
  predicate InsideBucket(tx: Tx) {
    tx.pc.ReleaseStale? || tx.pc.CountUsed? || tx.pc.InsertLease?
  }

  predicate Holds(w: World, s: Sys, t: TxId, name: LockName) {
    w.lockHash(name) in s.locks && s.locks[w.lockHash(name)] == t
  }

  ghost predicate TxShape(w: World, s: Sys, tx: Tx) {
    && tx.now <= s.clock
    && Gate(w.cfg, tx.req).None?
    && R.Regular(w.cfg, w.fx, tx.req, tx.now)
    && Locked(w, tx) <= |SpecsOf(w, tx)|
    && |tx.ids| == InsertedSoFar(w, tx)
    && (forall i :: 0 <= i < |SpecsOf(w, tx)| ==> SpecsOf(w, tx)[i].limit <= w.cap(SpecsOf(w, tx)[i].operation))
    && (forall k :: k in tx.purged ==> tx.purged[k].expiresAt <= tx.now)
    && (forall l :: l in tx.released ==>
          && l in s.db.leases && s.db.leases[l].expiresAt <= tx.now
          && R.Mentions(SpecsOf(w, tx), s.db.leases[l].operation))
    && R.FreshIds(s.db.leases, tx.ids)
    && tx.token !in s.db.runs
  }

  ghost predicate TxLocks(w: World, s: Sys, t: TxId)
    requires t in s.txs
  {
    var tx := s.txs[t];
    && (tx.pc != TakeKeyLock ==> Holds(w, s, t, KeyLock(ScopeOf(tx.req))))
    && (forall j :: 0 <= j < Locked(w, tx) && j < |SpecsOf(w, tx)| ==>
          Holds(w, s, t, BucketLock(SpecsOf(w, tx)[j].operation)))
  }

  /** Every open transaction is well formed, holds its locks, and shares no token or lease id with another. */
  ghost predicate TxsOk(w: World, s: Sys) {
    && (forall t :: t in s.txs ==> TxShape(w, s, s.txs[t]) && TxLocks(w, s, t))
    && (forall t, u :: t in s.txs && u in s.txs && t != u ==> Apart(s.txs[t], s.txs[u]))
  }

  predicate Apart(a: Tx, b: Tx) {
    a.token != b.token && forall l :: l in a.ids ==> l !in b.ids
  }

  ghost predicate SettlersOk(s: Sys) {
    forall u :: u in s.settlers ==> s.settlers[u].now <= s.clock
  }

  // ---------------------------------------------------------------- keeping transactions well formed

  /** Leases are never removed; only their release may change. */
  ghost predicate LeasesGrow(a: map<LeaseId, Lease>, b: map<LeaseId, Lease>) {
    forall l :: l in a ==>
      && l in b && b[l].operation == a[l].operation && b[l].expiresAt == a[l].expiresAt
      && b[l].workspace == a[l].workspace && (a[l].releasedAt.Some? ==> b[l].releasedAt.Some?)
  }

  /** A transaction stays well formed while others move, provided its token and lease ids stay unused. */
  lemma ShapeKept(w: World, s: Sys, s': Sys, tx: Tx)
    requires TxShape(w, s, tx) && s.clock <= s'.clock
    requires LeasesGrow(s.db.leases, s'.db.leases)
    requires forall l :: l in tx.ids ==> l !in s'.db.leases
    requires tx.token !in s'.db.runs
    ensures TxShape(w, s', tx)
  {
    forall l | l in tx.released
      ensures l in s'.db.leases && s'.db.leases[l].expiresAt <= tx.now
              && R.Mentions(SpecsOf(w, tx), s'.db.leases[l].operation)
    {
      assert l in s.db.leases;
    }
  }

  /** A well-formed transaction's token and lease ids are unused. */
  lemma ShapeUnused(w: World, s: Sys, tx: Tx)
    requires TxShape(w, s, tx)
    ensures tx.token !in s.db.runs && forall l :: l in tx.ids ==> l !in s.db.leases
  {
    hide SpecsOf, Gate, R.Regular, R.Mentions;
  }

  /** What the invariant says of one transaction. */
  lemma TxOf(w: World, s: Sys, t: TxId)
    requires TxsOk(w, s) && t in s.txs
    ensures TxShape(w, s, s.txs[t]) && TxLocks(w, s, t)
  {
    hide TxShape, TxLocks;
  }

  /** Replacing one transaction by a well-formed successor that holds its locks. */
  lemma PutKeeps(w: World, s: Sys, t: TxId, tx: Tx)
    requires TxsOk(w, s) && TxShape(w, s, tx) && TxLocks(w, Put(s, t, tx), t)
    requires forall u :: u in s.txs && u != t ==> Apart(s.txs[u], tx) && Apart(tx, s.txs[u])
    ensures TxsOk(w, Put(s, t, tx))
  {
    var s' := Put(s, t, tx);
    hide TxShape, Locked, SpecsOf;
    forall u | u in s'.txs ensures TxShape(w, s', s'.txs[u]) && TxLocks(w, s', u) {
      if u != t {
        TxOf(w, s, u);
        ShapeUnused(w, s, s.txs[u]);
        ShapeKept(w, s, s', s.txs[u]);
      } else {
        ShapeUnused(w, s, tx);
        ShapeKept(w, s, s', tx);
      }
    }
  }

  /** Taking a free lock disturbs nobody else's. */
  lemma LockAdded(w: World, s: Sys, t: TxId, k: int)
    requires TxsOk(w, s) && (k in s.locks ==> s.locks[k] == t)
    ensures TxsOk(w, s.(locks := s.locks[k := t]))
  {
    hide SpecsOf, Gate, R.Regular, R.FreshIds, R.Mentions, Locked, InsertedSoFar;
    var s1 := s.(locks := s.locks[k := t]);
    forall u | u in s1.txs ensures TxShape(w, s1, s1.txs[u]) && TxLocks(w, s1, u) {
      assert TxShape(w, s, s.txs[u]) && TxLocks(w, s, u);
    }
  }

  /** Moving on to the next statement without writing. */
  lemma ShapeMoves(w: World, s: Sys, tx: Tx, next: Pc)
    requires TxShape(w, s, tx)
    requires var tx' := tx.(pc := next);
             Locked(w, tx') <= |SpecsOf(w, tx')| && InsertedSoFar(w, tx') == InsertedSoFar(w, tx)
    ensures TxShape(w, s, tx.(pc := next))
  {
    assert SpecsOf(w, tx.(pc := next)) == SpecsOf(w, tx);
    hide SpecsOf, Gate, R.Regular, R.FreshIds, R.Mentions;
  }

  /** The locks needed at the next statement are the ones held plus the one just taken. */
  lemma LocksMove(w: World, s: Sys, t: TxId, name: LockName, next: Pc)
    requires t in s.txs && TxLocks(w, s, t) && Holds(w, s, t, name)
    requires var tx := s.txs[t].(pc := next);
             && (name == KeyLock(ScopeOf(tx.req)) || s.txs[t].pc != TakeKeyLock)
             && (forall j :: 0 <= j < Locked(w, tx) && j < |SpecsOf(w, tx)| ==>
                   j < Locked(w, s.txs[t]) || name == BucketLock(SpecsOf(w, tx)[j].operation))
    ensures TxLocks(w, Put(s, t, s.txs[t].(pc := next)), t)
  {
    assert SpecsOf(w, s.txs[t].(pc := next)) == SpecsOf(w, s.txs[t]);
    hide SpecsOf;
  }

  lemma TakeLockKeeps(w: World, s: Sys, t: TxId, name: LockName, next: Pc)
    requires TxsOk(w, s) && t in s.txs
    requires var tx := s.txs[t].(pc := next);
             && Locked(w, tx) <= |SpecsOf(w, tx)| && InsertedSoFar(w, tx) == InsertedSoFar(w, s.txs[t])
             && (name == KeyLock(ScopeOf(tx.req)) || s.txs[t].pc != TakeKeyLock)
             && (forall j :: 0 <= j < Locked(w, tx) && j < |SpecsOf(w, tx)| ==>
                   j < Locked(w, s.txs[t]) || name == BucketLock(SpecsOf(w, tx)[j].operation))
    ensures TxsOk(w, TakeLock(w, s, t, name, next))
  {
    var k := w.lockHash(name);
    if !(k in s.locks && s.locks[k] != t) {
      var s1 := s.(locks := s.locks[k := t]);
      LockAdded(w, s, t, k);
      var tx := s.txs[t].(pc := next);
      assert TxShape(w, s1, s1.txs[t]) && TxLocks(w, s1, t) && Holds(w, s1, t, name);
      ShapeMoves(w, s1, s1.txs[t], next);
      LocksMove(w, s1, t, name, next);
      hide SpecsOf, TxShape, TxLocks, Locked, InsertedSoFar;
      forall u | u in s1.txs && u != t ensures Apart(s1.txs[u], tx) && Apart(tx, s1.txs[u]) {
        assert Apart(s.txs[u], s.txs[t]) && Apart(s.txs[t], s.txs[u]);
      }
      PutKeeps(w, s1, t, tx);
    }
  }

  /** Ending a transaction, with whatever it commits, leaves the others well formed. */
  lemma EndKeeps(w: World, s: Sys, t: TxId, s': Sys)
    requires TxsOk(w, s) && t in s.txs
    requires s'.txs == s.txs - {t} && s'.clock == s.clock
    requires s'.locks == map k | k in s.locks && s.locks[k] != t :: s.locks[k]
    requires LeasesGrow(s.db.leases, s'.db.leases)
    requires forall l :: l in s'.db.leases ==> l in s.db.leases || l in s.txs[t].ids
    requires forall h :: h in s'.db.runs ==> h in s.db.runs || h == s.txs[t].token
    ensures TxsOk(w, s')
  {
    hide TxShape, Locked, SpecsOf;
    forall u | u in s'.txs ensures TxShape(w, s', s'.txs[u]) && TxLocks(w, s', u) {
      TxOf(w, s, u);
      assert Apart(s.txs[t], s.txs[u]) && Apart(s.txs[u], s.txs[t]);
      ShapeUnused(w, s, s.txs[u]);
      ShapeKept(w, s, s', s.txs[u]);
    }
  }

  /** A committed lease, as a transaction sees it. */
  lemma SeenLease(w: World, s: Sys, t: TxId, l: LeaseId)
    requires TxsOk(w, s) && t in s.txs && |s.txs[t].ids| <= |SpecsOf(w, s.txs[t])| && l in s.db.leases
    ensures var tx := s.txs[t];
            var leases' := LeasesSeen(w, s.db.leases, tx);
            l in leases' && R.AgedLease(s.db.leases[l], leases'[l], SpecsOf(w, tx), tx.now)
  {
    TxOf(w, s, t);
    assert R.FreshIds(s.db.leases, s.txs[t].ids);
    assert l in s.txs[t].released ==> s.db.leases[l].expiresAt <= s.txs[t].now;
    hide SpecsOf, R.Mentions, TxsOk, TxShape, TxLocks, NthLease, FirstIndex;
  }

  /** An uncommitted lease, as its transaction sees it. */
  lemma OwnLease(w: World, s: Sys, t: TxId, i: nat)
    requires TxsOk(w, s) && t in s.txs && i < |s.txs[t].ids| <= |SpecsOf(w, s.txs[t])|
    ensures var tx := s.txs[t];
            var leases' := LeasesSeen(w, s.db.leases, tx);
            tx.ids[i] in leases' && leases'[tx.ids[i]] == NthLease(w, tx, i)
  {
    TxOf(w, s, t);
    assert R.FreshIds(s.db.leases, s.txs[t].ids);
    hide SpecsOf, TxsOk, TxShape, TxLocks, NthLease;
    assert FirstIndex(s.txs[t].ids, s.txs[t].ids[i]) == i;
  }

  lemma AgedGrows(leases: map<LeaseId, Lease>, leases': map<LeaseId, Lease>, specs: seq<Spec>, now: Time)
    requires R.Aged(leases, leases', specs, now)
    ensures LeasesGrow(leases, leases')
  {
    hide R.Mentions;
    forall l | l in leases ensures l in leases' && R.AgedLease(leases[l], leases'[l], specs, now) {
    }
  }

  lemma CommitInserts(w: World, s: Sys, t: TxId)
    requires TxsOk(w, s) && t in s.txs && |s.txs[t].ids| == |SpecsOf(w, s.txs[t])|
    ensures var tx := s.txs[t]; R.Inserted(LeasesSeen(w, s.db.leases, tx), tx.req.workspace, SpecsOf(w, tx), tx.ids)
  {
    var tx := s.txs[t];
    hide SpecsOf, TxsOk, LeasesSeen;
    forall i | 0 <= i < |tx.ids|
      ensures tx.ids[i] in LeasesSeen(w, s.db.leases, tx) && LeasesSeen(w, s.db.leases, tx)[tx.ids[i]] == NthLease(w, tx, i)
    {
      OwnLease(w, s, t, i);
    }
  }

  lemma CommitAges(w: World, s: Sys, t: TxId)
    requires TxsOk(w, s) && t in s.txs && |s.txs[t].ids| == |SpecsOf(w, s.txs[t])|
    ensures var tx := s.txs[t]; R.Aged(s.db.leases, LeasesSeen(w, s.db.leases, tx), SpecsOf(w, tx), tx.now)
  {
    var tx := s.txs[t];
    hide SpecsOf, TxsOk, LeasesSeen, R.AgedLease;
    forall l | l in s.db.leases
      ensures l in LeasesSeen(w, s.db.leases, tx)
              && R.AgedLease(s.db.leases[l], LeasesSeen(w, s.db.leases, tx)[l], SpecsOf(w, tx), tx.now)
    {
      SeenLease(w, s, t, l);
    }
  }

  lemma SeenKeys(w: World, leases: map<LeaseId, Lease>, tx: Tx)
    requires |tx.ids| <= |SpecsOf(w, tx)|
    ensures forall l :: l in LeasesSeen(w, leases, tx) ==> l in leases || l in tx.ids
  {
    hide SpecsOf;
  }

  /** What a commit leaves in the lease table. */
  lemma CommitLeases(w: World, s: Sys, t: TxId)
    requires TxsOk(w, s) && t in s.txs && |s.txs[t].ids| == |SpecsOf(w, s.txs[t])|
    ensures var tx := s.txs[t];
            var leases' := LeasesSeen(w, s.db.leases, tx);
            && LeasesGrow(s.db.leases, leases')
            && (forall l :: l in leases' ==> l in s.db.leases || l in tx.ids)
            && R.Aged(s.db.leases, leases', SpecsOf(w, tx), tx.now)
            && R.Inserted(leases', tx.req.workspace, SpecsOf(w, tx), tx.ids)
  {
    hide *;
    CommitAges(w, s, t);
    CommitInserts(w, s, t);
    SeenKeys(w, s.db.leases, s.txs[t]);
    AgedGrows(s.db.leases, LeasesSeen(w, s.db.leases, s.txs[t]), SpecsOf(w, s.txs[t]), s.txs[t].now);
  }

  /** Dropping a transaction with its locks, and possibly committing its deletes. */
  lemma RollbackKeeps(w: World, s: Sys, t: TxId)
    requires TxsOk(w, s) && t in s.txs
    ensures TxsOk(w, Rollback(s, t)) && TxsOk(w, CommitReplay(s, t))
  {
    EndKeeps(w, s, t, Rollback(s, t));
    EndKeeps(w, s, t, CommitReplay(s, t));
  }

  lemma CommitKeeps(w: World, s: Sys, t: TxId)
    requires TxsOk(w, s) && t in s.txs && |s.txs[t].ids| == |SpecsOf(w, s.txs[t])|
    ensures TxsOk(w, CommitAccept(w, s, t))
  {
    CommitLeases(w, s, t);
    hide SpecsOf, TxsOk, LeasesSeen;
    EndKeeps(w, s, t, CommitAccept(w, s, t));
  }

  /** A transaction that took no new lock holds all it needs. */
  lemma LocalLocks(w: World, s: Sys, t: TxId, tx: Tx)
    requires t in s.txs && TxLocks(w, s, t) && tx.req == s.txs[t].req && tx.now == s.txs[t].now
    requires tx.pc != TakeKeyLock ==> s.txs[t].pc != TakeKeyLock
    requires Locked(w, tx) <= Locked(w, s.txs[t])
    ensures TxLocks(w, Put(s, t, tx), t)
  {
    assert SpecsOf(w, tx) == SpecsOf(w, s.txs[t]);
    hide SpecsOf, Locked, ScopeOf;
  }

  /** A statement that writes only into its own transaction. */
  lemma LocalKeeps(w: World, s: Sys, t: TxId, tx: Tx)
    requires TxsOk(w, s) && t in s.txs && TxShape(w, s, tx)
    requires tx.req == s.txs[t].req && tx.now == s.txs[t].now && tx.token == s.txs[t].token
    requires tx.pc != TakeKeyLock ==> s.txs[t].pc != TakeKeyLock
    requires Locked(w, tx) <= Locked(w, s.txs[t])
    requires forall l :: l in tx.ids ==> l in s.txs[t].ids || FreshId(s, l)
    ensures TxsOk(w, Put(s, t, tx))
  {
    hide SpecsOf, TxShape, Locked, TxLocks, Put;
    TxOf(w, s, t);
    ShapeUnused(w, s, s.txs[t]);
    LocalLocks(w, s, t, tx);
    forall u | u in s.txs && u != t ensures Apart(s.txs[u], tx) && Apart(tx, s.txs[u]) {
      assert Apart(s.txs[u], s.txs[t]) && Apart(s.txs[t], s.txs[u]);
    }
    PutKeeps(w, s, t, tx);
  }

  lemma PurgeShape(w: World, s: Sys, tx: Tx, stale: map<Scope, IdemEntry>)
    requires TxShape(w, s, tx) && tx.pc == PurgeKeys
    requires forall k :: k in stale ==> stale[k].expiresAt <= tx.now
    ensures TxShape(w, s, tx.(purged := stale, pc := Lookup))
  {
    assert SpecsOf(w, tx.(purged := stale, pc := Lookup)) == SpecsOf(w, tx);
    hide SpecsOf, Gate, R.Regular;
  }

  lemma ReleaseShape(w: World, s: Sys, tx: Tx, i: nat)
    requires TxShape(w, s, tx) && tx.pc == ReleaseStale(i) && i < |SpecsOf(w, tx)|
    ensures var stale := StaleLeases(s.db.leases, SpecsOf(w, tx)[i].operation, tx.now);
            TxShape(w, s, tx.(released := tx.released + stale, pc := CountUsed(i)))
  {
    var stale := StaleLeases(s.db.leases, SpecsOf(w, tx)[i].operation, tx.now);
    assert SpecsOf(w, tx.(released := tx.released + stale, pc := CountUsed(i))) == SpecsOf(w, tx);
    hide SpecsOf, Gate, R.Regular;
  }

  lemma InsertShape(w: World, s: Sys, t: TxId, i: nat, id: LeaseId)
    requires t in s.txs && TxShape(w, s, s.txs[t]) && s.txs[t].pc == InsertLease(i) && FreshId(s, id)
    ensures var tx := s.txs[t]; TxShape(w, s, tx.(ids := tx.ids + [id], pc := BucketPc(w, tx, i + 1)))
  {
    var tx := s.txs[t];
    var tx' := tx.(ids := tx.ids + [id], pc := BucketPc(w, tx, i + 1));
    assert SpecsOf(w, tx') == SpecsOf(w, tx);
    hide SpecsOf, Gate, R.Regular;
    assert forall l :: l in tx'.ids ==> l in tx.ids || l == id;
  }

  /** A statement that only moves the program counter within the same bucket. */
  lemma MoveKeeps(w: World, s: Sys, t: TxId, next: Pc)
    requires TxsOk(w, s) && t in s.txs && s.txs[t].pc != TakeKeyLock && next != TakeKeyLock
    requires var tx := s.txs[t].(pc := next);
             Locked(w, tx) == Locked(w, s.txs[t]) && InsertedSoFar(w, tx) == InsertedSoFar(w, s.txs[t])
    ensures TxsOk(w, Put(s, t, s.txs[t].(pc := next)))
  {
    assert TxShape(w, s, s.txs[t]);
    assert SpecsOf(w, s.txs[t].(pc := next)) == SpecsOf(w, s.txs[t]);
    hide SpecsOf;
    ShapeMoves(w, s, s.txs[t], next);
    LocalKeeps(w, s, t, s.txs[t].(pc := next));
  }

  /** What the two statements that take a lock do. */
  lemma LockStatements(w: World, s: Sys, t: TxId, id: LeaseId)
    requires t in s.txs
    ensures var tx := s.txs[t]; var s' := Statement(w, s, t, id);
            && (tx.pc.TakeKeyLock? ==> s' == TakeLock(w, s, t, KeyLock(ScopeOf(tx.req)), PurgeKeys))
            && (tx.pc.TakeBucketLock? ==>
                  s' == if tx.pc.i < |SpecsOf(w, tx)|
                        then TakeLock(w, s, t, BucketLock(SpecsOf(w, tx)[tx.pc.i].operation), ReleaseStale(tx.pc.i)) else s)
  {
    hide SpecsOf, TakeLock, ScopeOf;
  }

  lemma TakeKeyKeeps(w: World, s: Sys, t: TxId)
    requires TxsOk(w, s) && t in s.txs && s.txs[t].pc.TakeKeyLock?
    ensures TxsOk(w, TakeLock(w, s, t, KeyLock(ScopeOf(s.txs[t].req)), PurgeKeys))
  {
    SpecsIgnorePc(w, s.txs[t], PurgeKeys);
    hide SpecsOf, TxsOk, TakeLock, ScopeOf;
    TakeLockKeeps(w, s, t, KeyLock(ScopeOf(s.txs[t].req)), PurgeKeys);
  }

  lemma TakeBucketKeeps(w: World, s: Sys, t: TxId, i: nat)
    requires TxsOk(w, s) && t in s.txs && s.txs[t].pc == TakeBucketLock(i) && i < |SpecsOf(w, s.txs[t])|
    ensures TxsOk(w, TakeLock(w, s, t, BucketLock(SpecsOf(w, s.txs[t])[i].operation), ReleaseStale(i)))
  {
    hide SpecsOf, TxsOk, TakeLock, ScopeOf;
    SpecsIgnorePc(w, s.txs[t], ReleaseStale(i));
    TakeLockKeeps(w, s, t, BucketLock(SpecsOf(w, s.txs[t])[i].operation), ReleaseStale(i));
  }

  lemma LockStatementKeeps(w: World, s: Sys, t: TxId, id: LeaseId)
    requires TxsOk(w, s) && t in s.txs && (s.txs[t].pc.TakeKeyLock? || s.txs[t].pc.TakeBucketLock?)
    ensures TxsOk(w, Statement(w, s, t, id))
  {
    hide *;
    LockStatements(w, s, t, id);
    if s.txs[t].pc.TakeKeyLock? {
      TakeKeyKeeps(w, s, t);
    } else if s.txs[t].pc.i < |SpecsOf(w, s.txs[t])| {
      TakeBucketKeeps(w, s, t, s.txs[t].pc.i);
    }
  }

  lemma InsertRoom(w: World, s: Sys, t: TxId)
    requires TxsOk(w, s) && t in s.txs
    ensures InsideBucket(s.txs[t]) ==> s.txs[t].pc.i < |SpecsOf(w, s.txs[t])|
  {
    TxOf(w, s, t);
    hide SpecsOf, TxsOk, Gate, R.Regular, R.FreshIds, R.Mentions;
  }

  lemma WriteStatementKeeps(w: World, s: Sys, t: TxId, id: LeaseId)
    requires TxsOk(w, s) && t in s.txs
    requires s.txs[t].pc.PurgeKeys? || s.txs[t].pc.ReleaseStale? || s.txs[t].pc.InsertLease?
    ensures TxsOk(w, Statement(w, s, t, id))
  {
    if s.txs[t].pc.PurgeKeys? {
      PurgeStatementKeeps(w, s, t, id);
    } else if s.txs[t].pc.ReleaseStale? {
      ReleaseStatementKeeps(w, s, t, id);
    } else {
      InsertStatementKeeps(w, s, t, id);
    }
  }

  lemma PurgeStatementKeeps(w: World, s: Sys, t: TxId, id: LeaseId)
    requires TxsOk(w, s) && t in s.txs && s.txs[t].pc.PurgeKeys?
    ensures TxsOk(w, Statement(w, s, t, id))
  {
    TxOf(w, s, t);
    hide TxsOk, TxShape, TxLocks, Put, SpecsOf;
    var tx := s.txs[t];
    var stale := map k | k in s.db.idem && s.db.idem[k].expiresAt <= tx.now :: s.db.idem[k];
    PurgeShape(w, s, tx, stale);
    LocalKeeps(w, s, t, tx.(purged := stale, pc := Lookup));
  }

  lemma ReleaseStatementKeeps(w: World, s: Sys, t: TxId, id: LeaseId)
    requires TxsOk(w, s) && t in s.txs && s.txs[t].pc.ReleaseStale?
    ensures TxsOk(w, Statement(w, s, t, id))
  {
    hide TxsOk, TxShape, TxLocks, Put, SpecsOf, StaleLeases, Statement;
    TxOf(w, s, t);
    InsertRoom(w, s, t);
    var tx, i := s.txs[t], s.txs[t].pc.i;
    ReleaseShape(w, s, tx, i);
    ReleaseIs(w, s, t, id);
    LocalKeeps(w, s, t, tx.(released := tx.released + StaleLeases(s.db.leases, SpecsOf(w, tx)[i].operation, tx.now), pc := CountUsed(i)));
  }

  lemma ReleaseIs(w: World, s: Sys, t: TxId, id: LeaseId)
    requires t in s.txs && s.txs[t].pc.ReleaseStale? && s.txs[t].pc.i < |SpecsOf(w, s.txs[t])|
    ensures var tx, i := s.txs[t], s.txs[t].pc.i;
            Statement(w, s, t, id) ==
            Put(s, t, tx.(released := tx.released + StaleLeases(s.db.leases, SpecsOf(w, tx)[i].operation, tx.now), pc := CountUsed(i)))
  {
    hide SpecsOf, StaleLeases, ScopeOf;
  }

  lemma InsertStatementKeeps(w: World, s: Sys, t: TxId, id: LeaseId)
    requires TxsOk(w, s) && t in s.txs && s.txs[t].pc.InsertLease?
    ensures TxsOk(w, Statement(w, s, t, id))
  {
    TxOf(w, s, t);
    InsertRoom(w, s, t);
    hide TxsOk, TxShape, TxLocks, Put, SpecsOf, FreshId;
    var tx, i := s.txs[t], s.txs[t].pc.i;
    if FreshId(s, id) {
      InsertShape(w, s, t, i, id);
      LocalKeeps(w, s, t, tx.(ids := tx.ids + [id], pc := BucketPc(w, tx, i + 1)));
    }
  }

  /** Every statement keeps every open transaction well formed. */
  lemma StatementKeeps(w: World, s: Sys, t: TxId, id: LeaseId)
    requires TxsOk(w, s) && t in s.txs
    ensures TxsOk(w, Statement(w, s, t, id))
  {
    var tx := s.txs[t];
    assert TxShape(w, s, tx);
    RollbackKeeps(w, s, t);
    if tx.pc.TakeKeyLock? || tx.pc.TakeBucketLock? {
      LockStatementKeeps(w, s, t, id);
    } else if tx.pc.PurgeKeys? || tx.pc.ReleaseStale? || tx.pc.InsertLease? {
      WriteStatementKeeps(w, s, t, id);
    } else {
      hide TxsOk, TxShape, Statement;
      MoveStatementKeeps(w, s, t, id);
    }
  }

  lemma SpecsIgnorePc(w: World, tx: Tx, next: Pc)
    ensures SpecsOf(w, tx.(pc := next)) == SpecsOf(w, tx)
  {
  }

  lemma MoveStatementKeeps(w: World, s: Sys, t: TxId, id: LeaseId)
    requires TxsOk(w, s) && t in s.txs
    requires var pc := s.txs[t].pc; pc.Lookup? || pc.CountUsed? || pc.InsertRun? || pc.InsertKey? || pc.Commit?
    ensures TxsOk(w, Statement(w, s, t, id))
  {
    hide TxsOk, SpecsOf, Put, CommitReplay, Rollback, CommitAccept, KeysSeen, LeasesSeen, LiveLeases;
    var tx := s.txs[t];
    RollbackKeeps(w, s, t);
    if tx.pc.Lookup? {
      SpecsIgnorePc(w, tx, BucketPc(w, tx, 0));
      MoveKeeps(w, s, t, BucketPc(w, tx, 0));
    } else if tx.pc.CountUsed? {
      MoveKeeps(w, s, t, InsertLease(tx.pc.i));
    } else if tx.pc.InsertRun? {
      SpecsIgnorePc(w, tx, InsertKey);
      MoveKeeps(w, s, t, InsertKey);
    } else if tx.pc.InsertKey? {
      SpecsIgnorePc(w, tx, Commit);
      MoveKeeps(w, s, t, Commit);
    } else if |tx.ids| == |SpecsOf(w, tx)| {
      CommitKeeps(w, s, t);
    }
  }

  /** Beginning a transaction and settling a run do too. */
  lemma BeginKeeps(w: World, s: Sys, t: TxId, req: Request, token: Handle)
    requires TxsOk(w, s) && MayBegin(w, s, t, req, token)
    ensures TxsOk(w, Put(s, t, Tx(req, s.clock, token, TakeKeyLock, map[], {}, [])))
  {
    var tx := Tx(req, s.clock, token, TakeKeyLock, map[], {}, []);
    hide Specs, Gate, R.Regular;
    PutKeeps(w, s, t, tx);
  }

  lemma SettleGrows(w: World, db: DbState, u: Settler)
    ensures var db' := SettleNow(w, db, u);
            && LeasesGrow(db.leases, db'.leases) && db'.leases.Keys == db.leases.Keys
            && db'.runs.Keys == db.runs.Keys && db'.idem == db.idem
  {
  }

  lemma FinishKeeps(w: World, s: Sys, u: TxId)
    requires TxsOk(w, s) && u in s.settlers
    ensures TxsOk(w, s.(db := SettleNow(w, s.db, s.settlers[u]), settlers := s.settlers - {u}))
  {
    var s' := s.(db := SettleNow(w, s.db, s.settlers[u]), settlers := s.settlers - {u});
    SettleGrows(w, s.db, s.settlers[u]);
    hide SettleNow, SpecsOf, TxShape, Locked;
    forall t | t in s'.txs ensures TxShape(w, s', s'.txs[t]) && TxLocks(w, s', t) {
      TxOf(w, s, t);
      ShapeUnused(w, s, s.txs[t]);
      ShapeKept(w, s, s', s.txs[t]);
    }
  }

  lemma TickKeeps(w: World, s: Sys, elapsed: nat)
    requires TxsOk(w, s)
    ensures TxsOk(w, s.(clock := s.clock + elapsed))
  {
    var s' := s.(clock := s.clock + elapsed);
    hide SpecsOf, TxShape, Locked;
    forall t | t in s'.txs ensures TxShape(w, s', s'.txs[t]) && TxLocks(w, s', t) {
      TxOf(w, s, t);
      ShapeUnused(w, s, s.txs[t]);
      ShapeKept(w, s, s', s.txs[t]);
    }
  }

  lemma StepKeepsTxs(w: World, s: Sys, a: Action)
    requires TxsOk(w, s) && SettlersOk(s)
    ensures TxsOk(w, Step(w, s, a)) && SettlersOk(Step(w, s, a))
  {
    hide TxsOk, Statement, MayBegin;
    match a
    case Tick(elapsed) => TickKeeps(w, s, elapsed);
    case Begin(t, req, token) => if MayBegin(w, s, t, req, token) { BeginKeeps(w, s, t, req, token); }
    case Advance(t, id) =>
      if t in s.txs { StatementKeeps(w, s, t, id); StatementSettlers(w, s, t, id); }
    case Abort(t) => if t in s.txs { RollbackKeeps(w, s, t); }
    case BeginSettle(u, handle, kind) => SettlersIrrelevant(w, s, Step(w, s, a));
    case FinishSettle(u) => if u in s.settlers { FinishKeeps(w, s, u); }
  }

  lemma StatementSettlers(w: World, s: Sys, t: TxId, id: LeaseId)
    requires t in s.txs
    ensures Statement(w, s, t, id).settlers == s.settlers && Statement(w, s, t, id).clock == s.clock
  {
    hide SpecsOf, KeysSeen, StaleLeases, LeasesSeen, LiveLeases, FreshId, LacksClientIdentity, ScopeOf, RowOf, EntryOf;
  }

  lemma SettlersIrrelevant(w: World, s: Sys, s': Sys)
    requires TxsOk(w, s) && s' == s.(settlers := s'.settlers)
    ensures TxsOk(w, s')
  {
    forall t | t in s'.txs ensures TxShape(w, s', s'.txs[t]) && TxLocks(w, s', t) {
      assert TxShape(w, s, s.txs[t]) && TxLocks(w, s, t);
    }
  }
}
