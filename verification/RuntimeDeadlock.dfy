/**
  Exactly when the durable runtime's advisory locks can deadlock. What matters is the hashes of
  the locks that some requests name, in the order they name them: a run of these requests can
  reach a circle of waiting transactions exactly when some of them can each take their first
  few locks without sharing a hash, and then each wants a hash the next one has.
 */
module RuntimeDeadlock {
  import opened Common
  import opened RuntimeModel
  import opened DurableModel
  import opened RuntimeInterleaving
  import opened RuntimeLocks
  import G = RuntimeGuarantees
  import R = RuntimeRefinement

  /** A request that has taken its first `taken` locks and wants the next. */
  datatype Front = Front(req: Request, taken: nat)

  predicate FrontOk(f: Front) { 1 <= f.taken < |LockNames(f.req)| }

  predicate HasHash(w: World, f: Front, k: int) {
    exists j :: 0 <= j < f.taken && j < |LockNames(f.req)| && w.lockHash(LockNames(f.req)[j]) == k
  }

  function WantedHash(w: World, f: Front): int
    requires FrontOk(f)
  {
    w.lockHash(LockNames(f.req)[f.taken])
  }

  ghost predicate Disjoint(w: World, fronts: map<TxId, Front>) {
    forall t, u, k :: t in fronts && u in fronts && HasHash(w, fronts[t], k) && HasHash(w, fronts[u], k) ==> t == u
  }

  ghost predicate FrontsOk(reqs: set<Request>, fronts: map<TxId, Front>) {
    forall t :: t in fronts ==> FrontOk(fronts[t]) && fronts[t].req in reqs
  }

  /** One wants a lock the other has. */
  predicate Link(w: World, fronts: map<TxId, Front>, t: TxId, u: TxId) {
    && t in fronts && u in fronts && t != u
    && FrontOk(fronts[t]) && HasHash(w, fronts[u], WantedHash(w, fronts[t]))
  }

  /** The first locks of some requests are all different, and each wants one the next has. */
  ghost predicate Tangled(w: World, reqs: set<Request>, fronts: map<TxId, Front>, ts: seq<TxId>) {
    && FrontsOk(reqs, fronts) && Disjoint(w, fronts)
    && |ts| >= 2 && ts[0] == ts[|ts| - 1]
    && (forall i :: 0 <= i < |ts| - 1 ==> Link(w, fronts, ts[i], ts[i + 1]))
  }

  // ---------------------------------------------------------------- a circle is a tangle

  lemma TookHolds(w: World, s: Sys, t: TxId, name: LockName)
    requires TxsOk(w, s) && t in s.txs && Took(w, s.txs[t], name)
    ensures Holds(w, s, t, name)
  {
    TxOf(w, s, t);
    hide TxsOk, TxShape, Locked, SpecsOf, ScopeOf;
  }

  function FrontOf(w: World, tx: Tx): Front { Front(tx.req, Taken(w, tx)) }

  function FrontsOf(w: World, s: Sys, ts: seq<TxId>): map<TxId, Front> {
    map t | t in ts && t in s.txs :: FrontOf(w, s.txs[t])
  }

  lemma HashIsHeld(w: World, s: Sys, t: TxId, k: int)
    requires TxsOk(w, s) && t in s.txs && HasHash(w, FrontOf(w, s.txs[t]), k)
    ensures k in s.locks && s.locks[k] == t
  {
    TakenMeans(w, s.txs[t]);
    var names := LockNames(s.txs[t].req);
    hide TxsOk, Took, Taken, LockNames;
    var j :| 0 <= j < Taken(w, s.txs[t]) && j < |names| && w.lockHash(names[j]) == k;
    TookHolds(w, s, t, names[j]);
  }

  lemma HeldIsHash(w: World, s: Sys, t: TxId, u: TxId)
    requires LocksOwned(w, s) && WaitsFor(w, s, t, u)
    ensures HasHash(w, FrontOf(w, s.txs[u]), w.lockHash(Wanted(w, s.txs[t]).value))
  {
    var k := w.lockHash(Wanted(w, s.txs[t]).value);
    assert HasTaken(w, s, u, k);
    TakenMeans(w, s.txs[u]);
    hide Took, Wanted, Taken, LockNames, LocksOwned;
    var name :| Took(w, s.txs[u], name) && w.lockHash(name) == k;
  }

  lemma WaiterWants(w: World, s: Sys, t: TxId)
    requires t in s.txs && Wanted(w, s.txs[t]).Some?
    requires exists k :: HasHash(w, FrontOf(w, s.txs[t]), k)
    ensures FrontOk(FrontOf(w, s.txs[t])) && WantedHash(w, FrontOf(w, s.txs[t])) == w.lockHash(Wanted(w, s.txs[t]).value)
  {
    TakenMeans(w, s.txs[t]);
    hide Took, Wanted, Taken, LockNames;
  }

  /** Each member of a circle waits for the next, and is waited for by the one before. */
  lemma InCircle(w: World, s: Sys, ts: seq<TxId>, i: nat)
    requires LocksOwned(w, s) && Circle(w, s, ts) && i < |ts|
    ensures ts[i] in s.txs && FrontOk(FrontOf(w, s.txs[ts[i]]))
    ensures Wanted(w, s.txs[ts[i]]).Some? && WantedHash(w, FrontOf(w, s.txs[ts[i]])) == w.lockHash(Wanted(w, s.txs[ts[i]]).value)
  {
    var here := if i == |ts| - 1 then 0 else i;
    var before := if i == 0 then |ts| - 2 else i - 1;
    assert WaitsFor(w, s, ts[here], ts[here + 1]) && WaitsFor(w, s, ts[before], ts[before + 1]);
    HeldIsHash(w, s, ts[before], ts[before + 1]);
    assert ts[here] == ts[i] == ts[before + 1];
    hide LocksOwned, FrontOk, HasHash, Wanted;
    WaiterWants(w, s, ts[i]);
  }

  lemma CircleFront(w: World, s: Sys, reqs: set<Request>, ts: seq<TxId>, t: TxId)
    requires LocksOwned(w, s) && RequestsFrom(s, reqs) && Circle(w, s, ts) && t in FrontsOf(w, s, ts)
    ensures FrontOk(FrontsOf(w, s, ts)[t]) && FrontsOf(w, s, ts)[t].req in reqs
  {
    hide LocksOwned, Circle, FrontOk, Wanted, Taken;
    var i :| 0 <= i < |ts| && ts[i] == t;
    InCircle(w, s, ts, i);
  }

  lemma CircleLink(w: World, s: Sys, ts: seq<TxId>, i: nat)
    requires LocksOwned(w, s) && Circle(w, s, ts) && i < |ts| - 1
    ensures Link(w, FrontsOf(w, s, ts), ts[i], ts[i + 1])
  {
    assert WaitsFor(w, s, ts[i], ts[i + 1]);
    InCircle(w, s, ts, i);
    InCircle(w, s, ts, i + 1);
    HeldIsHash(w, s, ts[i], ts[i + 1]);
    hide LocksOwned, Circle, FrontOk, Wanted, Taken, HasHash;
  }

  lemma HeldApart(w: World, s: Sys, ts: seq<TxId>)
    requires TxsOk(w, s)
    ensures Disjoint(w, FrontsOf(w, s, ts))
  {
    var fronts := FrontsOf(w, s, ts);
    hide TxsOk, HasHash, Taken;
    forall t, u, k | t in fronts && u in fronts && HasHash(w, fronts[t], k) && HasHash(w, fronts[u], k) ensures t == u {
      HashIsHeld(w, s, t, k);
      HashIsHeld(w, s, u, k);
    }
  }

  lemma CircleShape(w: World, s: Sys, ts: seq<TxId>)
    requires Circle(w, s, ts)
    ensures |ts| >= 2 && ts[0] == ts[|ts| - 1]
  {
  }

  lemma CircleTangles(w: World, s: Sys, reqs: set<Request>, ts: seq<TxId>)
    requires TxsOk(w, s) && LocksOwned(w, s) && RequestsFrom(s, reqs) && Circle(w, s, ts)
    ensures Tangled(w, reqs, FrontsOf(w, s, ts), ts)
  {
    var fronts := FrontsOf(w, s, ts);
    hide TxsOk, LocksOwned, RequestsFrom, Circle, HasHash, Disjoint, FrontOk, FrontsOf;
    CircleShape(w, s, ts);
    hide Link;
    forall i | 0 <= i < |ts| - 1 ensures Link(w, fronts, ts[i], ts[i + 1]) { CircleLink(w, s, ts, i); }
    forall t | t in fronts ensures FrontOk(fronts[t]) && fronts[t].req in reqs { CircleFront(w, s, reqs, ts, t); }
    HeldApart(w, s, ts);
  }

  // ---------------------------------------------------------------- short runs

  lemma ThreeSteps(w: World, s: Sys, a: Action, b: Action, c: Action)
    ensures After(w, s, [a, b, c]) == Step(w, Step(w, Step(w, s, a), b), c)
  {
    hide Step;
    assert [a, b, c][1..] == [b, c] && [b, c][1..] == [c];
    G.OneStep(w, Step(w, Step(w, s, a), b), c);
    assert After(w, Step(w, s, a), [b, c]) == After(w, Step(w, Step(w, s, a), b), [c]);
  }

  lemma {:induction false} AfterConcat(w: World, s: Sys, xs: seq<Action>, ys: seq<Action>)
    ensures After(w, s, xs + ys) == After(w, After(w, s, xs), ys)
    decreases |xs|
  {
    hide Step;
    if xs == [] {
      assert xs + ys == ys;
    } else {
      assert (xs + ys)[1..] == xs[1..] + ys;
      AfterConcat(w, Step(w, s, xs[0]), xs[1..], ys);
    }
  }

  /** Some run that begins only these requests leads here. */
  ghost predicate Reachable(w: World, clock: Time, reqs: set<Request>, s: Sys) {
    exists actions :: BeginsOnly(actions, reqs) && After(w, Start(clock), actions) == s
  }

  lemma ReachMore(w: World, clock: Time, reqs: set<Request>, s: Sys, more: seq<Action>, s': Sys)
    requires Reachable(w, clock, reqs, s) && BeginsOnly(more, reqs) && After(w, s, more) == s'
    ensures Reachable(w, clock, reqs, s')
  {
    hide After;
    var actions :| BeginsOnly(actions, reqs) && After(w, Start(clock), actions) == s;
    AfterConcat(w, Start(clock), actions, more);
    assert BeginsOnly(actions + more, reqs) && After(w, Start(clock), actions + more) == s';
  }

  // ---------------------------------------------------------------- one accept gets as far as it wants

  lemma NothingStale(idem: map<Scope, IdemEntry>, now: Time)
    ensures (map x | x in idem && idem[x].expiresAt <= now :: idem[x]) == map[] || idem != map[]
  {
    assert (map x | x in idem && idem[x].expiresAt <= now :: idem[x]).Keys <= idem.Keys;
  }

  /** A transaction at its start whose key lock is free, in a system without keys, gets as far as its first bucket. */
  lemma ReachesBucket(w: World, s: Sys, t: TxId, id: LeaseId)
    requires t in s.txs && s.txs[t].pc == TakeKeyLock && s.db.idem == map[] && s.txs[t].purged == map[]
    requires !LacksClientIdentity(s.txs[t].req) && SpecsOf(w, s.txs[t]) != []
    requires w.lockHash(KeyLock(ScopeOf(s.txs[t].req))) !in s.locks
    ensures After(w, s, [Advance(t, id), Advance(t, id), Advance(t, id)]) ==
            Put(s.(locks := s.locks[w.lockHash(KeyLock(ScopeOf(s.txs[t].req))) := t]), t, s.txs[t].(pc := TakeBucketLock(0)))
  {
    hide SpecsOf, ScopeOf, LacksClientIdentity, LeasesSeen, LiveLeases, StaleLeases, FreshId, CommitAccept;
    var tx := s.txs[t];
    var k := w.lockHash(KeyLock(ScopeOf(tx.req)));
    var s1 := Put(s.(locks := s.locks[k := t]), t, tx.(pc := PurgeKeys));
    assert Step(w, s, Advance(t, id)) == s1;
    var s2 := Put(s1, t, tx.(pc := Lookup));
    NothingStale(s.db.idem, tx.now);
    assert Step(w, s1, Advance(t, id)) == s2;
    SpecsIgnorePc(w, tx, Lookup);
    var s3 := Put(s2, t, tx.(pc := TakeBucketLock(0)));
    assert Step(w, s2, Advance(t, id)) == s3;
    hide Step;
    ThreeSteps(w, s, Advance(t, id), Advance(t, id), Advance(t, id));
  }

  /** A bucket lock that is free, or its own already under another name. */
  lemma LockStep(w: World, s: Sys, t: TxId, i: nat, id: LeaseId)
    requires t in s.txs && s.txs[t].pc == TakeBucketLock(i) && i < |SpecsOf(w, s.txs[t])|
    requires var k := w.lockHash(SpecLock(SpecsOf(w, s.txs[t])[i])); k in s.locks ==> s.locks[k] == t
    ensures Step(w, s, Advance(t, id)) ==
            Put(s.(locks := s.locks[w.lockHash(SpecLock(SpecsOf(w, s.txs[t])[i])) := t]), t, s.txs[t].(pc := ReleaseStale(i)))
  {
    hide SpecsOf;
  }

  /** Its own uncommitted leases are in other buckets, so with no committed ones the count is zero. */
  lemma OwnBucketsCountNothing(w: World, tx: Tx, i: nat)
    requires |tx.ids| == i < |SpecsOf(w, tx)|
    ensures LiveLeases(LeasesSeen(w, map[], tx), tx.req.workspace, SpecsOf(w, tx)[i].operation, tx.now) == {}
  {
    OwnLeasesElsewhere(w, tx, i);
    hide SpecsOf, LeasesSeen;
  }

  lemma OwnLeasesElsewhere(w: World, tx: Tx, i: nat)
    requires |tx.ids| == i < |SpecsOf(w, tx)|
    ensures forall l :: l in LeasesSeen(w, map[], tx) ==> LeasesSeen(w, map[], tx)[l].operation != SpecsOf(w, tx)[i].operation
  {
    var specs := SpecsOf(w, tx);
    assert forall j :: 0 <= j < i ==> specs[j].operation != specs[i].operation;
    hide SpecsOf;
    assert forall l :: l in LeasesSeen(w, map[], tx) ==> l in tx.ids && LeasesSeen(w, map[], tx)[l] == NthLease(w, tx, FirstIndex(tx.ids, l));
  }

  /** With no committed leases, releasing frees nothing and counting finds room. */
  lemma EmptyBucketSteps(w: World, s: Sys, t: TxId, i: nat, id: LeaseId)
    requires t in s.txs && s.txs[t].pc == ReleaseStale(i) && |s.txs[t].ids| == i && s.txs[t].released == {}
    requires i + 1 < |SpecsOf(w, s.txs[t])| && SpecsOf(w, s.txs[t])[i].limit > 0 && s.db.leases == map[] && FreshId(s, id)
    ensures After(w, s, [Advance(t, id), Advance(t, id), Advance(t, id)]) ==
            Put(s, t, s.txs[t].(ids := s.txs[t].ids + [id], pc := TakeBucketLock(i + 1)))
  {
    var tx := s.txs[t];
    G.SpecsAlways(w);
    hide SpecsOf, ScopeOf, LacksClientIdentity, CommitAccept;
    assert StaleLeases(s.db.leases, SpecsOf(w, tx)[i].operation, tx.now) == {};
    assert tx.released + {} == {};
    var s1 := Put(s, t, tx.(pc := CountUsed(i)));
    assert Step(w, s, Advance(t, id)) == s1;
    var s2 := Put(s1, t, tx.(pc := InsertLease(i)));
    OwnBucketsCountNothing(w, s1.txs[t], i);
    hide LeasesSeen, LiveLeases, StaleLeases;
    assert Step(w, s1, Advance(t, id)) == s2;
    var s3 := Put(s2, t, tx.(ids := tx.ids + [id], pc := TakeBucketLock(i + 1)));
    assert FreshId(s2, id);
    assert Step(w, s2, Advance(t, id)) == s3;
    hide Step, FreshId;
    ThreeSteps(w, s, Advance(t, id), Advance(t, id), Advance(t, id));
  }

  /** A request that passes the gate and whose limits admit at least one call. */
  predicate Servable(w: World, req: Request, now: Time) {
    && Gate(w.cfg, req).None? && !LacksClientIdentity(req)
    && R.Regular(w.cfg, w.fx, req, now)
    && var specs := Specs(req, now, TimeoutAt(w.cfg, req, now));
       forall i :: 0 <= i < |specs| ==> 0 < specs[i].limit <= w.cap(specs[i].operation)
  }

  /** The locks after `t` took the first `p` of a request's. */
  function LocksWith(w: World, locks: map<int, TxId>, t: TxId, req: Request, p: nat): map<int, TxId>
    requires p <= |LockNames(req)|
  {
    if p == 0 then locks else LocksWith(w, locks, t, req, p - 1)[w.lockHash(LockNames(req)[p - 1]) := t]
  }

  lemma OneHashMore(w: World, req: Request, p: nat)
    requires 0 < p <= |LockNames(req)|
    ensures forall k :: HasHash(w, Front(req, p), k) <==> HasHash(w, Front(req, p - 1), k) || k == w.lockHash(LockNames(req)[p - 1])
  {
    hide LockNames;
    forall k ensures HasHash(w, Front(req, p), k) <==> HasHash(w, Front(req, p - 1), k) || k == w.lockHash(LockNames(req)[p - 1]) {
      if HasHash(w, Front(req, p), k) {
        var j :| 0 <= j < p && j < |LockNames(req)| && w.lockHash(LockNames(req)[j]) == k;
        if j < p - 1 { assert HasHash(w, Front(req, p - 1), k); }
      }
    }
  }

  lemma NoHashYet(w: World, req: Request)
    ensures forall k :: !HasHash(w, Front(req, 0), k)
  {
  }

  lemma {:induction false} LocksWithMeans(w: World, locks: map<int, TxId>, t: TxId, req: Request, p: nat)
    requires p <= |LockNames(req)|
    ensures forall k :: k in LocksWith(w, locks, t, req, p) <==> k in locks || HasHash(w, Front(req, p), k)
    ensures forall k :: k in LocksWith(w, locks, t, req, p) ==>
              LocksWith(w, locks, t, req, p)[k] == if HasHash(w, Front(req, p), k) then t else locks[k]
    decreases p
  {
    hide HasHash, LockNames;
    if p > 0 {
      LocksWithMeans(w, locks, t, req, p - 1);
      OneHashMore(w, req, p);
    } else {
      NoHashYet(w, req);
    }
  }

  /** Transaction `t` has taken its first `p` locks; its leases are numbered from `n`. */
  function Part(w: World, s: Sys, t: TxId, req: Request, p: nat, n: nat): Sys
    requires 1 <= p <= |LockNames(req)|
  {
    s.(locks := LocksWith(w, s.locks, t, req, p),
       txs := s.txs[t := Tx(req, s.clock, t, TakeBucketLock(p - 1), map[], {}, seq(p - 1, i => n + i))])
  }

  function Empty(): DbState { DbState(map[], map[], map[]) }

  /** A system in which `t` can begin this request and take these locks. */
  ghost predicate Ready(w: World, s: Sys, t: TxId, req: Request, p: nat, n: nat) {
    && s.db == Empty() && t !in s.txs && 1 <= p < |LockNames(req)| && Servable(w, req, s.clock)
    && (forall u :: u in s.txs ==> s.txs[u].token != t)
    && (forall u, l :: u in s.txs && l in s.txs[u].ids ==> l < n)
    && (forall k :: HasHash(w, Front(req, p), k) ==> k !in s.locks)
  }

  /** The transaction that has just begun. */
  function Begun(s: Sys, t: TxId, req: Request): Sys { Put(s, t, Tx(req, s.clock, t, TakeKeyLock, map[], {}, [])) }

  lemma CanBegin(w: World, s: Sys, t: TxId, req: Request, p: nat, n: nat)
    requires Ready(w, s, t, req, p, n)
    ensures Step(w, s, Begin(t, req, t)) == Begun(s, t, req)
    ensures SpecsOf(w, Begun(s, t, req).txs[t]) != [] && !LacksClientIdentity(req)
    ensures w.lockHash(LockNames(req)[0]) !in s.locks
  {
    assert MayBegin(w, s, t, req, t);
    NamesOf(w, Begun(s, t, req).txs[t]);
    assert HasHash(w, Front(req, p), w.lockHash(LockNames(req)[0]));
    hide LockNames;
  }

  lemma FirstPart(w: World, s: Sys, t: TxId, req: Request, p: nat, n: nat)
    requires Ready(w, s, t, req, p, n)
    ensures exists actions :: BeginsOnly(actions, {req}) && After(w, s, actions) == Part(w, s, t, req, 1, n)
  {
    var begun := Begun(s, t, req);
    var b, x := Begin(t, req, t), Advance(t, 0);
    CanBegin(w, s, t, req, p, n);
    assert begun.db == Empty() && LockNames(req)[0] == KeyLock(ScopeOf(req));
    hide Step, Ready, Servable, HasHash, SpecsOf, LockNames, After, LacksClientIdentity, ScopeOf;
    ReachesBucket(w, begun, t, 0);
    G.OneStep(w, s, b);
    AfterConcat(w, s, [b], [x, x, x]);
    assert BeginsOnly([b] + [x, x, x], {req});
    assert LocksWith(w, s.locks, t, req, 1) == LocksWith(w, s.locks, t, req, 0)[w.lockHash(LockNames(req)[0]) := t];
    assert seq(0, i => n + i) == [];
    assert Part(w, s, t, req, 1, n) == Put(begun.(locks := s.locks[w.lockHash(LockNames(req)[0]) := t]), t, begun.txs[t].(pc := TakeBucketLock(0)));
  }

  /** What the next bucket of a part needs. */
  lemma PartWants(w: World, s: Sys, t: TxId, req: Request, p: nat, q: nat, n: nat)
    requires Ready(w, s, t, req, q, n) && 1 <= p < q
    ensures var s0 := Part(w, s, t, req, p, n); var specs := SpecsOf(w, s0.txs[t]); var k := w.lockHash(LockNames(req)[p]);
            && p < |specs| && SpecLock(specs[p - 1]) == LockNames(req)[p] && specs[p - 1].limit > 0
            && (k in s0.locks ==> s0.locks[k] == t)
  {
    NamesOf(w, Part(w, s, t, req, p, n).txs[t]);
    LocksWithMeans(w, s.locks, t, req, p);
    var k := w.lockHash(LockNames(req)[p]);
    assert HasHash(w, Front(req, q), k);
    hide LocksWith, LockNames;
  }

  lemma FreshNext(w: World, s: Sys, t: TxId, req: Request, p: nat, q: nat, n: nat, locks: map<int, TxId>, pc: Pc)
    requires Ready(w, s, t, req, q, n) && 1 <= p < q
    ensures var s0 := Part(w, s, t, req, p, n); FreshId(Put(s0.(locks := locks), t, s0.txs[t].(pc := pc)), n + (p - 1))
  {
    hide LocksWith, LockNames, Servable, HasHash;
  }

  /** Taking the lock and inserting the lease makes the next part. */
  lemma PartGrows(w: World, s: Sys, t: TxId, req: Request, p: nat, n: nat)
    requires 1 <= p < |LockNames(req)|
    ensures var s0 := Part(w, s, t, req, p, n); var k := w.lockHash(LockNames(req)[p]); var tx := s0.txs[t];
            Put(s0.(locks := s0.locks[k := t]), t, tx.(ids := tx.ids + [n + (p - 1)], pc := TakeBucketLock(p))) ==
            Part(w, s, t, req, p + 1, n)
  {
    hide LockNames;
    assert seq(p - 1, i => n + i) + [n + (p - 1)] == seq(p, i => n + i);
  }

  lemma FourSteps(w: World, s: Sys, x: Action, s': Sys, req: Request)
    requires x.Advance? && After(w, Step(w, s, x), [x, x, x]) == s'
    ensures exists actions :: BeginsOnly(actions, {req}) && After(w, s, actions) == s'
  {
    hide Step;
    G.OneStep(w, s, x);
    AfterConcat(w, s, [x], [x, x, x]);
    assert BeginsOnly([x] + [x, x, x], {req});
  }

  /** Through one bucket: take its lock, release, count, insert. */
  lemma OneBucket(w: World, s: Sys, t: TxId, i: nat, id: LeaseId, k: int)
    requires t in s.txs && s.txs[t].pc == TakeBucketLock(i) && |s.txs[t].ids| == i && s.txs[t].released == {}
    requires i + 1 < |SpecsOf(w, s.txs[t])| && SpecsOf(w, s.txs[t])[i].limit > 0 && s.db.leases == map[]
    requires w.lockHash(SpecLock(SpecsOf(w, s.txs[t])[i])) == k && (k in s.locks ==> s.locks[k] == t)
    requires FreshId(Put(s.(locks := s.locks[k := t]), t, s.txs[t].(pc := ReleaseStale(i))), id)
    ensures After(w, Step(w, s, Advance(t, id)), [Advance(t, id), Advance(t, id), Advance(t, id)]) ==
            Put(s.(locks := s.locks[k := t]), t, s.txs[t].(ids := s.txs[t].ids + [id], pc := TakeBucketLock(i + 1)))
  {
    SpecsIgnorePc(w, s.txs[t], ReleaseStale(i));
    hide Step, After, SpecsOf, FreshId;
    LockStep(w, s, t, i, id);
    EmptyBucketSteps(w, Put(s.(locks := s.locks[k := t]), t, s.txs[t].(pc := ReleaseStale(i))), t, i, id);
  }

  lemma PartTx(w: World, s: Sys, t: TxId, req: Request, p: nat, q: nat, n: nat)
    requires Ready(w, s, t, req, q, n) && 1 <= p <= q
    ensures var s0 := Part(w, s, t, req, p, n);
            && t in s0.txs && s0.txs[t].pc == TakeBucketLock(p - 1) && |s0.txs[t].ids| == p - 1 && s0.txs[t].released == {}
            && s0.db.leases == map[]
  {
    hide LockNames, LocksWith, Servable, HasHash;
  }

  lemma NextPart(w: World, s: Sys, t: TxId, req: Request, p: nat, q: nat, n: nat)
    requires Ready(w, s, t, req, q, n) && 1 <= p < q && p < |LockNames(req)|
    ensures exists actions :: BeginsOnly(actions, {req}) && After(w, Part(w, s, t, req, p, n), actions) == Part(w, s, t, req, p + 1, n)
  {
    hide *;
    var s0 := Part(w, s, t, req, p, n);
    var k := w.lockHash(LockNames(req)[p]);
    PartTx(w, s, t, req, p, q, n);
    PartWants(w, s, t, req, p, q, n);
    FreshNext(w, s, t, req, p, q, n, s0.locks[k := t], ReleaseStale(p - 1));
    OneBucket(w, s0, t, p - 1, n + (p - 1), k);
    PartGrows(w, s, t, req, p, n);
    FourSteps(w, s0, Advance(t, n + (p - 1)), Part(w, s, t, req, p + 1, n), req);
  }

  lemma {:induction false} ReachPart(w: World, clock: Time, reqs: set<Request>, s: Sys, t: TxId, req: Request, p: nat, q: nat, n: nat)
    requires Reachable(w, clock, reqs, s) && req in reqs && Ready(w, s, t, req, q, n) && 1 <= p <= q
    ensures Reachable(w, clock, reqs, Part(w, s, t, req, p, n))
    decreases p
  {
    hide Reachable, After, Servable, HasHash, LockNames, Part;
    if p == 1 {
      FirstPart(w, s, t, req, q, n);
      var actions :| BeginsOnly(actions, {req}) && After(w, s, actions) == Part(w, s, t, req, 1, n);
      ReachMore(w, clock, reqs, s, actions, Part(w, s, t, req, 1, n));
    } else {
      ReachPart(w, clock, reqs, s, t, req, p - 1, q, n);
      NextPart(w, s, t, req, p - 1, q, n);
      var before := Part(w, s, t, req, p - 1, n);
      var actions :| BeginsOnly(actions, {req}) && After(w, before, actions) == Part(w, s, t, req, p, n);
      ReachMore(w, clock, reqs, before, actions, Part(w, s, t, req, p, n));
    }
  }

  // ---------------------------------------------------------------- a tangle is reached

  /** The transactions in `done` stand at their fronts, and the locks are theirs. */
  ghost predicate Driven(w: World, clock: Time, s: Sys, fronts: map<TxId, Front>, done: set<TxId>, n: nat) {
    && s.clock == clock && s.db == Empty() && s.txs.Keys == done && done <= fronts.Keys
    && (forall t :: t in done ==> Stands(s.txs[t], clock, t, fronts[t], n))
    && LocksMatch(w, s.locks, fronts, done)
  }

  predicate Stands(tx: Tx, clock: Time, t: TxId, f: Front, n: nat) {
    && tx.req == f.req && tx.now == clock && tx.token == t && f.taken >= 1 && tx.pc == TakeBucketLock(f.taken - 1)
    && forall l :: l in tx.ids ==> l < n
  }

  lemma ReadyNext(w: World, clock: Time, s: Sys, fronts: map<TxId, Front>, done: set<TxId>, n: nat, t: TxId)
    requires Driven(w, clock, s, fronts, done, n) && Disjoint(w, fronts) && t in fronts && t !in done && FrontOk(fronts[t])
    requires Servable(w, fronts[t].req, clock)
    ensures Ready(w, s, t, fronts[t].req, fronts[t].taken, n)
  {
    var f := fronts[t];
    assert f == Front(f.req, f.taken);
    hide HasHash, Servable, LockNames;
    assert forall k :: k in s.locks ==> s.locks[k] != t && !HasHash(w, f, k);
  }

  lemma DriveOne(w: World, clock: Time, s: Sys, fronts: map<TxId, Front>, done: set<TxId>, n: nat, t: TxId)
    requires Driven(w, clock, s, fronts, done, n) && Disjoint(w, fronts) && t in fronts && t !in done && FrontOk(fronts[t])
    ensures Driven(w, clock, Part(w, s, t, fronts[t].req, fronts[t].taken, n), fronts, done + {t}, n + fronts[t].taken)
  {
    hide HasHash, LockNames, LocksWith;
    var f := fronts[t];
    var s' := Part(w, s, t, f.req, f.taken, n);
    DriveLocks(w, s, fronts, done, n, t);
    forall u | u in done + {t} ensures Stands(s'.txs[u], clock, u, fronts[u], n + f.taken) {
      if u != t { assert Stands(s.txs[u], clock, u, fronts[u], n); }
    }
    hide Stands;
  }

  /** Whose the locks are. */
  ghost predicate LocksMatch(w: World, locks: map<int, TxId>, fronts: map<TxId, Front>, done: set<TxId>)
    requires done <= fronts.Keys
  {
    && (forall k :: k in locks ==> locks[k] in done && HasHash(w, fronts[locks[k]], k))
    && (forall t, k :: t in done && HasHash(w, fronts[t], k) ==> k in locks && locks[k] == t)
  }

  lemma DriveLocks(w: World, s: Sys, fronts: map<TxId, Front>, done: set<TxId>, n: nat, t: TxId)
    requires done <= fronts.Keys && LocksMatch(w, s.locks, fronts, done) && Disjoint(w, fronts) && t in fronts && t !in done
    requires FrontOk(fronts[t])
    ensures LocksMatch(w, Part(w, s, t, fronts[t].req, fronts[t].taken, n).locks, fronts, done + {t})
  {
    var f := fronts[t];
    LocksWithMeans(w, s.locks, t, f.req, f.taken);
    assert f == Front(f.req, f.taken);
    hide HasHash, LockNames, LocksWith;
    var locks := LocksWith(w, s.locks, t, f.req, f.taken);
    forall u, k | u in done + {t} && HasHash(w, fronts[u], k) ensures k in locks && locks[k] == u {
      assert u != t ==> !HasHash(w, f, k);
    }
  }

  lemma {:induction false} DriveAll(w: World, clock: Time, reqs: set<Request>, s: Sys, fronts: map<TxId, Front>, done: set<TxId>, n: nat)
    requires Reachable(w, clock, reqs, s) && Driven(w, clock, s, fronts, done, n)
    requires FrontsOk(reqs, fronts) && Disjoint(w, fronts) && forall r :: r in reqs ==> Servable(w, r, clock)
    ensures exists s', n' :: Reachable(w, clock, reqs, s') && Driven(w, clock, s', fronts, fronts.Keys, n')
    decreases |fronts.Keys - done|
  {
    hide *;
    var rest := fronts.Keys - done;
    if rest == {} {
      AllDriven(w, clock, s, fronts, done, n);
      assert Driven(w, clock, s, fronts, fronts.Keys, n);
    } else {
      var t :| t in rest;
      FrontAt(reqs, fronts, t);
      var f := fronts[t];
      ReadyNext(w, clock, s, fronts, done, n, t);
      DriveOne(w, clock, s, fronts, done, n, t);
      FrontBounds(f);
      ReachPart(w, clock, reqs, s, t, f.req, f.taken, f.taken, n);
      assert fronts.Keys - (done + {t}) == rest - {t};
      DriveAll(w, clock, reqs, Part(w, s, t, f.req, f.taken, n), fronts, done + {t}, n + f.taken);
    }
  }

  lemma FrontAt(reqs: set<Request>, fronts: map<TxId, Front>, t: TxId)
    requires FrontsOk(reqs, fronts) && t in fronts
    ensures FrontOk(fronts[t]) && fronts[t].req in reqs
  {
    hide FrontOk;
  }

  lemma FrontBounds(f: Front)
    requires FrontOk(f)
    ensures 1 <= f.taken < |LockNames(f.req)|
  {
    hide LockNames;
  }

  lemma AllDriven(w: World, clock: Time, s: Sys, fronts: map<TxId, Front>, done: set<TxId>, n: nat)
    requires Driven(w, clock, s, fronts, done, n) && fronts.Keys - done == {}
    ensures Driven(w, clock, s, fronts, fronts.Keys, n)
  {
    hide HasHash, Stands;
    assert done <= fronts.Keys;
    forall t | t in fronts.Keys ensures t in done { assert t !in fronts.Keys - done; }
    assert done == fronts.Keys;
  }

  lemma StandingWants(w: World, tx: Tx, clock: Time, t: TxId, f: Front, n: nat)
    requires Stands(tx, clock, t, f, n) && FrontOk(f)
    ensures Wanted(w, tx).Some? && w.lockHash(Wanted(w, tx).value) == WantedHash(w, f)
  {
    NamesOf(w, tx);
    hide LockNames, SpecsOf;
  }

  lemma DrivenCircle(w: World, clock: Time, reqs: set<Request>, s: Sys, fronts: map<TxId, Front>, n: nat, ts: seq<TxId>)
    requires Driven(w, clock, s, fronts, fronts.Keys, n) && Tangled(w, reqs, fronts, ts)
    ensures Circle(w, s, ts)
  {
    hide Driven, Link, FrontsOk, Disjoint, WaitsFor;
    forall i | 0 <= i < |ts| - 1 ensures WaitsFor(w, s, ts[i], ts[i + 1]) {
      LinkWaits(w, clock, s, fronts, n, ts[i], ts[i + 1]);
    }
  }

  lemma LinkWaits(w: World, clock: Time, s: Sys, fronts: map<TxId, Front>, n: nat, t: TxId, u: TxId)
    requires Driven(w, clock, s, fronts, fronts.Keys, n) && Link(w, fronts, t, u)
    ensures WaitsFor(w, s, t, u)
  {
    hide FrontOk, LockNames, Wanted, Stands;
    StandingWants(w, s.txs[t], clock, t, fronts[t], n);
  }

  lemma TangleDeadlocks(w: World, clock: Time, reqs: set<Request>, fronts: map<TxId, Front>, ts: seq<TxId>)
    requires Tangled(w, reqs, fronts, ts) && forall r :: r in reqs ==> Servable(w, r, clock)
    ensures exists actions :: BeginsOnly(actions, reqs) && Circle(w, After(w, Start(clock), actions), ts)
  {
    var start := Start(clock);
    assert After(w, start, []) == start && BeginsOnly([], reqs);
    assert Driven(w, clock, start, fronts, {}, 0);
    hide After, Start, Servable, Disjoint, HasHash;
    DriveAll(w, clock, reqs, start, fronts, {}, 0);
    var s, n :| Reachable(w, clock, reqs, s) && Driven(w, clock, s, fronts, fronts.Keys, n);
    hide Driven, Circle;
    DrivenCircle(w, clock, reqs, s, fronts, n, ts);
  }

  /** A run that begins only these requests can deadlock. */
  ghost predicate CanDeadlock(w: World, clock: Time, reqs: set<Request>) {
    exists actions, ts :: BeginsOnly(actions, reqs) && Circle(w, After(w, Start(clock), actions), ts)
  }

  /** Without any tangle among the requests begun, no run deadlocks, whatever else happens in it. */
  lemma UntangledNeverDeadlocks(w: World, clock: Time, actions: seq<Action>, reqs: set<Request>, ts: seq<TxId>)
    requires BeginsOnly(actions, reqs) && forall fronts, ts :: !Tangled(w, reqs, fronts, ts)
    ensures !Circle(w, After(w, Start(clock), actions), ts)
  {
    var s := After(w, Start(clock), actions);
    G.RunKeepsInvariant(w, Start(clock), actions) by { G.StartInvariant(w, clock); }
    AfterOwned(w, Start(clock), actions);
    AfterRequests(w, Start(clock), actions, reqs);
    hide LocksOwned, RequestsFrom, After, Tangled, Circle, TxsOk;
    if Circle(w, s, ts) { CircleTangles(w, s, reqs, ts); }
  }

  /** Some requests can deadlock exactly when their lock hashes can tangle. */
  lemma DeadlockIffTangled(w: World, clock: Time, reqs: set<Request>)
    requires forall r :: r in reqs ==> Servable(w, r, clock)
    ensures CanDeadlock(w, clock, reqs) <==> exists fronts, ts :: Tangled(w, reqs, fronts, ts)
  {
    hide After, Start, Servable, Tangled, Circle, BeginsOnly;
    if CanDeadlock(w, clock, reqs) {
      var actions, ts :| BeginsOnly(actions, reqs) && Circle(w, After(w, Start(clock), actions), ts);
      if forall fronts, us :: !Tangled(w, reqs, fronts, us) { UntangledNeverDeadlocks(w, clock, actions, reqs, ts); }
    }
    if exists fronts, ts :: Tangled(w, reqs, fronts, ts) {
      var fronts, ts :| Tangled(w, reqs, fronts, ts);
      TangleDeadlocks(w, clock, reqs, fronts, ts);
    }
  }

  // ---------------------------------------------------------------- one collision is enough

  /** Request `a` limits its app and its client address; `b` limits the same app, and its key collides with that address. */
  predicate Collide(w: World, a: Request, b: Request) {
    && a.app == b.app && a.binding.limits.perApp.Some? && a.binding.limits.perIp.Some? && b.binding.limits.perApp.Some?
    && var keyA, keyB := w.lockHash(KeyLock(ScopeOf(a))), w.lockHash(KeyLock(ScopeOf(b)));
       var app := w.lockHash(BucketLock(RateOp(AppWindow(a.app))));
       keyB == w.lockHash(BucketLock(RateOp(IpWindow(a.app, a.clientIp.GetOr(""))))) && keyA != keyB && app != keyB
  }

  /** The locks such requests ask for first. */
  lemma FirstLocks(req: Request)
    requires req.binding.limits.perApp.Some?
    ensures var names := LockNames(req);
            && |names| >= 2 && names[0] == KeyLock(ScopeOf(req)) && names[1] == BucketLock(RateOp(AppWindow(req.app)))
            && (req.binding.limits.perIp.Some? ==>
                  |names| >= 3 && names[2] == BucketLock(RateOp(IpWindow(req.app, req.clientIp.GetOr("")))))
  {
  }

  /** An idempotency key whose hash collides with a client-address bucket lets two accepts wait for each other. */
  lemma CollisionDeadlocks(w: World, a: Request, b: Request, clock: Time)
    requires Collide(w, a, b) && Servable(w, a, clock) && Servable(w, b, clock)
    ensures CanDeadlock(w, clock, {a, b})
  {
    FirstLocks(a);
    FirstLocks(b);
    var fronts := map[1 := Front(a, 2), 2 := Front(b, 1)];
    var ts: seq<TxId> := [1, 2, 1];
    hide LockNames, Servable, ScopeOf;
    assert HasHash(w, fronts[2], WantedHash(w, fronts[1])) by { assert w.lockHash(LockNames(b)[0]) == WantedHash(w, fronts[1]); }
    assert HasHash(w, fronts[1], WantedHash(w, fronts[2])) by { assert w.lockHash(LockNames(a)[1]) == WantedHash(w, fronts[2]); }
    assert forall k :: HasHash(w, fronts[2], k) ==> k == w.lockHash(LockNames(b)[0]);
    assert forall k :: HasHash(w, fronts[1], k) ==> k == w.lockHash(LockNames(a)[0]) || k == w.lockHash(LockNames(a)[1]);
    assert Link(w, fronts, ts[0], ts[1]) && Link(w, fronts, ts[1], ts[2]);
    assert Tangled(w, {a, b}, fronts, ts);
    DeadlockIffTangled(w, clock, {a, b});
  }

  /** For some hash function such a pair exists, so the order of classes alone does not exclude deadlock. */
  lemma CollisionsExist()
    ensures exists w: World, reqs :: CanDeadlock(w, 0, reqs)
  {
    var limits := Limits(Some(5), Some(5), None, None, None, None, None);
    var binding := Binding(1, 1, 1, false, false, limits, [], true, true);
    var a := Request(binding, 1, 1, 1, 1, [1], [], true, None, None, Some("a"), Some("10.0.0.1"));
    var b := a.(key := [2]);
    var hash := (n: LockName) =>
      if n == KeyLock(ScopeOf(b)) || n == BucketLock(RateOp(IpWindow(1, "10.0.0.1"))) then 0
      else if n == KeyLock(ScopeOf(a)) then 1 else 2;
    var w := World(Config(MINUTE, 100, 100, _ => 0), R.Fixed(_ => 1, (_, _) => false), _ => 5, hash);
    assert ScopeOf(a) != ScopeOf(b) by { assert ScopeOf(a).key != ScopeOf(b).key; }
    assert Collide(w, a, b);
    hide Collide, CanDeadlock;
    CollisionDeadlocks(w, a, b, 0);
  }
}
