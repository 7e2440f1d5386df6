/**
  Shared asynchronous connection pools (src/orcheo/postgres_pools.py): reference-counted
  entries changed by coroutines that can only be interrupted where they await. An acquire
  awaits its event loop's lock and, for a new pool, the opening of that pool; a release runs
  to the closing of the pool without a break.
 */
module PoolModel {
  type Loop = nat
  type PoolId = nat
  type CoroutineId = nat

  /** Pools are shared per class, database and row factory (`name`), and per event loop. */
  datatype Key = Key(name: string, loop: Loop)

  datatype Entry = Entry(pool: PoolId, references: nat)

  /** Where an acquire is paused: before its lock, or inside it while a new pool opens. */
  datatype Paused = AtLock(key: Key) | Opening(key: Key, pool: PoolId)

  /**
    `made` records the key each pool was created for; `held` names, for each pool, the
    acquires that returned it and were not yet released.
   */
  datatype State = State(
    entries: map<Key, Entry>,
    locks: map<Loop, CoroutineId>,
    paused: map<CoroutineId, Paused>,
    made: map<PoolId, Key>,
    held: map<PoolId, set<CoroutineId>>,
    closed: set<PoolId>)

  datatype Action =
    | Call(co: CoroutineId, key: Key)
    | Enter(co: CoroutineId, newPool: PoolId)
    | Opened(co: CoroutineId)
    | Fail(co: CoroutineId)
    | Release(pool: PoolId, holder: CoroutineId)

  function Start(): State { State(map[], map[], map[], map[], map[], {}) }

  function Held(s: State, pool: PoolId): set<CoroutineId> { if pool in s.held then s.held[pool] else {} }

  /** Is the pool in the dictionary, under the key it was made for? */
  predicate Mapped(s: State, pool: PoolId) {
    pool in s.made && s.made[pool] in s.entries && s.entries[s.made[pool]].pool == pool
  }

  predicate Unknown(s: State, pool: PoolId) { pool !in s.made && pool !in s.closed && Held(s, pool) == {} }

  /** The acquire returns: one more reference, one more holder. */
  function Returned(s: State, co: CoroutineId, key: Key, pool: PoolId, references: nat): State {
    s.(entries := s.entries[key := Entry(pool, references)], held := s.held[pool := Held(s, pool) + {co}])
  }

  function Leave(s: State, co: CoroutineId): State {
    s.(locks := map l | l in s.locks && s.locks[l] != co :: s.locks[l], paused := s.paused - {co})
  }

  /** Inside the lock, up to the next await: a pool in the dictionary is returned at once, a new one starts to open. */
  function EnterOne(s: State, co: CoroutineId, newPool: PoolId): State
    requires co in s.paused
  {
    var key := s.paused[co].key;
    if key.loop in s.locks then s
    else if key in s.entries then
      Returned(s.(paused := s.paused - {co}), co, key, s.entries[key].pool, s.entries[key].references + 1)
    else if !Unknown(s, newPool) then s
    else
      s.(locks := s.locks[key.loop := co], paused := s.paused[co := Opening(key, newPool)], made := s.made[newPool := key])
  }

  /** A pool with other users loses one reference; otherwise it leaves the dictionary, if it is there, and is closed. */
  function ReleaseOne(s: State, pool: PoolId, holder: CoroutineId): State {
    var s' := s.(held := s.held[pool := Held(s, pool) - {holder}]);
    if !Mapped(s, pool) then s'.(closed := s.closed + {pool})
    else
      var key := s.made[pool];
      if s.entries[key].references > 1
      then s'.(entries := s.entries[key := Entry(pool, s.entries[key].references - 1)])
      else s'.(entries := s.entries - {key}, closed := s.closed + {pool})
  }

  /** Each acquire has a name of its own. */
  predicate Holds(s: State, co: CoroutineId) { exists p :: p in s.held && co in s.held[p] }

  function Step(s: State, a: Action): State {
    match a
    case Call(co, key) => if co in s.paused || Holds(s, co) then s else s.(paused := s.paused[co := AtLock(key)])
    case Enter(co, newPool) => if co in s.paused && s.paused[co].AtLock? then EnterOne(s, co, newPool) else s
    case Opened(co) =>
      if co in s.paused && s.paused[co].Opening?
      then Leave(Returned(s, co, s.paused[co].key, s.paused[co].pool, 1), co) else s
    case Fail(co) => if co in s.paused then Leave(s, co) else s
    case Release(pool, holder) => ReleaseOne(s, pool, holder)
  }

  function After(s: State, actions: seq<Action>): State
    decreases |actions|
  {
    if actions == [] then s else After(Step(s, actions[0]), actions[1..])
  }

  // ---------------------------------------------------------------- the invariant

  /** An entry's count is the number of its pool's holders, and its pool is open. */
  predicate EntryOk(s: State, k: Key)
    requires k in s.entries
  {
    var e := s.entries[k];
    e.references > 0 && e.references == |Held(s, e.pool)| && e.pool in s.made && s.made[e.pool] == k && e.pool !in s.closed
  }

  /** A coroutine that opens a pool holds its loop's lock; nobody has the pool yet, and its key has no entry. */
  predicate OpeningOk(s: State, c: CoroutineId)
    requires c in s.paused
  {
    s.paused[c].Opening? ==>
      var o := s.paused[c];
      && o.key.loop in s.locks && s.locks[o.key.loop] == c
      && o.key !in s.entries
      && o.pool in s.made && s.made[o.pool] == o.key && o.pool !in s.closed && Held(s, o.pool) == {}
  }

  predicate LockOk(s: State, l: Loop)
    requires l in s.locks
  {
    s.locks[l] in s.paused && s.paused[s.locks[l]].Opening? && s.paused[s.locks[l]].key.loop == l
  }

  ghost predicate Invariant(s: State) {
    && (forall k :: k in s.entries ==> EntryOk(s, k))
    && (forall p :: p in s.held && s.held[p] != {} ==> Mapped(s, p))
    && (forall c :: c in s.paused ==> OpeningOk(s, c) && !Holds(s, c))
    && (forall l :: l in s.locks ==> LockOk(s, l))
  }

  predicate BeingOpened(s: State, pool: PoolId) {
    exists c :: c in s.paused && s.paused[c].Opening? && s.paused[c].pool == pool
  }

  /** Each holder releases its pool once; other pools may be closed if they are neither shared nor about to be. */
  predicate Paired(s: State, a: Action) {
    a.Release? ==> a.holder in Held(s, a.pool) || (!Mapped(s, a.pool) && !BeingOpened(s, a.pool))
  }

  lemma NewHolder(s: State, co: CoroutineId, pool: PoolId)
    requires !Holds(s, co)
    ensures |Held(s, pool) + {co}| == |Held(s, pool)| + 1
  {
  }

  lemma EnterKeeps(s: State, co: CoroutineId, newPool: PoolId)
    requires Invariant(s) && co in s.paused && s.paused[co].AtLock?
    ensures Invariant(EnterOne(s, co, newPool))
  {
    var s' := EnterOne(s, co, newPool);
    EnterKeepsEntries(s, co, newPool);
    EnterKeepsOpenings(s, co, newPool);
    hide EntryOk, OpeningOk, Mapped, Holds;
    forall l | l in s'.locks ensures LockOk(s', l) {
      if l in s.locks { assert LockOk(s, l); }
    }
  }

  lemma EnterKeepsEntries(s: State, co: CoroutineId, newPool: PoolId)
    requires Invariant(s) && co in s.paused && s.paused[co].AtLock?
    ensures var s' := EnterOne(s, co, newPool);
            && (forall k :: k in s'.entries ==> EntryOk(s', k))
            && (forall p :: p in s'.held && s'.held[p] != {} ==> Mapped(s', p))
  {
    var key := s.paused[co].key;
    var s' := EnterOne(s, co, newPool);
    if key in s.entries {
      assert EntryOk(s, key);
      NewHolder(s, co, s.entries[key].pool);
    }
    hide OpeningOk, LockOk, Holds;
    forall k | k in s'.entries ensures EntryOk(s', k) { assert EntryOk(s, k); }
  }

  lemma EnterKeepsOpenings(s: State, co: CoroutineId, newPool: PoolId)
    requires Invariant(s) && co in s.paused && s.paused[co].AtLock?
    ensures var s' := EnterOne(s, co, newPool); forall c :: c in s'.paused ==> OpeningOk(s', c) && !Holds(s', c)
  {
    var s' := EnterOne(s, co, newPool);
    hide LockOk;
    forall c | c in s'.paused ensures OpeningOk(s', c) && !Holds(s', c) {
      assert OpeningOk(s, c) && !Holds(s, c);
      if s.paused[co].key in s.entries { assert EntryOk(s, s.paused[co].key); }
    }
  }

  /** Nobody can have stored the key while its lock was held, so storing the new pool replaces nothing. */
  lemma OpenedKeeps(s: State, co: CoroutineId)
    requires Invariant(s) && co in s.paused && s.paused[co].Opening?
    ensures s.paused[co].key !in s.entries
    ensures Invariant(Step(s, Opened(co)))
  {
    var s' := Step(s, Opened(co));
    assert OpeningOk(s, co);
    NewHolder(s, co, s.paused[co].pool);
    forall k | k in s'.entries ensures EntryOk(s', k) {
      if k in s.entries { assert EntryOk(s, k); }
    }
    forall c | c in s'.paused ensures OpeningOk(s', c) && !Holds(s', c) { assert OpeningOk(s, c) && !Holds(s, c); }
    forall l | l in s'.locks ensures LockOk(s', l) { assert LockOk(s, l); }
  }

  lemma FailKeeps(s: State, co: CoroutineId)
    requires Invariant(s) && co in s.paused
    ensures Invariant(Leave(s, co))
  {
    var s' := Leave(s, co);
    forall k | k in s'.entries ensures EntryOk(s', k) { assert EntryOk(s, k); }
    forall c | c in s'.paused ensures OpeningOk(s', c) && !Holds(s', c) { assert OpeningOk(s, c) && !Holds(s, c); }
    forall l | l in s'.locks ensures LockOk(s', l) { assert LockOk(s, l); }
  }

  lemma ReleaseKeepsEntries(s: State, pool: PoolId, holder: CoroutineId)
    requires Invariant(s) && Paired(s, Release(pool, holder))
    ensures var s' := ReleaseOne(s, pool, holder);
            && (forall k :: k in s'.entries ==> EntryOk(s', k))
            && (forall p :: p in s'.held && s'.held[p] != {} ==> Mapped(s', p))
  {
    hide *;
    ReleaseKeepsCounts(s, pool, holder);
    ReleaseKeepsMapped(s, pool, holder);
  }

  lemma ReleaseKeepsMapped(s: State, pool: PoolId, holder: CoroutineId)
    requires Invariant(s) && Paired(s, Release(pool, holder))
    ensures var s' := ReleaseOne(s, pool, holder); forall p :: p in s'.held && s'.held[p] != {} ==> Mapped(s', p)
  {
    var s' := ReleaseOne(s, pool, holder);
    hide OpeningOk, LockOk, BeingOpened;
    if Mapped(s, pool) {
      assert EntryOk(s, s.made[pool]);
      assert holder in Held(s, pool) && |Held(s, pool) - {holder}| == |Held(s, pool)| - 1;
    }
    forall p | p in s'.held && s'.held[p] != {} ensures Mapped(s', p) {
      assert p in s.held && s.held[p] != {} && Mapped(s, p);
    }
  }

  lemma ReleaseKeepsCounts(s: State, pool: PoolId, holder: CoroutineId)
    requires Invariant(s) && Paired(s, Release(pool, holder))
    ensures var s' := ReleaseOne(s, pool, holder); forall k :: k in s'.entries ==> EntryOk(s', k)
  {
    var s' := ReleaseOne(s, pool, holder);
    hide OpeningOk, LockOk, BeingOpened;
    if Mapped(s, pool) {
      assert EntryOk(s, s.made[pool]);
      assert holder in Held(s, pool) && |Held(s, pool) - {holder}| == |Held(s, pool)| - 1;
    }
    forall k | k in s'.entries ensures EntryOk(s', k) { assert EntryOk(s, k); }
  }

  lemma ReleaseKeepsOpenings(s: State, pool: PoolId, holder: CoroutineId)
    requires Invariant(s) && Paired(s, Release(pool, holder))
    ensures var s' := ReleaseOne(s, pool, holder);
            && (forall c :: c in s'.paused ==> OpeningOk(s', c) && !Holds(s', c))
            && (forall l :: l in s'.locks ==> LockOk(s', l))
  {
    var s' := ReleaseOne(s, pool, holder);
    if Held(s, pool) != {} { assert Mapped(s, pool); }
    hide EntryOk;
    forall c | c in s'.paused ensures OpeningOk(s', c) && !Holds(s', c) { assert OpeningOk(s, c) && !Holds(s, c); }
    forall l | l in s'.locks ensures LockOk(s', l) { assert LockOk(s, l); }
  }

  /** A paired release keeps the counts; the last one closes the pool. */
  lemma ReleaseKeeps(s: State, pool: PoolId, holder: CoroutineId)
    requires Invariant(s) && Paired(s, Release(pool, holder))
    ensures Invariant(ReleaseOne(s, pool, holder))
  {
    ReleaseKeepsEntries(s, pool, holder);
    ReleaseKeepsOpenings(s, pool, holder);
    hide EntryOk, OpeningOk, LockOk, Mapped, Holds, ReleaseOne;
  }

  /** Any other release spoils the counts: it takes a reference from somebody, or closes a pool that is about to be used. */
  lemma UnpairedBreaks(s: State, pool: PoolId, holder: CoroutineId)
    requires Invariant(s) && !Paired(s, Release(pool, holder))
    ensures !Invariant(ReleaseOne(s, pool, holder))
  {
    var s' := ReleaseOne(s, pool, holder);
    assert Held(s', pool) == Held(s, pool);
    if Mapped(s, pool) {
      var key := s.made[pool];
      assert EntryOk(s, key);
      if s.entries[key].references > 1 {
        assert s'.entries[key].references < |Held(s', pool)|;
        assert !EntryOk(s', key);
      } else {
        assert pool in s'.held && s'.held[pool] != {} && !Mapped(s', pool);
      }
    } else {
      var c :| c in s.paused && s.paused[c].Opening? && s.paused[c].pool == pool;
      assert c in s'.paused && pool in s'.closed;
      assert !OpeningOk(s', c);
    }
  }

  lemma CallKeeps(s: State, co: CoroutineId, key: Key)
    requires Invariant(s)
    ensures Invariant(Step(s, Call(co, key)))
  {
    var s' := Step(s, Call(co, key));
    forall k | k in s'.entries ensures EntryOk(s', k) { assert EntryOk(s, k); }
    forall c | c in s'.paused ensures OpeningOk(s', c) && !Holds(s', c) {
      if c in s.paused { assert OpeningOk(s, c) && !Holds(s, c); }
    }
    forall l | l in s'.locks ensures LockOk(s', l) { assert LockOk(s, l); }
  }

  /** A step keeps every count right exactly when, if it is a release, it is a paired one. */
  lemma StepKeeps(s: State, a: Action)
    requires Invariant(s)
    ensures Invariant(Step(s, a)) <==> Paired(s, a)
  {
    hide Invariant, ReleaseOne, EnterOne;
    match a
    case Call(co, key) => CallKeeps(s, co, key);
    case Enter(co, newPool) => if co in s.paused && s.paused[co].AtLock? { EnterKeeps(s, co, newPool); }
    case Opened(co) => if co in s.paused && s.paused[co].Opening? { OpenedKeeps(s, co); }
    case Fail(co) => if co in s.paused { FailKeeps(s, co); }
    case Release(pool, holder) => if Paired(s, a) { ReleaseKeeps(s, pool, holder); } else { UnpairedBreaks(s, pool, holder); }
  }

  ghost predicate PairedRun(s: State, actions: seq<Action>)
    decreases |actions|
  {
    actions != [] ==> Paired(s, actions[0]) && PairedRun(Step(s, actions[0]), actions[1..])
  }

  lemma {:induction false} RunKeeps(s: State, actions: seq<Action>)
    requires Invariant(s) && PairedRun(s, actions)
    ensures Invariant(After(s, actions))
    decreases |actions|
  {
    hide Invariant, Step, Paired;
    if actions != [] {
      StepKeeps(s, actions[0]);
      RunKeeps(Step(s, actions[0]), actions[1..]);
    }
  }

  /** In any interleaving of paired acquires and releases, an entry's count is exactly its pool's number of holders. */
  lemma CountsAreHolders(actions: seq<Action>, key: Key)
    requires PairedRun(Start(), actions) && key in After(Start(), actions).entries
    ensures var s := After(Start(), actions);
            var e := s.entries[key]; e.references == |Held(s, e.pool)| && e.references > 0 && e.pool !in s.closed
  {
    RunKeeps(Start(), actions);
    assert EntryOk(After(Start(), actions), key);
  }

  /** A pool somebody holds is the one pool mapped for its key, and open: it closes only after its last holder released it. */
  lemma HeldPoolsAreOpen(actions: seq<Action>, pool: PoolId)
    requires PairedRun(Start(), actions) && Held(After(Start(), actions), pool) != {}
    ensures var s := After(Start(), actions); Mapped(s, pool) && pool !in s.closed
  {
    RunKeeps(Start(), actions);
    var s := After(Start(), actions);
    hide After;
    assert Mapped(s, pool);
    assert EntryOk(s, s.made[pool]);
  }

  /** Whatever pool an acquire is about to return is open, and storing a newly opened one never replaces another. */
  lemma AcquireReturnsOpenPool(actions: seq<Action>, co: CoroutineId)
    requires PairedRun(Start(), actions) && co in After(Start(), actions).paused
    ensures var s := After(Start(), actions);
            var key := s.paused[co].key;
            && (s.paused[co].Opening? ==> s.paused[co].pool !in s.closed && key !in s.entries)
            && (s.paused[co].AtLock? && key in s.entries ==> s.entries[key].pool !in s.closed)
  {
    RunKeeps(Start(), actions);
    var s := After(Start(), actions);
    hide After;
    assert OpeningOk(s, co);
    if s.paused[co].key in s.entries { assert EntryOk(s, s.paused[co].key); }
  }

  /** A closed pool is never handed out again. */
  lemma {:induction false} ClosedForever(s: State, actions: seq<Action>, pool: PoolId)
    requires Invariant(s) && PairedRun(s, actions) && pool in s.closed
    ensures pool in After(s, actions).closed && Held(After(s, actions), pool) == {}
    decreases |actions|
  {
    if actions == [] {
      ClosedNotHeld(s, pool);
    } else {
      StepKeeps(s, actions[0]);
      hide Invariant, Paired;
      ClosedForever(Step(s, actions[0]), actions[1..], pool);
    }
  }

  lemma ClosedNotHeld(s: State, pool: PoolId)
    requires Invariant(s)
    ensures Mapped(s, pool) ==> pool !in s.closed
    ensures Held(s, pool) != {} ==> Mapped(s, pool)
  {
    if Mapped(s, pool) { assert EntryOk(s, s.made[pool]); }
  }
}

/** The module's dictionary and the stretches of code between two awaits. */
module AsyncPools {
  import opened Common
  import opened PoolModel

  class SharedPools {
    var entries: map<Key, Entry>
    var closed: set<PoolId>

    constructor ()
      ensures entries == map[] && closed == {}
    {
      entries, closed := map[], {};
    }

    /** Inside the lock: return the shared pool, or `None` when a new one has to be opened. */
    method Share(key: Key) returns (pool: Option<PoolId>)
      modifies this`entries
      ensures pool.Some? <==> key in old(entries)
      ensures pool.None? ==> entries == old(entries)
      ensures pool.Some? ==>
                && pool.value == old(entries)[key].pool
                && entries == old(entries)[key := Entry(pool.value, old(entries)[key].references + 1)]
    {
      if key !in entries { return None; }
      var entry := entries[key];
      entries := entries[key := entry.(references := entry.references + 1)];
      pool := Some(entry.pool);
    }

    /** After a new pool opened: store it with no references, then count the caller. */
    method Store(key: Key, pool: PoolId)
      modifies this`entries
      ensures entries == old(entries)[key := Entry(pool, 1)]
    {
      entries := entries[key := Entry(pool, 0)];
      entries := entries[key := entries[key].(references := entries[key].references + 1)];
    }

    /** The release loop: search the entries for the pool, give back one reference, close on the last. */
    method Release(pool: PoolId, holder: CoroutineId, ghost s: State)
      requires Invariant(s) && s.entries == entries && s.closed == closed
      modifies this
      ensures entries == ReleaseOne(s, pool, holder).entries && closed == ReleaseOne(s, pool, holder).closed
    {
      var todo := entries.Keys;
      while todo != {}
        invariant todo <= entries.Keys
        invariant entries == old(entries) && closed == old(closed)
        invariant forall k :: k in entries && k !in todo ==> entries[k].pool != pool
        decreases todo
      {
        var k :| k in todo;
        todo := todo - {k};
        if entries[k].pool == pool {
          assert EntryOk(s, k);
          if entries[k].references > 1 {
            entries := entries[k := entries[k].(references := entries[k].references - 1)];
            return;
          }
          entries := entries - {k};
          closed := closed + {pool};
          return;
        }
      }
      assert !Mapped(s, pool);
      closed := closed + {pool};
    }
  }
}
