/**
  The durable runtime refines the reference runtime. Two related states stay related, and
  answer alike, through every run of operations at nondecreasing times. Where the two
  implementations part ways, the exact condition is stated.
 */
module RuntimeRefinement {
  import opened Common
  import opened RuntimeModel
  import Ref = ReferenceModel
  import Db = DurableModel

  type RefState = Ref.RefState
  type DbState = Db.DbState

  /** What is fixed while the system runs: the workspace of each app, and which bindings limit concurrency. */
  datatype Fixed = Fixed(workspaceOf: AppId -> WorkspaceId, limited: (AppId, BindingId) -> bool)

  // ---------------------------------------------------------------- counting events

  function CountAfter(events: seq<Time>, t: Time): nat {
    if events == [] then 0 else (if events[0] > t then 1 else 0) + CountAfter(events[1..], t)
  }

  predicate Sorted(events: seq<Time>, now: Time) {
    && (forall i, j :: 0 <= i < j < |events| ==> events[i] <= events[j])
    && (forall i :: 0 <= i < |events| ==> events[i] <= now)
  }

  /** In a sorted deque the events that survive trimming are those after the cutoff. */
  lemma {:induction false} TrimCounts(events: seq<Time>, cutoff: Time, now: Time)
    requires Sorted(events, now)
    ensures var kept := Ref.Trim(events, cutoff);
            && Sorted(kept, now) && |kept| == CountAfter(events, cutoff)
            && forall t :: t >= cutoff ==> CountAfter(kept, t) == CountAfter(events, t)
  {
    if events != [] && events[0] <= cutoff {
      TrimCounts(events[1..], cutoff, now);
    } else {
      AllCounted(events, cutoff);
    }
  }

  lemma {:induction false} AllCounted(events: seq<Time>, cutoff: Time)
    requires forall i :: 0 <= i < |events| ==> events[i] > cutoff
    ensures CountAfter(events, cutoff) == |events|
  {
    if events != [] { AllCounted(events[1..], cutoff); }
  }

  lemma {:induction false} CountAppend(events: seq<Time>, x: Time, t: Time)
    ensures CountAfter(events + [x], t) == CountAfter(events, t) + if x > t then 1 else 0
  {
    if events == [] {
      assert events + [x] == [x];
    } else {
      assert (events + [x])[1..] == events[1..] + [x];
      CountAppend(events[1..], x, t);
    }
  }

  // ---------------------------------------------------------------- the relation

  /** Runs whose handle has not expired are the same on both sides. */
  ghost predicate SameLiveRuns(s: RefState, d: DbState, now: Time) {
    && (forall h :: h in s.runs ==> h in d.runs)
    && (forall h :: h in s.runs && s.runs[h].expiresAt > now ==> d.runs[h].run == s.runs[h])
    && (forall h :: h in d.runs && d.runs[h].run.expiresAt > now ==> h in s.runs && s.runs[h] == d.runs[h].run)
  }

  /** So are the idempotency entries that have not expired. */
  ghost predicate SameLiveKeys(s: RefState, d: DbState, now: Time) {
    && (forall k :: k in s.idem && s.idem[k].expiresAt > now ==> k in d.idem && d.idem[k] == s.idem[k])
    && (forall k :: k in d.idem && d.idem[k].expiresAt > now ==> k in s.idem && s.idem[k] == d.idem[k])
  }

  /** At any instant from `now` on, a window's events and its live leases are equally many. */
  ghost predicate SameCount(fx: Fixed, s: RefState, d: DbState, k: WindowKey, n: Time) {
    CountAfter(Ref.Events(s.windows, k), n - MINUTE) ==
    |Db.LiveLeases(d.leases, fx.workspaceOf(k.app), Db.RateOp(k), n)|
  }

  /** The reference's idempotency entries point at runs with the same expiry; its deques are sorted. */
  ghost predicate RefOk(s: RefState, now: Time) {
    && (forall k :: k in s.idem ==>
          s.idem[k].handle in s.runs && s.runs[s.idem[k].handle].expiresAt == s.idem[k].expiresAt)
    && (forall w :: w in s.windows ==> Sorted(s.windows[w], now))
  }

  /** A concurrency lease is live exactly while its run is unsettled and not timed out. */
  ghost predicate RowOk(fx: Fixed, leases: map<LeaseId, Db.Lease>, row: Db.RunRow, now: Time) {
    var run := row.run;
    && run.timeoutAt <= run.expiresAt
    && run.workspace == fx.workspaceOf(run.app)
    && (run.Unsettled() ==> run.output.None? && run.error.None?)
    && (run.status == Completed ==> run.error.None?)
    && if !fx.limited(run.app, run.binding) then row.leases == []
       else
         && |row.leases| == 1
         && row.leases[0] in leases
         && var lease := leases[row.leases[0]];
            && lease.workspace == run.workspace
            && lease.operation == Db.ConcurrencyOp(run.app, run.binding)
            && lease.expiresAt == run.timeoutAt
            && (run.Unsettled() && run.timeoutAt > now ==> lease.releasedAt.None?)
            && (!run.Unsettled() ==> lease.releasedAt.Some?)
  }

  ghost predicate DbOk(fx: Fixed, d: DbState, now: Time) {
    && (forall h :: h in d.runs ==> RowOk(fx, d.leases, d.runs[h], now))
    && (forall l :: l in d.leases && d.leases[l].operation.ConcurrencyOp? ==> Owned(d, l))
    && (forall h1, h2, l :: h1 in d.runs && h2 in d.runs && l in d.runs[h1].leases && l in d.runs[h2].leases ==> h1 == h2)
    && (forall k :: k in d.idem ==>
          d.idem[k].handle in d.runs && d.runs[d.idem[k].handle].run.expiresAt == d.idem[k].expiresAt)
  }

  ghost predicate Owned(d: DbState, l: LeaseId) {
    exists h :: h in d.runs && l in d.runs[h].leases
  }

  ghost predicate Related(fx: Fixed, s: RefState, d: DbState, now: Time) {
    && RefOk(s, now)
    && DbOk(fx, d, now)
    && SameLiveRuns(s, d, now)
    && SameLiveKeys(s, d, now)
    && forall k, n :: n >= now ==> SameCount(fx, s, d, k, n)
  }

  // ---------------------------------------------------------------- time, pruning, purging

  /** The relation survives the passing of time. */
  lemma RelatedLater(fx: Fixed, s: RefState, d: DbState, now: Time, later: Time)
    requires Related(fx, s, d, now) && now <= later
    ensures Related(fx, s, d, later)
  {
  }

  lemma PruneKeeps(fx: Fixed, s: RefState, d: DbState, now: Time)
    requires Related(fx, s, d, now)
    ensures Related(fx, Ref.Prune(s, now), d, now)
  {
    var p := Ref.Prune(s, now);
    forall k, n | n >= now ensures SameCount(fx, p, d, k, n) {
      assert SameCount(fx, s, d, k, n);
      if k in s.windows { TrimCounts(s.windows[k], now - MINUTE, now); }
    }
    forall w | w in p.windows ensures Sorted(p.windows[w], now) {
      TrimCounts(s.windows[w], now - MINUTE, now);
    }
  }

  /** Deleting expired idempotency rows is invisible. */
  lemma PurgeKeeps(fx: Fixed, s: RefState, d: DbState, now: Time)
    requires Related(fx, s, d, now)
    ensures Related(fx, s, d.(idem := Db.PurgeIdempotency(d.idem, now)), now)
  {
    var d' := d.(idem := Db.PurgeIdempotency(d.idem, now));
    forall k, n | n >= now ensures SameCount(fx, s, d', k, n) {
      assert SameCount(fx, s, d, k, n);
    }
    assert forall l :: Owned(d, l) ==> Owned(d', l);
  }

  // ---------------------------------------------------------------- rate windows

  predicate WindowHasRoom(windows: map<WindowKey, seq<Time>>, w: Window, cutoff: Time) {
    CountAfter(Ref.Events(windows, w.key), cutoff) < w.limit
  }

  ghost predicate AllSorted(windows: map<WindowKey, seq<Time>>, now: Time) {
    forall w :: w in windows ==> Sorted(windows[w], now)
  }

  ghost predicate DistinctKeys(ws: seq<Window>) {
    forall i, j :: 0 <= i < j < |ws| ==> ws[i].key != ws[j].key
  }

  /** Checking windows in turn passes exactly when each has room, and forgets no recent event. */
  lemma {:induction false} CheckWindowsMeaning(windows: map<WindowKey, seq<Time>>, ws: seq<Window>, cutoff: Time, now: Time)
    requires AllSorted(windows, now) && DistinctKeys(ws)
    ensures var (windows', ok) := Ref.CheckWindows(windows, ws, cutoff);
            && AllSorted(windows', now)
            && (ok <==> forall i :: 0 <= i < |ws| ==> WindowHasRoom(windows, ws[i], cutoff))
            && (forall k, t :: t >= cutoff ==>
                  CountAfter(Ref.Events(windows', k), t) == CountAfter(Ref.Events(windows, k), t))
    decreases |ws|
  {
    if ws != [] {
      var w := ws[0];
      var events := Ref.Events(windows, w.key);
      TrimCounts(events, cutoff, now);
      var next := windows[w.key := Ref.Trim(events, cutoff)];
      forall i | 1 <= i < |ws|
        ensures WindowHasRoom(next, ws[i], cutoff) == WindowHasRoom(windows, ws[i], cutoff)
      {
        assert ws[i].key != w.key;
      }
      CheckWindowsMeaning(next, ws[1..], cutoff, now);
      assert forall i :: 1 <= i < |ws| ==> ws[i] == ws[1..][i - 1];
    }
  }

  predicate HasKey(ws: seq<Window>, k: WindowKey) {
    exists i :: 0 <= i < |ws| && ws[i].key == k
  }

  /** Recording appends `now` to each named deque and nothing else. */
  lemma {:induction false} RecordEventsMeaning(windows: map<WindowKey, seq<Time>>, ws: seq<Window>, now: Time)
    requires AllSorted(windows, now) && DistinctKeys(ws)
    ensures var windows' := Ref.RecordEvents(windows, ws, now);
            && AllSorted(windows', now)
            && forall k :: Ref.Events(windows', k) ==
                 Ref.Events(windows, k) + (if HasKey(ws, k) then [now] else [])
    decreases |ws|
  {
    if ws != [] {
      var next := windows[ws[0].key := Ref.Events(windows, ws[0].key) + [now]];
      RecordEventsMeaning(next, ws[1..], now);
      forall k ensures HasKey(ws, k) <==> ws[0].key == k || HasKey(ws[1..], k) {
        if HasKey(ws, k) && ws[0].key != k {
          var i :| 0 <= i < |ws| && ws[i].key == k;
          assert ws[1..][i - 1].key == k;
        }
      }
      assert !HasKey(ws[1..], ws[0].key);
    }
  }

  // ---------------------------------------------------------------- reserving leases

  ghost predicate FreshIds(leases: map<LeaseId, Db.Lease>, ids: seq<LeaseId>) {
    && (forall i :: 0 <= i < |ids| ==> ids[i] !in leases)
    && (forall i, j :: 0 <= i < j < |ids| ==> ids[i] != ids[j])
  }

  ghost predicate DistinctOps(specs: seq<Db.Spec>) {
    forall i, j :: 0 <= i < j < |specs| ==> specs[i].operation != specs[j].operation
  }

  predicate SpecHasRoom(leases: map<LeaseId, Db.Lease>, ws: WorkspaceId, spec: Db.Spec, now: Time) {
    |Db.LiveLeases(leases, ws, spec.operation, now)| < spec.limit
  }

  predicate Mentions(specs: seq<Db.Spec>, op: Db.Operation) {
    exists i :: 0 <= i < |specs| && specs[i].operation == op
  }

  /** Old leases stay, except that expired ones of a mentioned bucket may be marked released. */
  ghost predicate Aged(leases: map<LeaseId, Db.Lease>, leases': map<LeaseId, Db.Lease>, specs: seq<Db.Spec>, now: Time) {
    forall l :: l in leases ==> l in leases' && AgedLease(leases[l], leases'[l], specs, now)
  }

  predicate AgedLease(lease: Db.Lease, lease': Db.Lease, specs: seq<Db.Spec>, now: Time) {
    || lease' == lease
    || (Mentions(specs, lease.operation) && lease.releasedAt.None? && lease.expiresAt <= now &&
        lease' == lease.(releasedAt := Some(now)))
  }

  function ConcurrencyIds(specs: seq<Db.Spec>, ids: seq<LeaseId>): seq<LeaseId>
    requires |ids| >= |specs|
  {
    if specs == [] then []
    else (if specs[0].operation.ConcurrencyOp? then [ids[0]] else []) + ConcurrencyIds(specs[1..], ids[1..])
  }

  /** A new lease with its spec's bucket and expiry, for each spec in turn. */
  ghost predicate Inserted(leases': map<LeaseId, Db.Lease>, ws: WorkspaceId, specs: seq<Db.Spec>, ids: seq<LeaseId>)
    requires |ids| >= |specs|
  {
    forall i :: 0 <= i < |specs| ==>
      ids[i] in leases' && leases'[ids[i]] == Db.Lease(ws, specs[i].operation, specs[i].expiresAt, None)
  }

  lemma OtherOpUnmoved(leases: map<LeaseId, Db.Lease>, ws: WorkspaceId, spec: Db.Spec, id: LeaseId,
                       other: Db.Operation, now: Time)
    requires id !in leases && other != spec.operation
    ensures var taken := Db.ReleaseExpired(leases, spec.operation, now)[id := Db.Lease(ws, spec.operation, spec.expiresAt, None)];
            Db.LiveLeases(taken, ws, other, now) == Db.LiveLeases(leases, ws, other, now)
  {
  }

  /** The bucket that refuses is the first one without room. */
  ghost predicate FirstFull(leases: map<LeaseId, Db.Lease>, ws: WorkspaceId, specs: seq<Db.Spec>, now: Time, i: nat) {
    && i < |specs|
    && !SpecHasRoom(leases, ws, specs[i], now)
    && forall j :: 0 <= j < i ==> SpecHasRoom(leases, ws, specs[j], now)
  }

  ghost predicate AllHaveRoom(leases: map<LeaseId, Db.Lease>, ws: WorkspaceId, specs: seq<Db.Spec>, now: Time) {
    forall i :: 0 <= i < |specs| ==> SpecHasRoom(leases, ws, specs[i], now)
  }

  /** Releasing, counting and inserting in turn refuses exactly when some bucket was full at the start. */
  lemma {:induction false} ReserveDecides(leases: map<LeaseId, Db.Lease>, ws: WorkspaceId, specs: seq<Db.Spec>, now: Time,
                                          ids: seq<LeaseId>, acc: seq<LeaseId>)
    requires |ids| >= |specs| && FreshIds(leases, ids) && DistinctOps(specs)
    ensures match Db.Reserve(leases, ws, specs, now, ids, acc)
            case Reserved(_, _) => AllHaveRoom(leases, ws, specs, now)
            case Exhausted(reason) =>
              exists i: nat :: FirstFull(leases, ws, specs, now, i) && reason == Db.ReasonFor(specs[i].operation)
    decreases |specs|
  {
    if specs != [] {
      var op := specs[0].operation;
      var freed := Db.ReleaseExpired(leases, op, now);
      assert Db.LiveLeases(freed, ws, op, now) == Db.LiveLeases(leases, ws, op, now);
      if SpecHasRoom(leases, ws, specs[0], now) {
        var taken := freed[ids[0] := Db.Lease(ws, op, specs[0].expiresAt, None)];
        var rest := specs[1..];
        forall i | 0 <= i < |rest|
          ensures specs[i + 1] == rest[i]
          ensures SpecHasRoom(taken, ws, rest[i], now) == SpecHasRoom(leases, ws, rest[i], now)
        {
          OtherOpUnmoved(leases, ws, specs[0], ids[0], rest[i].operation, now);
        }
        var acc' := if op.ConcurrencyOp? then acc + [ids[0]] else acc;
        ReserveDecides(taken, ws, specs[1..], now, ids[1..], acc');
        if Db.Reserve(taken, ws, specs[1..], now, ids[1..], acc').Exhausted? {
          var i: nat :| FirstFull(taken, ws, specs[1..], now, i) &&
                   Db.Reserve(taken, ws, specs[1..], now, ids[1..], acc').reason == Db.ReasonFor(specs[1..][i].operation);
          forall j | 0 <= j < i + 1 ensures SpecHasRoom(leases, ws, specs[j], now) {
            if j > 0 { assert specs[j] == rest[j - 1]; }
          }
          assert FirstFull(leases, ws, specs, now, i + 1);
        }
      } else {
        assert FirstFull(leases, ws, specs, now, 0);
      }
    }
  }

  /** A reservation that succeeds ages the old leases and adds one lease per spec. */
  lemma {:induction false} ReserveAdds(leases: map<LeaseId, Db.Lease>, ws: WorkspaceId, specs: seq<Db.Spec>, now: Time,
                                       ids: seq<LeaseId>, acc: seq<LeaseId>)
    requires |ids| >= |specs| && FreshIds(leases, ids) && DistinctOps(specs)
    requires Db.Reserve(leases, ws, specs, now, ids, acc).Reserved?
    ensures var Reserved(leases', concurrency) := Db.Reserve(leases, ws, specs, now, ids, acc);
            && Aged(leases, leases', specs, now)
            && (forall l :: l in leases' ==> l in leases || l in ids[..|specs|])
            && Inserted(leases', ws, specs, ids)
            && concurrency == acc + ConcurrencyIds(specs, ids)
    decreases |specs|
  {
    if specs != [] {
      var op := specs[0].operation;
      var taken := Db.ReleaseExpired(leases, op, now)[ids[0] := Db.Lease(ws, op, specs[0].expiresAt, None)];
      var acc' := if op.ConcurrencyOp? then acc + [ids[0]] else acc;
      var tail := Db.Reserve(taken, ws, specs[1..], now, ids[1..], acc');
      assert Db.Reserve(leases, ws, specs, now, ids, acc) == tail;
      assert acc' + ConcurrencyIds(specs[1..], ids[1..]) == acc + ConcurrencyIds(specs, ids);
      StillFresh(leases, specs, ids, taken);
      hide Aged, Inserted, Db.Reserve, Db.ReleaseExpired, ConcurrencyIds, FreshIds, DistinctOps;
      ReserveAdds(taken, ws, specs[1..], now, ids[1..], acc');
      ReserveStep(leases, ws, specs, now, ids, taken, tail.leases);
    }
  }

  lemma StillFresh(leases: map<LeaseId, Db.Lease>, specs: seq<Db.Spec>, ids: seq<LeaseId>, taken: map<LeaseId, Db.Lease>)
    requires specs != [] && |ids| >= |specs| && FreshIds(leases, ids) && DistinctOps(specs)
    requires taken.Keys == leases.Keys + {ids[0]}
    ensures FreshIds(taken, ids[1..]) && DistinctOps(specs[1..])
  {
  }

  /** The inductive step of `ReserveAdds`, given what it says of the tail. */
  lemma ReserveStep(leases: map<LeaseId, Db.Lease>, ws: WorkspaceId, specs: seq<Db.Spec>, now: Time,
                    ids: seq<LeaseId>, taken: map<LeaseId, Db.Lease>, leases': map<LeaseId, Db.Lease>)
    requires specs != [] && |ids| >= |specs| && FreshIds(leases, ids) && DistinctOps(specs)
    requires taken == Db.ReleaseExpired(leases, specs[0].operation, now)
                        [ids[0] := Db.Lease(ws, specs[0].operation, specs[0].expiresAt, None)]
    requires Aged(taken, leases', specs[1..], now) && Inserted(leases', ws, specs[1..], ids[1..])
    requires forall l :: l in leases' ==> l in taken || l in ids[1..][..|specs| - 1]
    ensures Aged(leases, leases', specs, now) && Inserted(leases', ws, specs, ids)
    ensures forall l :: l in leases' ==> l in leases || l in ids[..|specs|]
  {
    forall l | l in leases ensures l in leases' && AgedLease(leases[l], leases'[l], specs, now) {
      assert AgedLease(taken[l], leases'[l], specs[1..], now);
      MentionsMore(specs, leases[l].operation);
    }
    MentionsMore(specs, specs[0].operation);
    assert AgedLease(taken[ids[0]], leases'[ids[0]], specs[1..], now);
    forall i | 1 <= i < |specs|
      ensures ids[i] in leases' && leases'[ids[i]] == Db.Lease(ws, specs[i].operation, specs[i].expiresAt, None)
    {
      assert specs[i] == specs[1..][i - 1] && ids[i] == ids[1..][i - 1];
    }
    assert ids[..|specs|] == [ids[0]] + ids[1..][..|specs| - 1];
  }

  lemma MentionsMore(specs: seq<Db.Spec>, op: Db.Operation)
    requires specs != []
    ensures Mentions(specs, op) <==> specs[0].operation == op || Mentions(specs[1..], op)
  {
    if Mentions(specs, op) && specs[0].operation != op {
      var i :| 0 <= i < |specs| && specs[i].operation == op;
      assert specs[1..][i - 1].operation == op;
    }
  }

  // ---------------------------------------------------------------- counting slots

  /** A run that occupies a slot holds one live lease of its binding's bucket. */
  lemma SlotHasLease(fx: Fixed, s: RefState, d: DbState, h: Handle, app: AppId, binding: BindingId, now: Time)
    requires DbOk(fx, d, now) && SameLiveRuns(s, d, now) && fx.limited(app, binding)
    requires h in Ref.ConcurrentRuns(s.runs, app, binding, now)
    ensures h in d.runs && |d.runs[h].leases| == 1
    ensures d.runs[h].leases[0] in
            Db.LiveLeases(d.leases, fx.workspaceOf(app), Db.ConcurrencyOp(app, binding), now)
  {
    assert RowOk(fx, d.leases, d.runs[h], now);
  }

  /** And a live lease of that bucket is held by a run that occupies a slot. */
  lemma LeaseHasSlot(fx: Fixed, s: RefState, d: DbState, l: LeaseId, app: AppId, binding: BindingId, now: Time)
    returns (h: Handle)
    requires DbOk(fx, d, now) && SameLiveRuns(s, d, now) && fx.limited(app, binding)
    requires l in Db.LiveLeases(d.leases, fx.workspaceOf(app), Db.ConcurrencyOp(app, binding), now)
    ensures h in Ref.ConcurrentRuns(s.runs, app, binding, now)
    ensures h in d.runs && d.runs[h].leases == [l]
  {
    assert Owned(d, l);
    h :| h in d.runs && l in d.runs[h].leases;
    assert RowOk(fx, d.leases, d.runs[h], now);
  }

  /** No lease is stored by two rows. */
  lemma OneOwner(fx: Fixed, d: DbState, now: Time, h1: Handle, h2: Handle, l: LeaseId)
    requires DbOk(fx, d, now) && h1 in d.runs && h2 in d.runs && l in d.runs[h1].leases && l in d.runs[h2].leases
    ensures h1 == h2
  {
    hide RowOk;
  }

  /** Live concurrency leases and the reference's scan of unsettled runs are equally many. */
  lemma ConcurrencyCount(fx: Fixed, s: RefState, d: DbState, app: AppId, binding: BindingId, now: Time)
    requires DbOk(fx, d, now) && SameLiveRuns(s, d, now) && fx.limited(app, binding)
    ensures |Ref.ConcurrentRuns(s.runs, app, binding, now)| ==
            |Db.LiveLeases(d.leases, fx.workspaceOf(app), Db.ConcurrencyOp(app, binding), now)|
  {
    var holders := Ref.ConcurrentRuns(s.runs, app, binding, now);
    var live := Db.LiveLeases(d.leases, fx.workspaceOf(app), Db.ConcurrencyOp(app, binding), now);
    hide Ref.ConcurrentRuns, Db.LiveLeases, SameLiveRuns, DbOk;
    forall h | h in holders ensures h in d.runs && |d.runs[h].leases| == 1 && d.runs[h].leases[0] in live {
      SlotHasLease(fx, s, d, h, app, binding, now);
    }
    var f := map h | h in holders :: d.runs[h].leases[0];
    forall l | l in live ensures exists h :: h in f && f[h] == l {
      var h := LeaseHasSlot(fx, s, d, l, app, binding, now);
      assert h in f && f[h] == l;
    }
    forall x, y | x in f && y in f && f[x] == f[y] ensures x == y {
      OneOwner(fx, d, now, x, y, f[x]);
    }
    InjectiveCard(f, live);
    assert f.Keys == holders;
  }

  /** What one reservation adds to a bucket, seen at any later instant. */
  lemma ReservationCounts(leases: map<LeaseId, Db.Lease>, leases': map<LeaseId, Db.Lease>, ws: WorkspaceId,
                          specs: seq<Db.Spec>, ids: seq<LeaseId>, now: Time,
                          w: WorkspaceId, op: Db.Operation, n: Time)
    requires |ids| >= |specs| && FreshIds(leases, ids) && DistinctOps(specs) && n >= now
    requires Aged(leases, leases', specs, now) && Inserted(leases', ws, specs, ids)
    requires forall l :: l in leases' ==> l in leases || l in ids[..|specs|]
    ensures |Db.LiveLeases(leases', w, op, n)| == |Db.LiveLeases(leases, w, op, n)| +
            if w == ws && exists i :: 0 <= i < |specs| && specs[i].operation == op && specs[i].expiresAt > n then 1 else 0
  {
    var before, after := Db.LiveLeases(leases, w, op, n), Db.LiveLeases(leases', w, op, n);
    forall l | l in leases ensures l in before <==> l in after {
      assert AgedLease(leases[l], leases'[l], specs, now);
    }
    forall l | l in after && l !in before
      ensures w == ws && exists i :: 0 <= i < |specs| && specs[i].operation == op && specs[i].expiresAt > n && ids[i] == l
    {
      var j :| 0 <= j < |specs| && ids[..|specs|][j] == l;
      assert specs[j].operation == op && ids[j] == l;
    }
    if i :| w == ws && 0 <= i < |specs| && specs[i].operation == op && specs[i].expiresAt > n {
      assert after == before + {ids[i]};
    } else {
      assert after == before;
    }
  }

  // ---------------------------------------------------------------- accept

  /** The binding limits concurrency always or never, sits in its app's workspace, and times out within the handle's life. */
  predicate Regular(cfg: Config, fx: Fixed, req: Request, now: Time) {
    && (req.binding.workspace == req.workspace && req.binding.app == req.app ==>
          && req.workspace == fx.workspaceOf(req.app)
          && (req.binding.limits.maxConcurrency.Some? <==> fx.limited(req.app, req.binding.id)))
    && TimeoutAt(cfg, req, now) <= now + cfg.handleTtl
  }

  ghost predicate FreshTokens(s: RefState, d: DbState, handle: Handle, ids: seq<LeaseId>) {
    && handle !in s.runs && handle !in d.runs
    && |ids| == Db.MAX_LEASES && FreshIds(d.leases, ids)
  }

  predicate RateFull(windows: map<WindowKey, seq<Time>>, req: Request, now: Time) {
    exists i :: 0 <= i < |RateWindows(req)| && !WindowHasRoom(windows, RateWindows(req)[i], now - MINUTE)
  }

  lemma SpecsAt(req: Request, now: Time, timeoutAt: Time)
    ensures var specs, ws := Db.Specs(req, now, timeoutAt), RateWindows(req);
            && |specs| == |ws| + (if req.binding.limits.maxConcurrency.Some? then 1 else 0)
            && (forall i :: 0 <= i < |ws| ==>
                  specs[i] == Db.Spec(Db.RateOp(ws[i].key), ws[i].limit, now + MINUTE))
            && (req.binding.limits.maxConcurrency.Some? ==>
                  specs[|ws|] == Db.Spec(Db.ConcurrencyOp(req.app, req.binding.id),
                                         req.binding.limits.maxConcurrency.value, timeoutAt))
  {
  }

  /** Each durable bucket is full exactly when the reference's window or slot count is. */
  lemma BucketsAgree(cfg: Config, fx: Fixed, s: RefState, d: DbState, req: Request, now: Time)
    requires Related(fx, s, d, now) && Regular(cfg, fx, req, now) && Gate(cfg, req).None?
    ensures var specs, ws := Db.Specs(req, now, TimeoutAt(cfg, req, now)), RateWindows(req);
            && (forall i :: 0 <= i < |ws| ==>
                  (SpecHasRoom(d.leases, req.workspace, specs[i], now) <==> WindowHasRoom(s.windows, ws[i], now - MINUTE)))
            && (req.binding.limits.maxConcurrency.Some? ==>
                  (SpecHasRoom(d.leases, req.workspace, specs[|ws|], now) <==> !Ref.ConcurrencyFull(s.runs, req, now)))
  {
    SpecsAt(req, now, TimeoutAt(cfg, req, now));
    var ws := RateWindows(req);
    forall i | 0 <= i < |ws| ensures SameCount(fx, s, d, ws[i].key, now) {
    }
    if req.binding.limits.maxConcurrency.Some? {
      ConcurrencyCount(fx, s, d, req.app, req.binding.id, now);
    }
  }

  lemma ConcurrencyIdsAre(req: Request, now: Time, timeoutAt: Time, ids: seq<LeaseId>)
    requires |ids| >= |Db.Specs(req, now, timeoutAt)|
    ensures ConcurrencyIds(Db.Specs(req, now, timeoutAt), ids) ==
            if req.binding.limits.maxConcurrency.Some? then [ids[|RateWindows(req)|]] else []
  {
    SpecsAt(req, now, timeoutAt);
    RateGivesNoConcurrencyIds(Db.Specs(req, now, timeoutAt), ids, |RateWindows(req)|);
  }

  lemma {:induction false} RateGivesNoConcurrencyIds(specs: seq<Db.Spec>, ids: seq<LeaseId>, n: nat)
    requires n <= |specs| <= |ids|
    requires forall i :: 0 <= i < n ==> specs[i].operation.RateOp?
    ensures ConcurrencyIds(specs, ids) == ConcurrencyIds(specs[n..], ids[n..])
  {
    if n > 0 {
      assert specs[1..][n - 1..] == specs[n..] && ids[1..][n - 1..] == ids[n..];
      RateGivesNoConcurrencyIds(specs[1..], ids[1..], n - 1);
    } else {
      assert specs[0..] == specs && ids[0..] == ids;
    }
  }

  /** The reference's bookkeeping: a passed check followed by recording adds one event per named window. */
  lemma RefEventsCount(windows: map<WindowKey, seq<Time>>, ws: seq<Window>, now: Time, k: WindowKey, t: Time)
    requires AllSorted(windows, now) && DistinctKeys(ws) && t >= now - MINUTE
    ensures var windows' := Ref.RecordEvents(Ref.CheckWindows(windows, ws, now - MINUTE).0, ws, now);
            CountAfter(Ref.Events(windows', k), t) ==
            CountAfter(Ref.Events(windows, k), t) + if HasKey(ws, k) && now > t then 1 else 0
  {
    CheckWindowsMeaning(windows, ws, now - MINUTE, now);
    var checked := Ref.CheckWindows(windows, ws, now - MINUTE).0;
    RecordEventsMeaning(checked, ws, now);
    CountAppend(Ref.Events(checked, k), now, t);
    assert Ref.Events(checked, k) + [] == Ref.Events(checked, k);
  }

  /** The specs of a request: one per window for a minute, then perhaps one for concurrency. */
  ghost predicate SpecsFor(specs: seq<Db.Spec>, ws: seq<Window>, now: Time) {
    && |ws| <= |specs|
    && DistinctOps(specs)
    && (forall i :: 0 <= i < |ws| ==> specs[i] == Db.Spec(Db.RateOp(ws[i].key), ws[i].limit, now + MINUTE))
    && (forall i :: |ws| <= i < |specs| ==> specs[i].operation.ConcurrencyOp?)
  }

  /** The durable bookkeeping: one more live lease per named window, for a minute. */
  lemma DbLeasesCount(leases: map<LeaseId, Db.Lease>, leases': map<LeaseId, Db.Lease>, ws: seq<Window>,
                      workspace: WorkspaceId, specs: seq<Db.Spec>, ids: seq<LeaseId>, now: Time,
                      w: WorkspaceId, k: WindowKey, n: Time)
    requires |ids| >= |specs| && FreshIds(leases, ids) && n >= now && SpecsFor(specs, ws, now)
    requires Aged(leases, leases', specs, now) && Inserted(leases', workspace, specs, ids)
    requires forall l :: l in leases' ==> l in leases || l in ids[..|specs|]
    ensures |Db.LiveLeases(leases', w, Db.RateOp(k), n)| == |Db.LiveLeases(leases, w, Db.RateOp(k), n)| +
            if w == workspace && HasKey(ws, k) && n < now + MINUTE then 1 else 0
  {
    ReservationCounts(leases, leases', workspace, specs, ids, now, w, Db.RateOp(k), n);
    if HasKey(ws, k) {
      var i :| 0 <= i < |ws| && ws[i].key == k;
      assert specs[i].operation == Db.RateOp(k);
    }
    forall i | 0 <= i < |specs| && specs[i].operation == Db.RateOp(k)
      ensures HasKey(ws, k) && specs[i].expiresAt == now + MINUTE
    {
      assert i < |ws| && ws[i].key == k;
    }
  }

  /** Rows that were there keep their meaning when a reservation ages their leases. */
  lemma OldRowKept(fx: Fixed, leases: map<LeaseId, Db.Lease>, leases': map<LeaseId, Db.Lease>,
                   specs: seq<Db.Spec>, row: Db.RunRow, now: Time, stamp: Time)
    requires RowOk(fx, leases, row, now) && Aged(leases, leases', specs, stamp) && stamp <= now
    ensures RowOk(fx, leases', row, now)
  {
    if row.leases != [] {
      var l := row.leases[0];
      assert AgedLease(leases[l], leases'[l], specs, stamp);
    }
  }

  /** The accepted run's row stores exactly its concurrency lease. */
  lemma NewRowOk(cfg: Config, fx: Fixed, req: Request, now: Time, leases': map<LeaseId, Db.Lease>, ids: seq<LeaseId>, at: Time)
    requires Regular(cfg, fx, req, now) && Gate(cfg, req).None?
    requires |ids| >= |Db.Specs(req, now, TimeoutAt(cfg, req, now))|
    requires Inserted(leases', req.workspace, Db.Specs(req, now, TimeoutAt(cfg, req, now)), ids)
    ensures var concurrency := ConcurrencyIds(Db.Specs(req, now, TimeoutAt(cfg, req, now)), ids);
            RowOk(fx, leases', Db.RunRow(NewRun(cfg, req, now), concurrency), at)
  {
    SpecsAt(req, now, TimeoutAt(cfg, req, now));
    ConcurrencyIdsAre(req, now, TimeoutAt(cfg, req, now), ids);
  }

  /** Every concurrency lease belongs to one row, before and after a row and its leases are added. */
  lemma OwnershipKept(fx: Fixed, d: DbState, leases': map<LeaseId, Db.Lease>, specs: seq<Db.Spec>, ids: seq<LeaseId>,
                      handle: Handle, row: Db.RunRow, now: Time, stamp: Time)
    requires DbOk(fx, d, now) && handle !in d.runs
    requires |ids| >= |specs| && FreshIds(d.leases, ids)
    requires Aged(d.leases, leases', specs, stamp)
    requires forall l :: l in leases' ==> l in d.leases || l in ids[..|specs|]
    requires forall l :: l in row.leases ==> l in ids
    requires forall i :: 0 <= i < |specs| && ids[i] in leases' && leases'[ids[i]].operation.ConcurrencyOp? ==> ids[i] in row.leases
    ensures var d' := d.(runs := d.runs[handle := row], leases := leases');
            && (forall l :: l in leases' && leases'[l].operation.ConcurrencyOp? ==> Owned(d', l))
            && (forall h1, h2, l :: h1 in d'.runs && h2 in d'.runs && l in d'.runs[h1].leases && l in d'.runs[h2].leases ==> h1 == h2)
  {
    var d' := d.(runs := d.runs[handle := row], leases := leases');
    forall l | l in leases' && leases'[l].operation.ConcurrencyOp? ensures Owned(d', l) {
      if l in d.leases {
        assert AgedLease(d.leases[l], leases'[l], specs, stamp);
        StillOwned(fx, d, d', now, handle, l);
      } else {
        var i :| 0 <= i < |specs| && ids[..|specs|][i] == l;
        assert handle in d'.runs && l in d'.runs[handle].leases;
      }
    }
    hide RowOk, Owned, Aged;
    forall h, l | h in d.runs && l in d.runs[h].leases ensures l in d.leases { RowsLease(fx, d, h, l, now); }
  }

  lemma StillOwned(fx: Fixed, d: DbState, d': DbState, now: Time, handle: Handle, l: LeaseId)
    requires DbOk(fx, d, now) && l in d.leases && d.leases[l].operation.ConcurrencyOp? && handle !in d.runs
    requires forall h :: h in d.runs ==> h in d'.runs && d'.runs[h] == d.runs[h]
    ensures Owned(d', l)
  {
    assert Owned(d, l);
    hide RowOk;
    var h :| h in d.runs && l in d.runs[h].leases;
    assert h in d'.runs && l in d'.runs[h].leases;
  }

  lemma RowsLease(fx: Fixed, d: DbState, h: Handle, l: LeaseId, now: Time)
    requires DbOk(fx, d, now) && h in d.runs && l in d.runs[h].leases
    ensures l in d.leases
  {
    assert RowOk(fx, d.leases, d.runs[h], now);
  }

  /** Everything an accepted request adds, on both sides. */
  ghost predicate AcceptsInto(cfg: Config, fx: Fixed, s: RefState, d: DbState, req: Request, now: Time,
                              handle: Handle, ids: seq<LeaseId>, windows: map<WindowKey, seq<Time>>,
                              leases: map<LeaseId, Db.Lease>, concurrency: seq<LeaseId>)
  {
    && Regular(cfg, fx, req, now) && Gate(cfg, req).None?
    && FreshTokens(s, d, handle, ids)
    && Ref.EnforceLimits(s, req, now) == (windows, None)
    && Db.Reserve(d.leases, req.workspace, Db.Specs(req, now, TimeoutAt(cfg, req, now)), now, ids, []) ==
       Db.Reserved(leases, concurrency)
  }

  /** What the reservation of an accepted request amounts to. */
  lemma AcceptedReservation(cfg: Config, fx: Fixed, s: RefState, d: DbState, req: Request, now: Time,
                            handle: Handle, ids: seq<LeaseId>, windows: map<WindowKey, seq<Time>>,
                            leases: map<LeaseId, Db.Lease>, concurrency: seq<LeaseId>)
    requires AcceptsInto(cfg, fx, s, d, req, now, handle, ids, windows, leases, concurrency)
    ensures var specs := Db.Specs(req, now, TimeoutAt(cfg, req, now));
            && |ids| >= |specs| && FreshIds(d.leases, ids) && SpecsFor(specs, RateWindows(req), now)
            && Aged(d.leases, leases, specs, now) && Inserted(leases, req.workspace, specs, ids)
            && (forall l :: l in leases ==> l in d.leases || l in ids[..|specs|])
            && concurrency == ConcurrencyIds(specs, ids)
    ensures windows == Ref.RecordEvents(Ref.CheckWindows(s.windows, RateWindows(req), now - MINUTE).0, RateWindows(req), now)
  {
    hide Db.Reserve, Ref.CheckWindows, Ref.RecordEvents, Gate, Aged, Inserted, ConcurrencyIds, Regular, Db.Specs, RateWindows,
      FreshIds, SpecsFor, Ref.ConcurrencyFull, LacksClientIdentity;
    var specs := Db.Specs(req, now, TimeoutAt(cfg, req, now));
    SpecsForRequest(req, now, TimeoutAt(cfg, req, now));
    ReserveAdds(d.leases, req.workspace, specs, now, ids, []);
    ConcurrencyIdsAre(req, now, TimeoutAt(cfg, req, now), ids);
    assert concurrency == [] + ConcurrencyIds(specs, ids);
  }

  lemma SpecsForRequest(req: Request, now: Time, timeoutAt: Time)
    ensures SpecsFor(Db.Specs(req, now, timeoutAt), RateWindows(req), now) && DistinctOps(Db.Specs(req, now, timeoutAt))
    ensures |Db.Specs(req, now, timeoutAt)| <= Db.MAX_LEASES
    ensures req.binding.limits.maxConcurrency.Some? ==> |RateWindows(req)| < |Db.Specs(req, now, timeoutAt)|
  {
    SpecsAt(req, now, timeoutAt);
    hide RateWindows;
  }

  lemma AcceptedCounts(cfg: Config, fx: Fixed, s: RefState, d: DbState, req: Request, now: Time,
                       handle: Handle, ids: seq<LeaseId>, windows: map<WindowKey, seq<Time>>,
                       leases: map<LeaseId, Db.Lease>, concurrency: seq<LeaseId>, k: WindowKey, n: Time)
    requires AcceptsInto(cfg, fx, s, d, req, now, handle, ids, windows, leases, concurrency)
    requires AllSorted(s.windows, now) && n >= now && SameCount(fx, s, d, k, n)
    ensures SameCount(fx, s.(windows := windows), d.(leases := leases), k, n)
  {
    hide Db.Reserve, Ref.EnforceLimits, Ref.CheckWindows, Ref.RecordEvents, Gate, Db.Specs, RateWindows, Aged, Inserted;
    var specs, ws := Db.Specs(req, now, TimeoutAt(cfg, req, now)), RateWindows(req);
    AcceptedReservation(cfg, fx, s, d, req, now, handle, ids, windows, leases, concurrency);
    RefEventsCount(s.windows, ws, now, k, n - MINUTE);
    DbLeasesCount(d.leases, leases, ws, req.workspace, specs, ids, now, fx.workspaceOf(k.app), k, n);
    if HasKey(ws, k) {
      assert k.app == req.app;
      assert fx.workspaceOf(k.app) == req.workspace by { GateScopes(cfg, req); }
    }
  }

  lemma GateScopes(cfg: Config, req: Request)
    requires Gate(cfg, req).None?
    ensures req.binding.workspace == req.workspace && req.binding.app == req.app
  {
  }

  /** Adding one good row under a fresh handle keeps the database's invariant. */
  lemma RowAdded(fx: Fixed, d: DbState, leases: map<LeaseId, Db.Lease>, specs: seq<Db.Spec>, ids: seq<LeaseId>,
                 handle: Handle, row: Db.RunRow, scope: Scope, entry: IdemEntry, now: Time, stamp: Time)
    requires DbOk(fx, d, now) && handle !in d.runs && stamp <= now
    requires |ids| >= |specs| && FreshIds(d.leases, ids)
    requires Aged(d.leases, leases, specs, stamp) && RowOk(fx, leases, row, now)
    requires forall l :: l in leases ==> l in d.leases || l in ids[..|specs|]
    requires forall l :: l in row.leases ==> l in ids
    requires forall i :: 0 <= i < |specs| && ids[i] in leases && leases[ids[i]].operation.ConcurrencyOp? ==> ids[i] in row.leases
    requires entry.handle == handle && entry.expiresAt == row.run.expiresAt
    ensures DbOk(fx, Db.DbState(d.runs[handle := row], d.idem[scope := entry], leases), now)
  {
    OwnershipKept(fx, d, leases, specs, ids, handle, row, now, stamp);
    forall h | h in d.runs ensures RowOk(fx, leases, d.runs[h], now) {
      OldRowKept(fx, d.leases, leases, specs, d.runs[h], now, stamp);
    }
    var d1 := d.(runs := d.runs[handle := row], leases := leases);
    var d' := Db.DbState(d.runs[handle := row], d.idem[scope := entry], leases);
    assert forall l :: Owned(d1, l) ==> Owned(d', l);
  }

  /** The ids a row stores are those of its concurrency specs. */
  lemma StoredIds(req: Request, now: Time, timeoutAt: Time, ids: seq<LeaseId>)
    requires |ids| >= |Db.Specs(req, now, timeoutAt)|
    ensures var specs := Db.Specs(req, now, timeoutAt);
            var concurrency := ConcurrencyIds(specs, ids);
            && (forall l :: l in concurrency ==> l in ids)
            && (forall i :: 0 <= i < |specs| && specs[i].operation.ConcurrencyOp? ==> ids[i] in concurrency)
  {
    ConcurrencyIdsAre(req, now, timeoutAt, ids);
    SpecsAt(req, now, timeoutAt);
    hide ConcurrencyIds, RateWindows;
  }

  lemma StoredConcurrency(leases: map<LeaseId, Db.Lease>, ws: WorkspaceId, specs: seq<Db.Spec>, ids: seq<LeaseId>,
                          concurrency: seq<LeaseId>)
    requires |ids| >= |specs| && Inserted(leases, ws, specs, ids)
    requires forall i :: 0 <= i < |specs| && specs[i].operation.ConcurrencyOp? ==> ids[i] in concurrency
    ensures forall i :: 0 <= i < |specs| && ids[i] in leases && leases[ids[i]].operation.ConcurrencyOp? ==> ids[i] in concurrency
  {
  }

  lemma AcceptedRows(cfg: Config, fx: Fixed, s: RefState, d: DbState, req: Request, now: Time,
                     handle: Handle, ids: seq<LeaseId>, windows: map<WindowKey, seq<Time>>,
                     leases: map<LeaseId, Db.Lease>, concurrency: seq<LeaseId>)
    requires AcceptsInto(cfg, fx, s, d, req, now, handle, ids, windows, leases, concurrency)
    requires DbOk(fx, d, now)
    ensures var run := NewRun(cfg, req, now);
            DbOk(fx, Db.DbState(d.runs[handle := Db.RunRow(run, concurrency)],
                                d.idem[ScopeOf(req) := IdemEntry(req.payload, handle, run.expiresAt)], leases), now)
  {
    hide Db.Reserve, Ref.EnforceLimits, Gate, ConcurrencyIds, DbOk, RowOk, Aged;
    var specs, ws := Db.Specs(req, now, TimeoutAt(cfg, req, now)), RateWindows(req);
    AcceptedReservation(cfg, fx, s, d, req, now, handle, ids, windows, leases, concurrency);
    StoredIds(req, now, TimeoutAt(cfg, req, now), ids);
    NewRowOk(cfg, fx, req, now, leases, ids, now);
    hide Db.Specs, RateWindows, NewRun, Regular, FreshIds, Inserted;
    var run := NewRun(cfg, req, now);
    assert run.expiresAt == IdemEntry(req.payload, handle, run.expiresAt).expiresAt;
    StoredConcurrency(leases, req.workspace, specs, ids, concurrency);
    RowAdded(fx, d, leases, specs, ids, handle, Db.RunRow(run, concurrency), ScopeOf(req),
      IdemEntry(req.payload, handle, run.expiresAt), now, now);
  }

  /** The new run and its key are the same on both sides. */
  lemma AcceptedLive(s: RefState, d: DbState, handle: Handle, row: Db.RunRow, scope: Scope, entry: IdemEntry,
                     windows: map<WindowKey, seq<Time>>, leases: map<LeaseId, Db.Lease>, now: Time)
    requires SameLiveRuns(s, d, now) && SameLiveKeys(s, d, now) && RefOk(s, now) && AllSorted(windows, now)
    requires handle !in s.runs && entry.handle == handle && entry.expiresAt == row.run.expiresAt
    ensures var s' := Ref.RefState(s.runs[handle := row.run], s.idem[scope := entry], windows);
            var d' := Db.DbState(d.runs[handle := row], d.idem[scope := entry], leases);
            SameLiveRuns(s', d', now) && SameLiveKeys(s', d', now) && RefOk(s', now)
  {
  }

  lemma AcceptedFresh(cfg: Config, fx: Fixed, s: RefState, d: DbState, req: Request, now: Time,
                      handle: Handle, ids: seq<LeaseId>, windows: map<WindowKey, seq<Time>>,
                      leases: map<LeaseId, Db.Lease>, concurrency: seq<LeaseId>)
    requires AcceptsInto(cfg, fx, s, d, req, now, handle, ids, windows, leases, concurrency)
    ensures handle !in s.runs
  {
    hide Db.Reserve, Ref.EnforceLimits, Gate, Regular, Db.Specs, FreshIds;
  }

  /** Accepting keeps the relation. */
  lemma AcceptedRelated(cfg: Config, fx: Fixed, s: RefState, d: DbState, req: Request, now: Time,
                        handle: Handle, ids: seq<LeaseId>, windows: map<WindowKey, seq<Time>>,
                        leases: map<LeaseId, Db.Lease>, concurrency: seq<LeaseId>)
    requires AcceptsInto(cfg, fx, s, d, req, now, handle, ids, windows, leases, concurrency)
    requires Related(fx, s, d, now)
    ensures var run := NewRun(cfg, req, now);
            var entry := IdemEntry(req.payload, handle, run.expiresAt);
            Related(fx,
              Ref.RefState(s.runs[handle := run], s.idem[ScopeOf(req) := entry], windows),
              Db.DbState(d.runs[handle := Db.RunRow(run, concurrency)], d.idem[ScopeOf(req) := entry], leases), now)
  {
    var run := NewRun(cfg, req, now);
    var entry := IdemEntry(req.payload, handle, run.expiresAt);
    var s' := Ref.RefState(s.runs[handle := run], s.idem[ScopeOf(req) := entry], windows);
    var d' := Db.DbState(d.runs[handle := Db.RunRow(run, concurrency)], d.idem[ScopeOf(req) := entry], leases);
    assert AllSorted(s.windows, now);
    forall k, n | n >= now ensures SameCount(fx, s', d', k, n) {
      assert SameCount(fx, s, d, k, n);
      hide Related, AcceptsInto, NewRun;
      AcceptedCounts(cfg, fx, s, d, req, now, handle, ids, windows, leases, concurrency, k, n);
      assert SameCount(fx, s.(windows := windows), d.(leases := leases), k, n);
    }
    hide AcceptsInto, NewRun, DbOk, SameCount, SameLiveRuns, SameLiveKeys;
    assert AllSorted(windows, now) by {
      AcceptedReservation(cfg, fx, s, d, req, now, handle, ids, windows, leases, concurrency);
      CheckWindowsMeaning(s.windows, RateWindows(req), now - MINUTE, now);
      RecordEventsMeaning(Ref.CheckWindows(s.windows, RateWindows(req), now - MINUTE).0, RateWindows(req), now);
    }
    assert DbOk(fx, d', now) by {
      AcceptedRows(cfg, fx, s, d, req, now, handle, ids, windows, leases, concurrency);
    }
    AcceptedFresh(cfg, fx, s, d, req, now, handle, ids, windows, leases, concurrency);
    AcceptedLive(s, d, handle, Db.RunRow(run, concurrency), ScopeOf(req), entry, windows, leases, now);
  }

  /** Trimming the windows of a refused request is invisible. */
  lemma RefusedRelated(fx: Fixed, s: RefState, d: DbState, req: Request, now: Time)
    requires Related(fx, s, d, now)
    ensures Ref.EnforceLimits(s, req, now).1.Some? ==>
              Related(fx, s.(windows := Ref.EnforceLimits(s, req, now).0), d, now)
  {
    var windows := Ref.EnforceLimits(s, req, now).0;
    CheckWindowsMeaning(s.windows, RateWindows(req), now - MINUTE, now);
    if Ref.EnforceLimits(s, req, now).1.Some? {
      forall k, n | n >= now ensures SameCount(fx, s.(windows := windows), d, k, n) {
        assert SameCount(fx, s, d, k, n);
      }
    }
  }

  /** Two answers to `accept` of the same kind; only the reason of a refusal may differ. */
  predicate AcceptsAlike(o: AcceptOutcome, o': AcceptOutcome) {
    o == o' || (o.Refused? && o'.Refused?)
  }

  /** The two services blame different limits when concurrency and something earlier are both exhausted. */
  ghost predicate BlamesDiffer(s: RefState, req: Request, now: Time) {
    Ref.ConcurrencyFull(s.runs, req, now) && (LacksClientIdentity(req) || RateFull(s.windows, req, now))
  }

  /** The buckets of a request, limits as the reference reads them. */
  ghost predicate BucketsMatch(s: RefState, d: DbState, req: Request, specs: seq<Db.Spec>, ws: seq<Window>, now: Time) {
    && |ws| <= |specs| <= |ws| + 1
    && (|specs| == |ws| ==> !Ref.ConcurrencyFull(s.runs, req, now))
    && (forall i :: 0 <= i < |ws| ==>
          specs[i].operation.RateOp? &&
          (SpecHasRoom(d.leases, req.workspace, specs[i], now) <==> WindowHasRoom(s.windows, ws[i], now - MINUTE)))
    && (|ws| < |specs| ==>
          specs[|ws|].operation.ConcurrencyOp? &&
          (SpecHasRoom(d.leases, req.workspace, specs[|ws|], now) <==> !Ref.ConcurrencyFull(s.runs, req, now)))
  }

  lemma BucketsDo(cfg: Config, fx: Fixed, s: RefState, d: DbState, req: Request, now: Time)
    requires Related(fx, s, d, now) && Regular(cfg, fx, req, now) && Gate(cfg, req).None?
    ensures BucketsMatch(s, d, req, Db.Specs(req, now, TimeoutAt(cfg, req, now)), RateWindows(req), now)
  {
    SpecsAt(req, now, TimeoutAt(cfg, req, now));
    BucketsAgree(cfg, fx, s, d, req, now);
    hide Related, Regular, Gate, Db.Specs, RateWindows, SpecHasRoom, WindowHasRoom;
  }

  /** The first full bucket is the one the reference blames, unless concurrency is full as well. */
  lemma BlameAlike(s: RefState, d: DbState, req: Request, specs: seq<Db.Spec>, now: Time, i: nat)
    requires BucketsMatch(s, d, req, specs, RateWindows(req), now) && FirstFull(d.leases, req.workspace, specs, now, i)
    ensures Ref.ConcurrencyFull(s.runs, req, now) || RateFull(s.windows, req, now)
    ensures Db.ReasonFor(specs[i].operation) == (if RateFull(s.windows, req, now) then RateExceeded else ConcurrencyExceeded)
  {
    var ws := RateWindows(req);
    hide SpecHasRoom, WindowHasRoom, Ref.ConcurrencyFull, RateWindows;
    if i < |ws| {
      assert !WindowHasRoom(s.windows, ws[i], now - MINUTE);
    } else {
      assert forall j :: 0 <= j < |ws| ==> SpecHasRoom(d.leases, req.workspace, specs[j], now);
    }
  }

  /** When does the reference refuse, and whom does it blame. */
  lemma RefBlames(s: RefState, req: Request, now: Time)
    requires AllSorted(s.windows, now) && !LacksClientIdentity(req)
    ensures Ref.EnforceLimits(s, req, now).1 ==
            if Ref.ConcurrencyFull(s.runs, req, now) then Some(ConcurrencyExceeded)
            else if RateFull(s.windows, req, now) then Some(RateExceeded) else None
  {
    CheckWindowsMeaning(s.windows, RateWindows(req), now - MINUTE, now);
    hide RateWindows, Ref.CheckWindows, Ref.RecordEvents, WindowHasRoom, Ref.ConcurrencyFull;
  }

  /** The outcome of each service when neither denies nor replays. */
  lemma LimitsAlike(cfg: Config, fx: Fixed, s: RefState, d: DbState, req: Request, now: Time, handle: Handle, ids: seq<LeaseId>)
    requires Related(fx, s, d, now) && Regular(cfg, fx, req, now) && Gate(cfg, req).None?
    requires FreshTokens(s, d, handle, ids) && !LacksClientIdentity(req)
    ensures var refused := Ref.EnforceLimits(s, req, now).1;
            match Db.Reserve(d.leases, req.workspace, Db.Specs(req, now, TimeoutAt(cfg, req, now)), now, ids, [])
            case Reserved(_, _) => refused.None?
            case Exhausted(reason) => refused.Some? && (refused.value == reason <==> !BlamesDiffer(s, req, now))
  {
    var specs := Db.Specs(req, now, TimeoutAt(cfg, req, now));
    SpecsForRequest(req, now, TimeoutAt(cfg, req, now));
    BucketsDo(cfg, fx, s, d, req, now);
    RefBlames(s, req, now);
    ReserveDecides(d.leases, req.workspace, specs, now, ids, []);
    hide Related, Regular, Gate, Db.Specs, RateWindows, Db.Reserve, Ref.EnforceLimits, SpecHasRoom, WindowHasRoom,
      Ref.ConcurrencyFull, FreshIds, DistinctOps, SpecsFor, LacksClientIdentity;
    match Db.Reserve(d.leases, req.workspace, specs, now, ids, [])
    case Reserved(_, _) =>
      assert forall i :: 0 <= i < |RateWindows(req)| ==> SpecHasRoom(d.leases, req.workspace, specs[i], now);
    case Exhausted(reason) =>
      var i: nat :| FirstFull(d.leases, req.workspace, specs, now, i) && reason == Db.ReasonFor(specs[i].operation);
      BlameAlike(s, d, req, specs, now, i);
  }

  /**
    `accept` on related states answers alike and keeps them related. The reasons of two
    refusals differ exactly when concurrency and an earlier limit are both exhausted.
   */
  lemma AcceptRefines(cfg: Config, fx: Fixed, s: RefState, d: DbState, req: Request, now: Time, handle: Handle, ids: seq<LeaseId>)
    requires Related(fx, s, d, now) && Regular(cfg, fx, req, now) && FreshTokens(s, d, handle, ids)
    ensures var (s', o) := Ref.Accept(cfg, s, req, now, handle);
            var (d', o') := Db.Accept(cfg, d, req, now, handle, ids);
            && AcceptsAlike(o, o') && Related(fx, s', d', now)
            && (o.Refused? ==> (o == o' <==> !BlamesDiffer(Ref.Prune(s, now), req, now)))
  {
    hide Db.Reserve, Ref.CheckWindows, Ref.RecordEvents, Related, Regular, Gate, Db.Specs;
    if Gate(cfg, req).None? {
      var p := Ref.Prune(s, now);
      var d1 := d.(idem := Db.PurgeIdempotency(d.idem, now));
      PruneKeeps(fx, s, d, now);
      PurgeKeeps(fx, p, d, now);
      KeysMatch(fx, s, d, ScopeOf(req), now);
      if ScopeOf(req) !in p.idem {
        RefusedRelated(fx, p, d, req, now);
        if !LacksClientIdentity(req) {
          NewKeyRefines(cfg, fx, p, d1, req, now, handle, ids);
        }
      }
    }
  }

  /** After pruning and purging, both sides know the same unexpired keys and the runs behind them. */
  lemma KeysMatch(fx: Fixed, s: RefState, d: DbState, scope: Scope, now: Time)
    requires Related(fx, s, d, now)
    ensures var p, idem := Ref.Prune(s, now), Db.PurgeIdempotency(d.idem, now);
            && (scope in p.idem <==> scope in idem)
            && (scope in idem ==>
                  && p.idem[scope] == idem[scope] && idem[scope].handle in d.runs
                  && d.runs[idem[scope].handle].run == p.runs[idem[scope].handle])
  {
    var p, idem := Ref.Prune(s, now), Db.PurgeIdempotency(d.idem, now);
    PrunedIdem(s, scope, now);
    PruneKeeps(fx, s, d, now);
    KeyPointsAt(fx, p, d, scope, now);
    hide Related, Ref.Prune;
  }

  /** Pruning leaves unexpired entries only. */
  lemma PrunedIdem(s: RefState, scope: Scope, now: Time)
    ensures scope in Ref.Prune(s, now).idem ==> Ref.Prune(s, now).idem[scope].expiresAt > now
  {
  }

  /** In related states an unexpired key is on both sides, and so is its run. */
  lemma KeyPointsAt(fx: Fixed, s: RefState, d: DbState, scope: Scope, now: Time)
    requires Related(fx, s, d, now)
    ensures scope in s.idem && s.idem[scope].expiresAt > now ==> scope in d.idem && d.idem[scope] == s.idem[scope]
    ensures scope in d.idem && d.idem[scope].expiresAt > now ==>
              && scope in s.idem && s.idem[scope] == d.idem[scope]
              && d.idem[scope].handle in d.runs && d.idem[scope].handle in s.runs
              && d.runs[d.idem[scope].handle].run == s.runs[d.idem[scope].handle]
  {
    hide SameCount, RowOk;
  }

  /** A request under a new key: the limits decide alike, and an accepted run keeps the relation. */
  lemma NewKeyRefines(cfg: Config, fx: Fixed, p: RefState, d1: DbState, req: Request, now: Time, handle: Handle, ids: seq<LeaseId>)
    requires Related(fx, p, d1, now) && Regular(cfg, fx, req, now) && Gate(cfg, req).None?
    requires FreshTokens(p, d1, handle, ids) && !LacksClientIdentity(req)
    ensures var (windows, refused) := Ref.EnforceLimits(p, req, now);
            match Db.Reserve(d1.leases, req.workspace, Db.Specs(req, now, TimeoutAt(cfg, req, now)), now, ids, [])
            case Exhausted(reason) => refused.Some? && (refused.value == reason <==> !BlamesDiffer(p, req, now))
            case Reserved(leases, concurrency) =>
              var run := NewRun(cfg, req, now);
              var entry := IdemEntry(req.payload, handle, run.expiresAt);
              && refused.None?
              && Related(fx,
                   Ref.RefState(p.runs[handle := run], p.idem[ScopeOf(req) := entry], windows),
                   Db.DbState(d1.runs[handle := Db.RunRow(run, concurrency)], d1.idem[ScopeOf(req) := entry], leases), now)
  {
    LimitsAlike(cfg, fx, p, d1, req, now, handle, ids);
    var (windows, refused) := Ref.EnforceLimits(p, req, now);
    match Db.Reserve(d1.leases, req.workspace, Db.Specs(req, now, TimeoutAt(cfg, req, now)), now, ids, [])
    case Reserved(leases, concurrency) =>
      AcceptedRelated(cfg, fx, p, d1, req, now, handle, ids, windows, leases, concurrency);
    case Exhausted(_) =>
  }

  // ---------------------------------------------------------------- settling

  /** `settled` is a final form of the unsettled run `run`. */
  predicate Finishes(run: Run, settled: Run) {
    && run.Unsettled() && !settled.Unsettled()
    && settled == run.(status := settled.status, output := settled.output, error := settled.error)
    && (settled.status == Completed ==> settled.error.None?)
  }

  /** The reference changed at most the run of `handle`, and to `settled` if that run is still live. */
  ghost predicate RefSettled(s: RefState, s': RefState, handle: Handle, settled: Run, now: Time) {
    && s'.idem == s.idem && s'.windows == s.windows && s'.runs.Keys == s.runs.Keys
    && (forall h :: h in s.runs && h != handle ==> s'.runs[h] == s.runs[h])
    && (handle in s.runs ==>
          && s'.runs[handle].expiresAt == s.runs[handle].expiresAt
          && (s.runs[handle].expiresAt > now ==> s'.runs[handle] == settled))
  }

  /** Settling a run and releasing its lease keeps the database's invariant, whatever instant the release carries. */
  lemma SettleKeepsDb(fx: Fixed, d: DbState, handle: Handle, settled: Run, now: Time, stamp: Time)
    requires DbOk(fx, d, now) && handle in d.runs && Finishes(d.runs[handle].run, settled)
    ensures DbOk(fx, Db.Settle(d, handle, settled, stamp), now)
  {
    var d' := Db.Settle(d, handle, settled, stamp);
    forall h | h in d'.runs ensures RowOk(fx, d'.leases, d'.runs[h], now) {
      assert RowOk(fx, d.leases, d.runs[h], now);
      assert RowOk(fx, d.leases, d.runs[handle], now);
      assert d'.runs[h].leases == d.runs[h].leases;
      if h != handle && d.runs[h].leases != [] {
        assert d.runs[h].leases[0] in d.runs[h].leases;
        assert d.runs[h].leases[0] !in d.runs[handle].leases;
      }
    }
    forall l | l in d'.leases && d'.leases[l].operation.ConcurrencyOp? ensures Owned(d', l) {
      assert Owned(d, l);
      var h :| h in d.runs && l in d.runs[h].leases;
      assert h in d'.runs && l in d'.runs[h].leases;
    }
  }

  /** Settling alike on both sides keeps the relation. */
  lemma SettleKeeps(fx: Fixed, s: RefState, d: DbState, s': RefState, handle: Handle, settled: Run, now: Time)
    requires Related(fx, s, d, now) && handle in d.runs && Finishes(d.runs[handle].run, settled)
    requires RefSettled(s, s', handle, settled, now)
    ensures Related(fx, s', Db.Settle(d, handle, settled, now), now)
  {
    assert RowOk(fx, d.leases, d.runs[handle], now);
    hide DbOk, RowOk, SameCount, Db.Settle, SameLiveRuns;
    SettleKeepsDb(fx, d, handle, settled, now, now);
    SettleLive(s, d, s', handle, settled, now);
    forall k, n | n >= now ensures SameCount(fx, s', Db.Settle(d, handle, settled, now), k, n) {
      SettleCounts(fx, s, d, s', handle, settled, now, k, n);
    }
    SettleKeys(s, d, s', handle, settled, now);
  }

  lemma SettleLive(s: RefState, d: DbState, s': RefState, handle: Handle, settled: Run, now: Time)
    requires SameLiveRuns(s, d, now) && handle in d.runs && Finishes(d.runs[handle].run, settled)
    requires RefSettled(s, s', handle, settled, now)
    ensures SameLiveRuns(s', Db.Settle(d, handle, settled, now), now)
  {
  }

  lemma SettleKeys(s: RefState, d: DbState, s': RefState, handle: Handle, settled: Run, now: Time)
    requires RefOk(s, now) && SameLiveKeys(s, d, now) && handle in d.runs
    requires RefSettled(s, s', handle, settled, now)
    ensures SameLiveKeys(s', Db.Settle(d, handle, settled, now), now) && RefOk(s', now)
  {
  }

  /** Settling releases no rate lease. */
  lemma SettleCounts(fx: Fixed, s: RefState, d: DbState, s': RefState, handle: Handle, settled: Run, now: Time,
                     k: WindowKey, n: Time)
    requires handle in d.runs && RowOk(fx, d.leases, d.runs[handle], now)
    requires SameCount(fx, s, d, k, n) && s'.windows == s.windows
    ensures SameCount(fx, s', Db.Settle(d, handle, settled, now), k, n)
  {
    assert Db.LiveLeases(Db.Settle(d, handle, settled, now).leases, fx.workspaceOf(k.app), Db.RateOp(k), n) ==
           Db.LiveLeases(d.leases, fx.workspaceOf(k.app), Db.RateOp(k), n);
  }

  /** A settled or missing run in the database: whatever the reference does to an expired copy is invisible. */
  lemma ExpiredKeeps(fx: Fixed, s: RefState, d: DbState, s': RefState, handle: Handle, now: Time)
    requires Related(fx, s, d, now)
    requires s'.idem == s.idem && s'.windows == s.windows && s'.runs.Keys == s.runs.Keys
    requires forall h :: h in s.runs && h != handle ==> s'.runs[h] == s.runs[h]
    requires handle in s.runs ==>
               s'.runs[handle].expiresAt == s.runs[handle].expiresAt && s.runs[handle].expiresAt <= now
    ensures Related(fx, s', d, now)
  {
    forall k, n | n >= now ensures SameCount(fx, s', d, k, n) {
      assert SameCount(fx, s, d, k, n);
    }
  }

  // ---------------------------------------------------------------- status

  /** What the relation says about one run. */
  lemma SameRun(fx: Fixed, s: RefState, d: DbState, h: Handle, now: Time)
    requires Related(fx, s, d, now)
    ensures h in s.runs ==> h in d.runs
    ensures h in s.runs && s.runs[h].expiresAt > now ==> d.runs[h].run == s.runs[h]
    ensures h in d.runs && d.runs[h].run.expiresAt > now ==> h in s.runs && s.runs[h] == d.runs[h].run
    ensures h in s.runs && h in d.runs && s.runs[h].expiresAt <= now ==> d.runs[h].run.expiresAt <= now
    ensures h in d.runs && d.runs[h].run.Unsettled() ==> d.runs[h].run.output.None? && d.runs[h].run.error.None?
    ensures h in d.runs && d.runs[h].run.status == Completed ==> d.runs[h].run.error.None?
  {
    hide RefOk, SameLiveKeys, SameCount;
    if h in d.runs { assert RowOk(fx, d.leases, d.runs[h], now); }
  }

  lemma DifferentRun(fx: Fixed, s: RefState, d: DbState, h: Handle, now: Time)
    requires h in s.runs && s.runs[h].expiresAt > now && h in d.runs && d.runs[h].run != s.runs[h]
    ensures !Related(fx, s, d, now)
  {
    hide RefOk, DbOk, SameLiveKeys, SameCount;
  }

  /** A timed-out run asked for by someone who may not see it: only the reference settles it. */
  predicate LateStranger(s: RefState, handle: Handle, q: Query, now: Time) {
    && handle in s.runs && Ref.InScope(s.runs[handle], q, now) && !Ref.IsOriginator(s.runs[handle], q)
    && s.runs[handle].Unsettled() && s.runs[handle].timeoutAt <= now
  }

  /** Settling the reference's copy of a live run is settling the durable one. */
  lemma RefSettles(s: RefState, handle: Handle, settled: Run, now: Time)
    requires handle in s.runs && settled.expiresAt == s.runs[handle].expiresAt
    ensures RefSettled(s, s.(runs := s.runs[handle := settled]), handle, settled, now)
  {
  }

  /** `status` always answers alike; it keeps the relation exactly when the asker is no late stranger. */
  lemma StatusRefines(fx: Fixed, s: RefState, d: DbState, handle: Handle, q: Query, now: Time)
    requires Related(fx, s, d, now)
    ensures var (s', o) := Ref.ReadStatus(s, handle, q, now);
            var (d', o') := Db.ReadStatus(d, handle, q, now);
            && o == o'
            && (Related(fx, s', d', now) <==> !LateStranger(s, handle, q, now))
  {
    hide Related, Db.Settle;
    var s', d' := Ref.ReadStatus(s, handle, q, now).0, Db.ReadStatus(d, handle, q, now).0;
    SameRun(fx, s, d, handle, now);
    if handle in s.runs && Ref.InScope(s.runs[handle], q, now) {
      var run := s.runs[handle];
      if run.Unsettled() && run.timeoutAt <= now {
        if Ref.IsOriginator(run, q) {
          RefSettles(s, handle, SettleTimeout(run, now), now);
          hide RefSettled;
          SettleKeeps(fx, s, d, s', handle, Db.MarkFailed(run, TimedOut), now);
        } else {
          DifferentRun(fx, s', d', handle, now);
        }
      } else {
        assert s'.runs == s.runs;
      }
    }
  }

  // ---------------------------------------------------------------- complete and cancel

  /** A repeated report that leaves the reference's settled run as it is. */
  predicate RepeatHarmless(cfg: Config, run: Run, report: Report) {
    || run.status == Failed
    || (&& run.status == Completed && report.WorkerValue?
        && cfg.encodedSize(ProjectOutput(report.value, run.fields)) <= run.maxOutputBytes
        && ProjectOutput(report.value, run.fields) == run.output)
  }

  /** The reference still remembers a handle that has expired. */
  predicate Remembered(s: RefState, d: DbState, handle: Handle, now: Time) {
    handle in d.runs && d.runs[handle].run.expiresAt <= now ==> handle in s.runs
  }

  predicate CompleteAgrees(cfg: Config, s: RefState, d: DbState, handle: Handle, report: Report, now: Time) {
    && Remembered(s, d, handle, now)
    && (handle in d.runs && d.runs[handle].run.expiresAt > now ==>
          d.runs[handle].run.Unsettled() || RepeatHarmless(cfg, d.runs[handle].run, report))
  }

  /** Both services make the same of a first report. */
  lemma FirstReportAlike(cfg: Config, run: Run, report: Report, now: Time)
    requires run.Unsettled() && run.output.None? && run.error.None?
    ensures Ref.CompleteRun(cfg, run, report, now) == Db.CompletedRun(cfg, run, report, now)
    ensures Finishes(run, Db.CompletedRun(cfg, run, report, now))
  {
  }

  /**
    `complete` answers alike and keeps the relation exactly when the handle is not forgotten
    and, if the run is already settled, the repeated report changes nothing.
   */
  lemma CompleteRefines(cfg: Config, fx: Fixed, s: RefState, d: DbState, handle: Handle, report: Report, now: Time)
    requires Related(fx, s, d, now)
    ensures var (s', o) := Ref.Complete(cfg, s, handle, report, now);
            var (d', o') := Db.Complete(cfg, d, handle, report, now);
            (o == o' && Related(fx, s', d', now)) <==> CompleteAgrees(cfg, s, d, handle, report, now)
  {
    if handle in d.runs {
      CompleteKnown(cfg, fx, s, d, handle, report, now);
    }
  }

  lemma CompleteKnown(cfg: Config, fx: Fixed, s: RefState, d: DbState, handle: Handle, report: Report, now: Time)
    requires Related(fx, s, d, now) && handle in d.runs
    ensures Related(fx, Ref.Complete(cfg, s, handle, report, now).0, Db.Complete(cfg, d, handle, report, now).0, now) <==>
            (d.runs[handle].run.expiresAt > now ==>
               d.runs[handle].run.Unsettled() || RepeatHarmless(cfg, d.runs[handle].run, report))
  {
    hide Related, Ref.Complete, RepeatHarmless;
    if d.runs[handle].run.Unsettled() {
      CompleteUnsettled(cfg, fx, s, d, handle, report, now);
    } else {
      CompleteSettled(cfg, fx, s, d, handle, report, now);
    }
  }

  lemma CompleteUnsettled(cfg: Config, fx: Fixed, s: RefState, d: DbState, handle: Handle, report: Report, now: Time)
    requires Related(fx, s, d, now) && handle in d.runs && d.runs[handle].run.Unsettled()
    ensures Related(fx, Ref.Complete(cfg, s, handle, report, now).0, Db.Complete(cfg, d, handle, report, now).0, now)
  {
    var run := d.runs[handle].run;
    SameRun(fx, s, d, handle, now);
    FirstReportAlike(cfg, run, report, now);
    if handle in s.runs { CompleteKeepsExpiry(cfg, s.runs[handle], report, now); }
    hide Related, Db.Settle, Ref.CompleteRun, Db.CompletedRun, Finishes;
    CompleteSettles(cfg, s, handle, Db.CompletedRun(cfg, run, report, now), report, now);
    hide RefSettled, Ref.Complete;
    SettleKeeps(fx, s, d, Ref.Complete(cfg, s, handle, report, now).0, handle, Db.CompletedRun(cfg, run, report, now), now);
  }

  lemma CompleteSettles(cfg: Config, s: RefState, handle: Handle, settled: Run, report: Report, now: Time)
    requires handle in s.runs && s.runs[handle].expiresAt > now ==> Ref.CompleteRun(cfg, s.runs[handle], report, now) == settled
    ensures RefSettled(s, Ref.Complete(cfg, s, handle, report, now).0, handle, settled, now)
  {
    if handle in s.runs { CompleteKeepsExpiry(cfg, s.runs[handle], report, now); }
    hide Ref.CompleteRun;
  }

  lemma CompleteSettled(cfg: Config, fx: Fixed, s: RefState, d: DbState, handle: Handle, report: Report, now: Time)
    requires Related(fx, s, d, now) && handle in d.runs && !d.runs[handle].run.Unsettled()
    ensures Related(fx, Ref.Complete(cfg, s, handle, report, now).0, d, now) <==>
            (d.runs[handle].run.expiresAt > now ==> RepeatHarmless(cfg, d.runs[handle].run, report))
  {
    var s' := Ref.Complete(cfg, s, handle, report, now).0;
    var run := d.runs[handle].run;
    SameRun(fx, s, d, handle, now);
    if handle in s.runs { CompleteKeepsExpiry(cfg, s.runs[handle], report, now); }
    hide Related, Ref.CompleteRun, RepeatHarmless;
    if run.expiresAt <= now {
      if handle in s.runs { ExpiredKeeps(fx, s, d, s', handle, now); }
    } else {
      RepeatChanges(cfg, run, report, now);
      if Ref.CompleteRun(cfg, run, report, now) == run {
        assert s'.runs == s.runs;
      } else {
        DifferentRun(fx, s', d, handle, now);
      }
    }
  }

  lemma CompleteKeepsExpiry(cfg: Config, run: Run, report: Report, now: Time)
    ensures Ref.CompleteRun(cfg, run, report, now).expiresAt == run.expiresAt
  {
  }

  /** The reference leaves a settled run alone exactly when the repeated report is harmless. */
  lemma RepeatChanges(cfg: Config, run: Run, report: Report, now: Time)
    requires !run.Unsettled() && (run.status == Completed ==> run.error.None?)
    ensures Ref.CompleteRun(cfg, run, report, now) == run <==> RepeatHarmless(cfg, run, report)
  {
  }

  /** So a late report revives a cancelled run in the reference only: the two part ways for good. */
  lemma CancelledRunRevived(cfg: Config, fx: Fixed, s: RefState, d: DbState, handle: Handle, value: Option<map<string, string>>, now: Time)
    requires Related(fx, s, d, now) && handle in s.runs && s.runs[handle].expiresAt > now && s.runs[handle].status == Cancelled
    requires cfg.encodedSize(ProjectOutput(value, s.runs[handle].fields)) <= s.runs[handle].maxOutputBytes
    ensures Ref.Complete(cfg, s, handle, WorkerValue(value), now).0.runs[handle].status == Completed
    ensures handle in d.runs && Db.Complete(cfg, d, handle, WorkerValue(value), now) == (d, Done)
    ensures d.runs[handle].run.status == Cancelled
    ensures !Related(fx, Ref.Complete(cfg, s, handle, WorkerValue(value), now).0, d, now)
  {
    SameRun(fx, s, d, handle, now);
    hide Related, ProjectOutput;
    DifferentRun(fx, Ref.Complete(cfg, s, handle, WorkerValue(value), now).0, d, handle, now);
  }

  /** `cancel` answers alike exactly when the handle is not forgotten, and always keeps the relation. */
  lemma CancelRefines(fx: Fixed, s: RefState, d: DbState, handle: Handle, now: Time)
    requires Related(fx, s, d, now)
    ensures var (s', o) := Ref.Cancel(s, handle);
            var (d', o') := Db.Cancel(d, handle, now);
            && (o == o' <==> Remembered(s, d, handle, now))
            && Related(fx, s', d', now)
  {
    SameRun(fx, s, d, handle, now);
    hide Related;
    if handle in d.runs {
      if d.runs[handle].run.Unsettled() { CancelUnsettled(fx, s, d, handle, now); } else { CancelSettled(fx, s, d, handle, now); }
    }
  }

  lemma CancelUnsettled(fx: Fixed, s: RefState, d: DbState, handle: Handle, now: Time)
    requires Related(fx, s, d, now) && handle in d.runs && d.runs[handle].run.Unsettled()
    ensures Related(fx, Ref.Cancel(s, handle).0, Db.Cancel(d, handle, now).0, now)
  {
    var run := d.runs[handle].run;
    SameRun(fx, s, d, handle, now);
    CancelSettles(s, handle, run, now);
    hide Related, RefSettled, Db.Settle, Ref.Cancel;
    SettleKeeps(fx, s, d, Ref.Cancel(s, handle).0, handle, run.(status := Cancelled), now);
  }

  lemma CancelSettled(fx: Fixed, s: RefState, d: DbState, handle: Handle, now: Time)
    requires Related(fx, s, d, now) && handle in d.runs && !d.runs[handle].run.Unsettled()
    ensures Related(fx, Ref.Cancel(s, handle).0, d, now)
  {
    var s' := Ref.Cancel(s, handle).0;
    SameRun(fx, s, d, handle, now);
    hide Related;
    if d.runs[handle].run.expiresAt <= now {
      if handle in s.runs { ExpiredKeeps(fx, s, d, s', handle, now); }
    } else {
      assert s'.runs == s.runs;
    }
  }

  lemma CancelSettles(s: RefState, handle: Handle, run: Run, now: Time)
    requires handle in s.runs && s.runs[handle].expiresAt > now ==> s.runs[handle] == run && run.Unsettled()
    ensures RefSettled(s, Ref.Cancel(s, handle).0, handle, run.(status := Cancelled), now)
  {
  }

  // ---------------------------------------------------------------- whole runs

  datatype Op =
    | AcceptOp(req: Request, token: Handle, ids: seq<LeaseId>)
    | StatusOp(handle: Handle, q: Query)
    | CompleteOp(handle: Handle, report: Report)
    | CancelOp(handle: Handle)

  /** An operation and the instant it read. */
  datatype Event = Event(op: Op, now: Time)

  datatype Answer =
    | AcceptAnswer(accepted: AcceptOutcome)
    | StatusAnswer(shown: StatusOutcome)
    | SettleAnswer(settled: SettleOutcome)

  function RefDo(cfg: Config, s: RefState, e: Event): (RefState, Answer) {
    match e.op
    case AcceptOp(req, token, _) => var (s', o) := Ref.Accept(cfg, s, req, e.now, token); (s', AcceptAnswer(o))
    case StatusOp(handle, q) => var (s', o) := Ref.ReadStatus(s, handle, q, e.now); (s', StatusAnswer(o))
    case CompleteOp(handle, report) => var (s', o) := Ref.Complete(cfg, s, handle, report, e.now); (s', SettleAnswer(o))
    case CancelOp(handle) => var (s', o) := Ref.Cancel(s, handle); (s', SettleAnswer(o))
  }

  function DbDo(cfg: Config, d: DbState, e: Event): (DbState, Answer)
    requires e.op.AcceptOp? ==> |e.op.ids| == Db.MAX_LEASES
  {
    match e.op
    case AcceptOp(req, token, ids) => var (d', o) := Db.Accept(cfg, d, req, e.now, token, ids); (d', AcceptAnswer(o))
    case StatusOp(handle, q) => var (d', o) := Db.ReadStatus(d, handle, q, e.now); (d', StatusAnswer(o))
    case CompleteOp(handle, report) => var (d', o) := Db.Complete(cfg, d, handle, report, e.now); (d', SettleAnswer(o))
    case CancelOp(handle) => var (d', o) := Db.Cancel(d, handle, e.now); (d', SettleAnswer(o))
  }

  /** A late stranger has made the reference settle this run, and the database has not settled it yet. */
  predicate Ahead(s: RefState, d: DbState, handle: Handle, now: Time) {
    handle in s.runs && handle in d.runs && s.runs[handle].expiresAt > now && s.runs[handle] != d.runs[handle].run
  }

  /** The request repeats the one that such a run came from. */
  predicate ReplaysAhead(cfg: Config, s: RefState, d: DbState, req: Request, now: Time) {
    ReplayedRun(cfg, s, req, now).Some? && Ahead(s, d, ReplayedRun(cfg, s, req, now).value, now)
  }

  /** The run a request replays, if it replays one. */
  function ReplayedRun(cfg: Config, s: RefState, req: Request, now: Time): Option<Handle> {
    var idem := Ref.Prune(s, now).idem;
    if Gate(cfg, req).None? && ScopeOf(req) in idem && idem[ScopeOf(req)].request == req.payload then Some(idem[ScopeOf(req)].handle)
    else None
  }

  /**
    Fresh tokens, fixed limits, and none of the situations in which the services part ways. Every
    `status` is covered, a late stranger's too; then a replay or `cancel` of that run is not,
    until the database has settled it.
   */
  ghost predicate Covered(cfg: Config, fx: Fixed, s: RefState, d: DbState, e: Event) {
    match e.op
    case AcceptOp(req, token, ids) =>
      Regular(cfg, fx, req, e.now) && FreshTokens(s, d, token, ids) && !ReplaysAhead(cfg, s, d, req, e.now)
    case StatusOp(_, _) => true
    case CompleteOp(handle, report) => CompleteAgrees(cfg, s, d, handle, report, e.now)
    case CancelOp(handle) => Remembered(s, d, handle, e.now) && !Ahead(s, d, handle, e.now)
  }

  /** A run of covered operations at nondecreasing times, from `last` on. */
  ghost predicate CoveredRun(cfg: Config, fx: Fixed, s: RefState, d: DbState, events: seq<Event>, last: Time)
    decreases |events|
  {
    events == [] ||
    (&& last <= events[0].now && Covered(cfg, fx, s, d, events[0])
     && CoveredRun(cfg, fx, RefDo(cfg, s, events[0]).0, DbDo(cfg, d, events[0]).0, events[1..], events[0].now))
  }

  predicate Alike(a: Answer, a': Answer) {
    a == a' || (a.AcceptAnswer? && a'.AcceptAnswer? && AcceptsAlike(a.accepted, a'.accepted))
  }

  /** Every operation of the run gets the same kind of answer from both services. */
  ghost predicate AlikeThroughout(cfg: Config, s: RefState, d: DbState, events: seq<Event>)
    requires forall i :: 0 <= i < |events| && events[i].op.AcceptOp? ==> |events[i].op.ids| == Db.MAX_LEASES
    decreases |events|
  {
    events == [] ||
    (&& Alike(RefDo(cfg, s, events[0]).1, DbDo(cfg, d, events[0]).1)
     && AlikeThroughout(cfg, RefDo(cfg, s, events[0]).0, DbDo(cfg, d, events[0]).0, events[1..]))
  }

  // ---------------------------------------------------------------- a reference that is ahead

  /** `s` is `r`, except that some of the live runs whose time is over are already settled. */
  ghost predicate SettledAhead(r: RefState, s: RefState, now: Time) {
    && s.idem == r.idem && s.windows == r.windows && s.runs.Keys == r.runs.Keys
    && forall h :: h in r.runs ==> RunAhead(r.runs[h], s.runs[h], now)
  }

  predicate RunAhead(run: Run, run': Run, now: Time) {
    && run'.expiresAt == run.expiresAt
    && (run.expiresAt > now ==> run' == run || run' == SettleTimeout(run, now))
  }

  lemma AheadLater(r: RefState, s: RefState, now: Time, later: Time)
    requires SettledAhead(r, s, now) && now <= later
    ensures SettledAhead(r, s, later)
  {
    forall h | h in r.runs ensures RunAhead(r.runs[h], s.runs[h], later) {
      assert RunAhead(r.runs[h], s.runs[h], now);
    }
  }

  lemma PruneAhead(r: RefState, s: RefState, now: Time)
    requires SettledAhead(r, s, now)
    ensures SettledAhead(Ref.Prune(r, now), Ref.Prune(s, now), now)
  {
    var p, p' := Ref.Prune(r, now), Ref.Prune(s, now);
    assert forall h :: h in r.runs ==> RunAhead(r.runs[h], s.runs[h], now);
    hide RunAhead;
    assert forall h :: h in r.runs ==> s.runs[h].expiresAt == r.runs[h].expiresAt by {
      forall h | h in r.runs ensures s.runs[h].expiresAt == r.runs[h].expiresAt { SameExpiry(r.runs[h], s.runs[h], now); }
    }
    assert p.runs.Keys == p'.runs.Keys;
    assert p.idem == p'.idem;
  }

  lemma SameExpiry(run: Run, run': Run, now: Time)
    requires RunAhead(run, run', now)
    ensures run'.expiresAt == run.expiresAt
  {
  }

  /** A run whose time is over occupies no slot, settled or not. */
  lemma LimitsAhead(r: RefState, s: RefState, req: Request, now: Time)
    requires SettledAhead(r, s, now)
    ensures Ref.EnforceLimits(s, req, now) == Ref.EnforceLimits(r, req, now)
  {
    forall app, binding ensures Ref.ConcurrentRuns(s.runs, app, binding, now) == Ref.ConcurrentRuns(r.runs, app, binding, now) {
      forall h | h in r.runs ensures Ref.OccupiesSlot(s.runs[h], app, binding, now) == Ref.OccupiesSlot(r.runs[h], app, binding, now) {
        assert RunAhead(r.runs[h], s.runs[h], now);
      }
    }
  }

  /** `accept` of the reference that is ahead answers as the other one does, unless it replays a run that the two show differently. */
  lemma AcceptAhead(cfg: Config, r: RefState, s: RefState, req: Request, now: Time, handle: Handle)
    requires SettledAhead(r, s, now)
    ensures var (r', o) := Ref.Accept(cfg, r, req, now, handle);
            var (s', o') := Ref.Accept(cfg, s, req, now, handle);
            && SettledAhead(r', s', now)
            && ReplayedRun(cfg, s, req, now) == ReplayedRun(cfg, r, req, now)
            && (o == o' <==> match ReplayedRun(cfg, r, req, now)
                             case None => true
                             case Some(h) => h in r.runs && h in s.runs && ViewOf(h, r.runs[h]) == ViewOf(h, s.runs[h]))
  {
    var p, p' := Ref.Prune(r, now), Ref.Prune(s, now);
    PruneAhead(r, s, now);
    PrunedRuns(r, now);
    PrunedRuns(s, now);
    LimitsAhead(p, p', req, now);
    hide Ref.EnforceLimits, Ref.Prune, Gate, RunAhead, ViewOf;
    if Gate(cfg, req).None? && ScopeOf(req) !in p.idem && Ref.EnforceLimits(p, req, now).1.None? {
      AcceptedAhead(p, p', ScopeOf(req), IdemEntry(req.payload, handle, NewRun(cfg, req, now).expiresAt), handle,
        NewRun(cfg, req, now), Ref.EnforceLimits(p, req, now).0, now);
    } else if Gate(cfg, req).None? && ScopeOf(req) !in p.idem {
      assert SettledAhead(p.(windows := Ref.EnforceLimits(p, req, now).0), p'.(windows := Ref.EnforceLimits(p, req, now).0), now);
    }
  }

  /** A new run on both sides. */
  lemma AcceptedAhead(p: RefState, p': RefState, scope: Scope, entry: IdemEntry, handle: Handle, run: Run,
                      windows: map<WindowKey, seq<Time>>, now: Time)
    requires SettledAhead(p, p', now)
    ensures SettledAhead(Ref.RefState(p.runs[handle := run], p.idem[scope := entry], windows),
              Ref.RefState(p'.runs[handle := run], p'.idem[scope := entry], windows), now)
  {
    assert RunAhead(run, run, now);
    hide RunAhead;
  }

  /** Pruning drops entries and expired runs, and changes neither. */
  lemma PrunedRuns(s: RefState, now: Time)
    ensures var p := Ref.Prune(s, now);
            && (forall k :: k in p.idem ==> k in s.idem && p.idem[k] == s.idem[k] && p.idem[k].handle in p.runs)
            && (forall h :: h in p.runs ==> h in s.runs && p.runs[h] == s.runs[h] && s.runs[h].expiresAt > now)
  {
  }

  /** Replacing one run on both sides. */
  lemma PutAhead(r: RefState, s: RefState, handle: Handle, run: Run, run': Run, now: Time)
    requires SettledAhead(r, s, now) && handle in r.runs && RunAhead(run, run', now)
    ensures SettledAhead(r.(runs := r.runs[handle := run]), s.(runs := s.runs[handle := run']), now)
  {
    hide RunAhead;
  }

  /** `status`, `complete` and `cancel` of one run, as the reference that is ahead does them. */
  lemma SettleAhead(cfg: Config, r: RefState, s: RefState, e: Event)
    requires SettledAhead(r, s, e.now) && !e.op.AcceptOp?
    requires e.op.CancelOp? && e.op.handle in r.runs && r.runs[e.op.handle].expiresAt > e.now ==>
               s.runs[e.op.handle] == r.runs[e.op.handle]
    ensures RefDo(cfg, s, e).1 == RefDo(cfg, r, e).1
    ensures SettledAhead(RefDo(cfg, r, e).0, RefDo(cfg, s, e).0, e.now)
    ensures e.op.StatusOp? && LateStranger(r, e.op.handle, e.op.q, e.now) ==> SettledAhead(r, RefDo(cfg, s, e).0, e.now)
  {
    var handle, now := e.op.handle, e.now;
    if handle in r.runs {
      var run, run' := r.runs[handle], s.runs[handle];
      assert RunAhead(run, run', now);
      assert r.(runs := r.runs[handle := run]) == r;
      match e.op
      case StatusOp(_, q) =>
        PutAhead(r, s, handle, SettleTimeout(run, now), SettleTimeout(run', now), now);
        PutAhead(r, s, handle, run, SettleTimeout(run', now), now);
        hide SettledAhead;
      case CompleteOp(_, report) =>
        CompleteKeepsExpiry(cfg, run, report, now);
        CompleteKeepsExpiry(cfg, run', report, now);
        PutAhead(r, s, handle, Ref.CompleteRun(cfg, run, report, now), Ref.CompleteRun(cfg, run', report, now), now);
        hide SettledAhead;
      case CancelOp(_) =>
        PutAhead(r, s, handle, Ref.CancelRun(run), Ref.CancelRun(run'), now);
        hide SettledAhead;
    }
  }

  /** The reference without the settlements only a stranger asked for: it stands still when one asks. */
  function Behind(cfg: Config, r: RefState, e: Event): RefState {
    if e.op.StatusOp? && LateStranger(r, e.op.handle, e.op.q, e.now) then r else RefDo(cfg, r, e).0
  }

  /** What is covered for the reference that is ahead is covered for the one behind, but for late strangers. */
  lemma CoveredBehind(cfg: Config, fx: Fixed, r: RefState, s: RefState, d: DbState, e: Event)
    requires Related(fx, r, d, e.now) && SettledAhead(r, s, e.now) && Covered(cfg, fx, s, d, e)
    ensures var op := e.op;
            match op
            case AcceptOp(req, token, ids) => Regular(cfg, fx, req, e.now) && FreshTokens(r, d, token, ids)
            case StatusOp(_, _) => true
            case CompleteOp(handle, report) => CompleteAgrees(cfg, r, d, handle, report, e.now)
            case CancelOp(handle) =>
              Remembered(r, d, handle, e.now) &&
              (handle in r.runs && r.runs[handle].expiresAt > e.now ==> s.runs[handle] == r.runs[handle])
  {
    hide Regular, RepeatHarmless;
    if e.op.CancelOp? {
      SameRun(fx, r, d, e.op.handle, e.now);
      if e.op.handle in r.runs { assert RunAhead(r.runs[e.op.handle], s.runs[e.op.handle], e.now); }
    }
    hide Related;
  }

  /** Two references answer a request alike exactly when it does not replay a run the one is ahead with. */
  lemma ReplayBehind(cfg: Config, fx: Fixed, r: RefState, s: RefState, d: DbState, req: Request, now: Time, token: Handle)
    requires Related(fx, r, d, now) && SettledAhead(r, s, now)
    ensures Ref.Accept(cfg, s, req, now, token).1 == Ref.Accept(cfg, r, req, now, token).1 <==> !ReplaysAhead(cfg, s, d, req, now)
  {
    AcceptAhead(cfg, r, s, req, now, token);
    hide Related, Ref.Accept, SettledAhead;
    if ReplayedRun(cfg, r, req, now).Some? {
      var h := ReplayedRun(cfg, r, req, now).value;
      ReplayedIsLive(cfg, r, req, now);
      hide ReplayedRun;
      SameRun(fx, r, d, h, now);
      AheadShows(r, s, h, now);
      hide ViewOf;
    }
  }

  /** Cancelling such a run parts the two for good: failed here, cancelled there. */
  lemma CancelAheadParts(fx: Fixed, r: RefState, s: RefState, d: DbState, handle: Handle, now: Time)
    requires Related(fx, r, d, now) && SettledAhead(r, s, now) && Ahead(s, d, handle, now)
    ensures var s', d' := Ref.Cancel(s, handle).0, Db.Cancel(d, handle, now).0;
            && handle in s'.runs && s'.runs[handle].status == Failed
            && handle in d'.runs && d'.runs[handle].run.status == Cancelled
  {
    SameRun(fx, r, d, handle, now);
    hide Related;
    assert RunAhead(r.runs[handle], s.runs[handle], now);
    hide SettledAhead;
  }

  lemma ReplayedIsLive(cfg: Config, s: RefState, req: Request, now: Time)
    requires ReplayedRun(cfg, s, req, now).Some?
    ensures var h := ReplayedRun(cfg, s, req, now).value; h in s.runs && s.runs[h].expiresAt > now
  {
    PrunedRuns(s, now);
    hide Ref.Prune, Gate;
  }

  /** A visitor sees whether a live run has been settled ahead. */
  lemma AheadShows(r: RefState, s: RefState, h: Handle, now: Time)
    requires SettledAhead(r, s, now) && h in r.runs && r.runs[h].expiresAt > now
    ensures h in s.runs && s.runs[h].expiresAt > now
    ensures ViewOf(h, r.runs[h]) == ViewOf(h, s.runs[h]) <==> r.runs[h] == s.runs[h]
  {
    assert RunAhead(r.runs[h], s.runs[h], now);
  }

  /** One covered operation. */
  lemma StepRefines(cfg: Config, fx: Fixed, r: RefState, s: RefState, d: DbState, e: Event)
    requires Related(fx, r, d, e.now) && SettledAhead(r, s, e.now) && Covered(cfg, fx, s, d, e)
    ensures var (s', a) := RefDo(cfg, s, e);
            var (d', a') := DbDo(cfg, d, e);
            Alike(a, a') && Related(fx, Behind(cfg, r, e), d', e.now) && SettledAhead(Behind(cfg, r, e), s', e.now)
  {
    hide Related, SettledAhead, Regular, CompleteAgrees, Remembered, Ahead, ReplaysAhead, LateStranger;
    if e.op.AcceptOp? {
      AcceptStep(cfg, fx, r, s, d, e);
    } else {
      SettleStep(cfg, fx, r, s, d, e);
    }
  }

  lemma AcceptStep(cfg: Config, fx: Fixed, r: RefState, s: RefState, d: DbState, e: Event)
    requires Related(fx, r, d, e.now) && SettledAhead(r, s, e.now) && Covered(cfg, fx, s, d, e) && e.op.AcceptOp?
    ensures var (s', a) := RefDo(cfg, s, e);
            var (d', a') := DbDo(cfg, d, e);
            Alike(a, a') && Related(fx, Behind(cfg, r, e), d', e.now) && SettledAhead(Behind(cfg, r, e), s', e.now)
  {
    CoveredBehind(cfg, fx, r, s, d, e);
    hide Related, SettledAhead, Regular, FreshTokens, ReplaysAhead, ReplayedRun, Ref.Accept, Db.Accept, ViewOf;
    ReplayBehind(cfg, fx, r, s, d, e.op.req, e.now, e.op.token);
    AcceptAhead(cfg, r, s, e.op.req, e.now, e.op.token);
    AcceptRefines(cfg, fx, r, d, e.op.req, e.now, e.op.token, e.op.ids);
  }

  lemma SettleStep(cfg: Config, fx: Fixed, r: RefState, s: RefState, d: DbState, e: Event)
    requires Related(fx, r, d, e.now) && SettledAhead(r, s, e.now) && Covered(cfg, fx, s, d, e) && !e.op.AcceptOp?
    ensures var (s', a) := RefDo(cfg, s, e);
            var (d', a') := DbDo(cfg, d, e);
            Alike(a, a') && Related(fx, Behind(cfg, r, e), d', e.now) && SettledAhead(Behind(cfg, r, e), s', e.now)
  {
    CoveredBehind(cfg, fx, r, s, d, e);
    hide Related, SettledAhead, CompleteAgrees, Remembered, Ahead, LateStranger, Ref.ReadStatus, Ref.Complete, Ref.Cancel,
      Db.ReadStatus, Db.Complete, Db.Cancel;
    SettleAhead(cfg, r, s, e);
    match e.op
    case StatusOp(handle, q) =>
      StatusRefines(fx, r, d, handle, q, e.now);
      if LateStranger(r, handle, q, e.now) { StrangerChangesNothing(fx, r, d, handle, q, e.now); }
    case CompleteOp(handle, report) => CompleteRefines(cfg, fx, r, d, handle, report, e.now);
    case CancelOp(handle) => CancelRefines(fx, r, d, handle, e.now);
  }

  lemma StrangerChangesNothing(fx: Fixed, s: RefState, d: DbState, handle: Handle, q: Query, now: Time)
    requires Related(fx, s, d, now) && LateStranger(s, handle, q, now)
    ensures Db.ReadStatus(d, handle, q, now).0 == d
  {
    SameRun(fx, s, d, handle, now);
    hide Related;
  }

  lemma {:induction false} RunRefines(cfg: Config, fx: Fixed, r: RefState, s: RefState, d: DbState, events: seq<Event>, last: Time)
    requires Related(fx, r, d, last) && SettledAhead(r, s, last) && CoveredRun(cfg, fx, s, d, events, last)
    ensures forall i :: 0 <= i < |events| && events[i].op.AcceptOp? ==> |events[i].op.ids| == Db.MAX_LEASES
    ensures AlikeThroughout(cfg, s, d, events)
    decreases |events|
  {
    hide Related, SettledAhead;
    if events != [] {
      RelatedLater(fx, r, d, last, events[0].now);
      AheadLater(r, s, last, events[0].now);
      StepRefines(cfg, fx, r, s, d, events[0]);
      hide Behind;
      RunRefines(cfg, fx, Behind(cfg, r, events[0]), RefDo(cfg, s, events[0]).0, DbDo(cfg, d, events[0]).0, events[1..], events[0].now);
      assert forall i :: 1 <= i < |events| ==> events[i] == events[1..][i - 1];
    }
  }

  /** The durable service, started empty beside the reference, answers alike through every covered run. */
  lemma DurableRefinesReference(cfg: Config, fx: Fixed, events: seq<Event>, start: Time)
    requires CoveredRun(cfg, fx, Ref.RefState(map[], map[], map[]), Db.DbState(map[], map[], map[]), events, start)
    ensures forall i :: 0 <= i < |events| && events[i].op.AcceptOp? ==> |events[i].op.ids| == Db.MAX_LEASES
    ensures AlikeThroughout(cfg, Ref.RefState(map[], map[], map[]), Db.DbState(map[], map[], map[]), events)
  {
    var s0, d0 := Ref.RefState(map[], map[], map[]), Db.DbState(map[], map[], map[]);
    forall k, n ensures SameCount(fx, s0, d0, k, n) {
      assert Db.LiveLeases(d0.leases, fx.workspaceOf(k.app), Db.RateOp(k), n) == {};
    }
    RunRefines(cfg, fx, s0, s0, d0, events, start);
  }
}
