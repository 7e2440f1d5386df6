/**
  What an idempotency key promises in the reference runtime. Every operation reads its
  instant before it takes the lock, so instants may arrive out of order; all that is known
  is that an instant is not later than the clock at the moment the lock is held.
 */
module RuntimeIdempotency {
  import opened Common
  import opened RuntimeModel
  import opened ReferenceModel
  import R = RuntimeRefinement

  /** The key map and the run map name each other, with one expiry. */
  ghost predicate Agree(s: RefState) {
    && (forall k :: k in s.idem ==> Points(s, k))
    && (forall h :: h in s.runs ==> HasKey(s, h))
    && (forall k, k' :: k in s.idem && k' in s.idem && s.idem[k].handle == s.idem[k'].handle ==> k == k')
  }

  predicate Points(s: RefState, k: Scope)
    requires k in s.idem
  {
    s.idem[k].handle in s.runs && s.runs[s.idem[k].handle].expiresAt == s.idem[k].expiresAt
  }

  ghost predicate HasKey(s: RefState, h: Handle)
    requires h in s.runs
  {
    exists k :: k in s.idem && s.idem[k].handle == h && s.idem[k].expiresAt == s.runs[h].expiresAt
  }

  /** Pruning removes a key and its run together. */
  lemma PruneAgrees(s: RefState, now: Time)
    requires Agree(s)
    ensures Agree(Prune(s, now))
  {
    var p := Prune(s, now);
    forall k | k in p.idem ensures Points(p, k) {
      assert Points(s, k);
    }
    forall h | h in p.runs ensures HasKey(p, h) {
      assert HasKey(s, h);
      var k :| k in s.idem && s.idem[k].handle == h && s.idem[k].expiresAt == s.runs[h].expiresAt;
      assert k in p.idem;
    }
  }

  /** Changing runs without touching their expiry keeps the maps in agreement. */
  lemma SettleAgrees(s: RefState, runs: map<Handle, Run>)
    requires Agree(s) && runs.Keys == s.runs.Keys
    requires forall h :: h in runs ==> runs[h].expiresAt == s.runs[h].expiresAt
    ensures Agree(s.(runs := runs))
  {
    var s' := s.(runs := runs);
    forall k | k in s'.idem ensures Points(s', k) { assert Points(s, k); }
    forall h | h in s'.runs ensures HasKey(s', h) {
      assert HasKey(s, h);
      var k :| k in s.idem && s.idem[k].handle == h && s.idem[k].expiresAt == s.runs[h].expiresAt;
      assert k in s'.idem;
    }
  }

  /** Filing a fresh run under a free key keeps the maps in agreement. */
  lemma FileAgrees(s: RefState, handle: Handle, run: Run, scope: Scope, entry: IdemEntry)
    requires Agree(s) && handle !in s.runs && scope !in s.idem
    requires entry.handle == handle && entry.expiresAt == run.expiresAt
    ensures Agree(s.(runs := s.runs[handle := run], idem := s.idem[scope := entry]))
  {
    var s' := s.(runs := s.runs[handle := run], idem := s.idem[scope := entry]);
    forall k | k in s'.idem ensures Points(s', k) {
      if k != scope { assert Points(s, k); }
    }
    forall h | h in s'.runs ensures HasKey(s', h) {
      if h == handle {
        assert scope in s'.idem;
      } else {
        assert HasKey(s, h);
        var k :| k in s.idem && s.idem[k].handle == h && s.idem[k].expiresAt == s.runs[h].expiresAt;
        assert k in s'.idem;
      }
    }
    forall k | k in s.idem ensures s.idem[k].handle != handle { assert Points(s, k); }
  }

  /** Every operation keeps the two maps in agreement. */
  lemma StepAgrees(cfg: Config, s: RefState, e: R.Event)
    requires Agree(s) && (e.op.AcceptOp? ==> e.op.token !in s.runs)
    ensures Agree(R.RefDo(cfg, s, e).0)
  {
    hide Agree;
    var s' := R.RefDo(cfg, s, e).0;
    match e.op
    case AcceptOp(req, token, _) =>
      if Gate(cfg, req).None? {
        var p := Prune(s, e.now);
        PruneAgrees(s, e.now);
        var windows := EnforceLimits(p, req, e.now).0;
        WindowsIrrelevant(p, windows);
        if Accept(cfg, s, req, e.now, token).1.NewlyAccepted? {
          var run := NewRun(cfg, req, e.now);
          assert Agree(p.(windows := windows));
          FileAgrees(p.(windows := windows), token, run, ScopeOf(req), IdemEntry(req.payload, token, run.expiresAt));
        }
      }
    case StatusOp(_, _) => SettleAgrees(s, s'.runs);
    case CompleteOp(_, _) => SettleAgrees(s, s'.runs);
    case CancelOp(_) => SettleAgrees(s, s'.runs);
  }

  lemma WindowsIrrelevant(s: RefState, windows: map<WindowKey, seq<Time>>)
    requires Agree(s)
    ensures Agree(s.(windows := windows))
  {
    var s' := s.(windows := windows);
    forall k | k in s'.idem ensures Points(s', k) { assert Points(s, k); }
    forall h | h in s'.runs ensures HasKey(s', h) {
      assert HasKey(s, h);
      var k :| k in s.idem && s.idem[k].handle == h && s.idem[k].expiresAt == s.runs[h].expiresAt;
      assert k in s'.idem;
    }
  }

  // ---------------------------------------------------------------- one run per lifetime

  /** An operation together with the clock at the moment it holds the lock. */
  datatype Locked = Locked(event: R.Event, clock: Time)

  function After(cfg: Config, s: RefState, trace: seq<Locked>): RefState
    decreases |trace|
  {
    if trace == [] then s else After(cfg, R.RefDo(cfg, s, trace[0].event).0, trace[1..])
  }

  /** Tokens are fresh, instants are not later than the clock, and the clock does not run backwards. */
  ghost predicate Orderly(cfg: Config, s: RefState, trace: seq<Locked>, clock: Time)
    decreases |trace|
  {
    trace == [] ||
    (&& trace[0].event.now <= trace[0].clock && clock <= trace[0].clock
     && (trace[0].event.op.AcceptOp? ==> trace[0].event.op.token !in s.runs)
     && Orderly(cfg, R.RefDo(cfg, s, trace[0].event).0, trace[1..], trace[0].clock))
  }

  /** From empty maps on, every operation of an orderly run leaves them in agreement, so a replay always finds its run. */
  lemma {:induction false} AlwaysAgree(cfg: Config, s: RefState, trace: seq<Locked>, clock: Time)
    requires Agree(s) && Orderly(cfg, s, trace, clock)
    ensures Agree(After(cfg, s, trace))
    decreases |trace|
  {
    hide Agree;
    if trace != [] {
      StepAgrees(cfg, s, trace[0].event);
      AlwaysAgree(cfg, R.RefDo(cfg, s, trace[0].event).0, trace[1..], trace[0].clock);
    }
  }

  /** Does this operation create a run under `scope`? */
  predicate Creates(cfg: Config, s: RefState, e: R.Event, scope: Scope) {
    e.op.AcceptOp? && ScopeOf(e.op.req) == scope && R.RefDo(cfg, s, e).1.AcceptAnswer?
    && R.RefDo(cfg, s, e).1.accepted.NewlyAccepted?
  }

  /** Until the clock reaches `expiry`, `scope` stays taken. */
  predicate Taken(s: RefState, scope: Scope, expiry: Time, clock: Time) {
    clock >= expiry || (scope in s.idem && s.idem[scope].expiresAt == expiry && Points(s, scope))
  }

  lemma CreationTakes(cfg: Config, s: RefState, e: R.Event, scope: Scope, clock: Time)
    requires Creates(cfg, s, e, scope)
    ensures Taken(R.RefDo(cfg, s, e).0, scope, e.now + cfg.handleTtl, clock)
  {
  }

  /** While a scope is taken it stays taken, and no operation creates a run under it. */
  lemma TakenHolds(cfg: Config, s: RefState, l: Locked, scope: Scope, expiry: Time, clock: Time)
    requires Taken(s, scope, expiry, clock) && clock <= l.clock && l.event.now <= l.clock
    requires l.event.op.AcceptOp? ==> l.event.op.token !in s.runs
    ensures Taken(R.RefDo(cfg, s, l.event).0, scope, expiry, l.clock)
    ensures l.clock < expiry ==> !Creates(cfg, s, l.event, scope)
  {
    if l.clock < expiry {
      var e := l.event;
      if e.op.AcceptOp? && Gate(cfg, e.op.req).None? {
        var p := Prune(s, e.now);
        assert scope in p.idem && p.idem[scope].expiresAt == expiry && Points(p, scope);
      }
    }
  }

  /**
    One run per key and handle lifetime: once an operation created a run under a scope, the
    clock has passed that run's expiry before any later operation creates another.
   */
  lemma {:induction false} OneRunPerLifetime(cfg: Config, s: RefState, first: Locked, trace: seq<Locked>, last: Locked, scope: Scope)
    requires first.event.op.AcceptOp? && Creates(cfg, s, first.event, scope)
    requires Orderly(cfg, s, [first] + trace + [last], first.clock)
    requires Creates(cfg, After(cfg, R.RefDo(cfg, s, first.event).0, trace), last.event, scope)
    ensures last.clock >= first.event.now + cfg.handleTtl
  {
    var s1 := R.RefDo(cfg, s, first.event).0;
    CreationTakes(cfg, s, first.event, scope, first.clock);
    assert ([first] + trace + [last])[1..] == trace + [last];
    TakenUntil(cfg, s1, trace, last, scope, first.event.now + cfg.handleTtl, first.clock);
  }

  lemma {:induction false} TakenUntil(cfg: Config, s: RefState, trace: seq<Locked>, last: Locked, scope: Scope,
                                      expiry: Time, clock: Time)
    requires Taken(s, scope, expiry, clock) && Orderly(cfg, s, trace + [last], clock)
    requires Creates(cfg, After(cfg, s, trace), last.event, scope)
    ensures last.clock >= expiry
    decreases |trace|
  {
    if trace == [] {
      assert trace + [last] == [last];
      TakenHolds(cfg, s, last, scope, expiry, clock);
    } else {
      var l := trace[0];
      assert (trace + [last])[0] == l && (trace + [last])[1..] == trace[1..] + [last];
      TakenHolds(cfg, s, l, scope, expiry, clock);
      TakenUntil(cfg, R.RefDo(cfg, s, l.event).0, trace[1..], last, scope, expiry, l.clock);
    }
  }

  // ---------------------------------------------------------------- budgets

  /** How many recent events a window holds, as seen from any instant at or after `now`. */
  function Spent(s: RefState, k: WindowKey, t: Time): nat {
    R.CountAfter(Events(s.windows, k), t)
  }

  lemma {:induction false} TrimForgetsNothingRecent(events: seq<Time>, cutoff: Time, t: Time)
    requires t >= cutoff
    ensures R.CountAfter(Trim(events, cutoff), t) == R.CountAfter(events, t)
  {
    if events != [] && events[0] <= cutoff { TrimForgetsNothingRecent(events[1..], cutoff, t); }
  }

  lemma {:induction false} CheckSpendsNothing(windows: map<WindowKey, seq<Time>>, ws: seq<Window>, cutoff: Time, k: WindowKey, t: Time)
    requires t >= cutoff
    ensures R.CountAfter(Events(CheckWindows(windows, ws, cutoff).0, k), t) == R.CountAfter(Events(windows, k), t)
    decreases |ws|
  {
    if ws != [] {
      var events := Events(windows, ws[0].key);
      TrimForgetsNothingRecent(events, cutoff, t);
      CheckSpendsNothing(windows[ws[0].key := Trim(events, cutoff)], ws[1..], cutoff, k, t);
    }
  }

  /** Only a newly accepted run spends budget: a replay, a conflict or a refusal costs no rate event and no slot. */
  lemma OnlyAcceptanceSpends(cfg: Config, s: RefState, req: Request, now: Time, token: Handle, k: WindowKey, t: Time)
    requires t >= now - MINUTE && !Accept(cfg, s, req, now, token).1.NewlyAccepted?
    ensures var s' := Accept(cfg, s, req, now, token).0;
            && Spent(s', k, t) == Spent(s, k, t)
            && forall app, binding, n :: n >= now ==>
                 ConcurrentRuns(s'.runs, app, binding, n) == ConcurrentRuns(s.runs, app, binding, n)
  {
    PruneFreesNothing(s, now, k, t);
    hide Prune, ConcurrentRuns, CheckWindows, RecordEvents, Gate;
    if Gate(cfg, req).None? {
      CheckSpendsNothing(Prune(s, now).windows, RateWindows(req), now - MINUTE, k, t);
    }
  }

  /** Pruning drops only what no longer counts. */
  lemma PruneFreesNothing(s: RefState, now: Time, k: WindowKey, t: Time)
    requires t >= now - MINUTE
    ensures Spent(Prune(s, now), k, t) == Spent(s, k, t)
    ensures forall app, binding, n :: n >= now ==>
              ConcurrentRuns(Prune(s, now).runs, app, binding, n) == ConcurrentRuns(s.runs, app, binding, n)
  {
    if k in s.windows { TrimForgetsNothingRecent(s.windows[k], now - MINUTE, t); }
  }
}
