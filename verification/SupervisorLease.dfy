/**
  Competing listener runtimes and one subscription (src/orcheo/listeners/supervisor.py).

  Each runtime passes over the subscription again and again: it lists a copy of the row,
  decides from that copy whether to renew, claims, and starts or stops its adapter. Every
  repository call is one step; anything can happen between two steps, including a write of
  the subscription's status by an operator or by another runtime that recovers it.
 */
module SupervisorLease {
  import opened Common

  type Time = int
  type RuntimeId = nat

  datatype Status = Active | Blocked | Paused | Error | Disabled

  /** A subscription row: who holds it, and until when. */
  datatype Row = Row(status: Status, holder: Option<RuntimeId>, expires: Option<Time>)

  /** Half a lease; the source keeps leases a positive number of seconds long. */
  datatype Settings = Settings(half: Time)

  /** Where one runtime's pass stands. */
  datatype Phase =
    | Between                      // no pass under way
    | Listed(snapshot: Row)        // has its copy of the row
    | Recovered                    // unblocked the subscription, will claim it
    | Claimed                      // the claim went through, the adapter is to be started
    | Stopping                     // waits for its adapter to return

  /** `running`: the adapter's `run` has not returned. `known`: the subscription is in `_tasks`. */
  datatype Worker = Worker(phase: Phase, running: bool, known: bool, checked: Time)

  datatype State = State(clock: Time, row: Row, workers: map<RuntimeId, Worker>)

  /** What the adapter factory does when called. */
  datatype Build = Built | MissingCredentials(newError: bool) | BuildFailed

  datatype Action =
    | Tick(elapsed: nat)
    | List(r: RuntimeId)
    | Check(r: RuntimeId, build: Build)
    | Reclaim(r: RuntimeId)
    | Begin(r: RuntimeId, build: Build)
    | Return(r: RuntimeId)
    | Release(r: RuntimeId)
    | Forget(r: RuntimeId)
    | Resume(r: RuntimeId)
    | WriteStatus(status: Status)

  // ---------------------------------------------------------------- the repository

  /** Any status write drops the assignment. */
  function Written(status: Status): Row { Row(status, None, None) }

  predicate Claimable(row: Row, r: RuntimeId, now: Time) {
    && row.status == Active
    && !(row.holder.Some? && row.holder.value != r && row.expires.Some? && row.expires.value > now)
  }

  function ReleasedBy(row: Row, r: RuntimeId): Row {
    if row.holder == Some(r) then row.(holder := None, expires := None) else row
  }

  predicate Holds(row: Row, r: RuntimeId, now: Time) {
    row.holder == Some(r) && row.expires.Some? && row.expires.value > now
  }

  // ---------------------------------------------------------------- one runtime

  function Put(s: State, r: RuntimeId, w: Worker): State { s.(workers := s.workers[r := w]) }

  /** The pass found the subscription not its own: stop the adapter if there is one. */
  function Drop(w: Worker): Worker { w.(phase := if w.known then Stopping else Between) }

  function Claim(cfg: Settings, s: State, r: RuntimeId): State
    requires r in s.workers
  {
    var w := s.workers[r];
    if Claimable(s.row, r, s.clock) then
      Put(s.(row := s.row.(holder := Some(r), expires := Some(s.clock + 2 * cfg.half))), r, w.(phase := Claimed, checked := s.clock))
    else Put(s, r, Drop(w))
  }

  /** Is the renewal skipped because the copy shows more than half a lease left? */
  predicate Fresh(cfg: Settings, w: Worker, snapshot: Row, r: RuntimeId, now: Time) {
    w.known && Holds(snapshot, r, now + cfg.half)
  }

  function CheckOne(cfg: Settings, s: State, r: RuntimeId, build: Build): State
    requires r in s.workers && s.workers[r].phase.Listed?
  {
    var w := s.workers[r];
    var snapshot := w.phase.snapshot;
    if snapshot.status == Blocked then
      match build
      case Built => Put(s.(row := Written(Active)), r, w.(phase := Recovered))
      case MissingCredentials(newError) => Put(if newError then s.(row := Written(Blocked)) else s, r, Drop(w))
      case BuildFailed => Put(s, r, Drop(w))
    else if snapshot.status != Active then Put(s, r, Drop(w))
    else if Fresh(cfg, w, snapshot, r, s.clock) then Put(s, r, w.(phase := Between, checked := s.clock))
    else Claim(cfg, s, r)
  }

  function BeginOne(s: State, r: RuntimeId, build: Build): State
    requires r in s.workers
  {
    var w := s.workers[r].(phase := Between);
    if w.known then Put(s, r, w)
    else match build
      case Built => Put(s, r, w.(running := true, known := true))
      case MissingCredentials(_) => Put(s.(row := Written(Blocked)), r, w)
      case BuildFailed => Put(s.(row := ReleasedBy(s.row, r)), r, w)
  }

  function Step(cfg: Settings, s: State, a: Action): State {
    match a
    case Tick(elapsed) => s.(clock := s.clock + elapsed)
    case WriteStatus(status) => s.(row := Written(status))
    case List(r) =>
      if r in s.workers && s.workers[r].phase.Between? then Put(s, r, s.workers[r].(phase := Listed(s.row))) else s
    case Check(r, build) =>
      if r in s.workers && s.workers[r].phase.Listed? then CheckOne(cfg, s, r, build) else s
    case Reclaim(r) => if r in s.workers && s.workers[r].phase.Recovered? then Claim(cfg, s, r) else s
    case Begin(r, build) => if r in s.workers && s.workers[r].phase.Claimed? then BeginOne(s, r, build) else s
    case Return(r) => if r in s.workers then Put(s, r, s.workers[r].(running := false)) else s
    case Release(r) =>
      if r in s.workers && s.workers[r].known && !s.workers[r].running then s.(row := ReleasedBy(s.row, r)) else s
    case Forget(r) =>
      if r in s.workers && !s.workers[r].running then Put(s, r, s.workers[r].(known := false)) else s
    case Resume(r) =>
      if r in s.workers && s.workers[r].phase.Stopping? && !s.workers[r].known
      then Put(s, r, s.workers[r].(phase := Between)) else s
  }

  /** No adapter runs and nobody holds the subscription. */
  function Start(runtimes: set<RuntimeId>, clock: Time, status: Status): State {
    State(clock, Row(status, None, None), map r | r in runtimes :: Worker(Between, false, false, clock))
  }

  // ---------------------------------------------------------------- what is wanted, and when it holds

  predicate Running(s: State, r: RuntimeId) { r in s.workers && s.workers[r].running }

  /** Every running adapter holds an unexpired lease. */
  ghost predicate Leased(s: State) {
    forall r :: Running(s, r) ==> Holds(s.row, r, s.clock)
  }

  ghost predicate LeasedThroughout(cfg: Settings, s: State, actions: seq<Action>)
    decreases |actions|
  {
    Leased(s) && (actions != [] ==> LeasedThroughout(cfg, Step(cfg, s, actions[0]), actions[1..]))
  }

  /** Does this action write the subscription's status? */
  predicate WritesStatus(s: State, a: Action) {
    match a
    case WriteStatus(_) => true
    case Check(r, build) =>
      && r in s.workers && s.workers[r].phase.Listed? && s.workers[r].phase.snapshot.status == Blocked
      && (build.Built? || build == MissingCredentials(true))
    case Begin(r, build) => r in s.workers && s.workers[r].phase.Claimed? && !s.workers[r].known && build.MissingCredentials?
    case _ => false
  }

  /** Does this action start an adapter although the claim made for it was lost in the meantime? */
  predicate StartsUnclaimed(s: State, a: Action) {
    && a.Begin? && a.build.Built?
    && a.r in s.workers && s.workers[a.r].phase.Claimed? && !s.workers[a.r].known
    && s.row.holder != Some(a.r)
  }

  ghost predicate SomeoneRuns(s: State) { exists r :: Running(s, r) }

  /** A status write that lands on a running adapter, or a start after its claim was lost. */
  ghost predicate Disturbs(s: State, a: Action) {
    (WritesStatus(s, a) && SomeoneRuns(s)) || StartsUnclaimed(s, a)
  }

  ghost predicate Undisturbed(cfg: Settings, s: State, actions: seq<Action>)
    decreases |actions|
  {
    actions != [] ==> !Disturbs(s, actions[0]) && Undisturbed(cfg, Step(cfg, s, actions[0]), actions[1..])
  }

  /** Time does not pass a runtime's next check by more than half a lease. */
  ghost predicate PacedStep(cfg: Settings, s: State, a: Action) {
    a.Tick? ==> forall r :: r in s.workers && (s.workers[r].running || s.workers[r].phase.Claimed?) ==>
                  s.clock + a.elapsed <= s.workers[r].checked + cfg.half
  }

  ghost predicate Paced(cfg: Settings, s: State, actions: seq<Action>)
    decreases |actions|
  {
    actions != [] ==> PacedStep(cfg, s, actions[0]) && Paced(cfg, Step(cfg, s, actions[0]), actions[1..])
  }

  // ---------------------------------------------------------------- the invariant

  /** More than half a lease was left at the last check, and at most half a lease has passed since. */
  predicate Covered(cfg: Settings, s: State, w: Worker) {
    && s.row.expires.Some? && s.row.expires.value > w.checked + cfg.half
    && s.clock <= w.checked + cfg.half
  }

  ghost predicate WorkerOk(cfg: Settings, s: State, r: RuntimeId, w: Worker) {
    && (w.running ==> w.known && s.row.holder == Some(r) && Covered(cfg, s, w))
    && (w.running && w.phase.Listed? ==> w.phase.snapshot == s.row)
    && (w.running ==> !w.phase.Recovered?)
    && (w.phase.Claimed? && s.row.holder == Some(r) ==> Covered(cfg, s, w))
  }

  ghost predicate Invariant(cfg: Settings, s: State) {
    forall r :: r in s.workers ==> WorkerOk(cfg, s, r, s.workers[r])
  }

  lemma InvariantLeases(cfg: Settings, s: State)
    requires Invariant(cfg, s)
    ensures Leased(s)
  {
    forall r | Running(s, r) ensures Holds(s.row, r, s.clock) {
      assert WorkerOk(cfg, s, r, s.workers[r]);
    }
  }

  /** A claim keeps the invariant: it succeeds only if nobody else runs. */
  lemma ClaimKeeps(cfg: Settings, s: State, r: RuntimeId)
    requires cfg.half > 0 && Invariant(cfg, s) && r in s.workers && !s.workers[r].phase.Between?
    ensures Invariant(cfg, Claim(cfg, s, r))
  {
    var s' := Claim(cfg, s, r);
    assert WorkerOk(cfg, s, r, s.workers[r]);
    forall q | q in s'.workers ensures WorkerOk(cfg, s', q, s'.workers[q]) {
      assert WorkerOk(cfg, s, q, s.workers[q]);
    }
  }

  /** Replacing one worker, and perhaps the row when nobody runs. */
  lemma PutKeeps(cfg: Settings, s: State, r: RuntimeId, w: Worker, row: Row)
    requires Invariant(cfg, s) && r in s.workers
    requires WorkerOk(cfg, s.(row := row), r, w)
    requires row != s.row ==> row.holder.None? && !SomeoneRuns(s)
    ensures Invariant(cfg, Put(s.(row := row), r, w))
  {
    var s' := Put(s.(row := row), r, w);
    forall q | q in s'.workers ensures WorkerOk(cfg, s', q, s'.workers[q]) {
      assert WorkerOk(cfg, s, q, s.workers[q]);
      if row != s.row { assert !Running(s, q); }
    }
  }

  lemma CheckKeeps(cfg: Settings, s: State, r: RuntimeId, build: Build)
    requires cfg.half > 0 && Invariant(cfg, s) && r in s.workers && s.workers[r].phase.Listed?
    requires !Disturbs(s, Check(r, build))
    ensures Invariant(cfg, CheckOne(cfg, s, r, build))
  {
    var w := s.workers[r];
    var snapshot := w.phase.snapshot;
    assert WorkerOk(cfg, s, r, w);
    assert s.(row := s.row) == s;
    assert w.running ==> Running(s, r);
    ClaimKeeps(cfg, s, r);
    hide Invariant, Claim, Put;
    if snapshot.status == Blocked && build.Built? {
      PutKeeps(cfg, s, r, w.(phase := Recovered), Written(Active));
    } else if snapshot.status == Blocked && build == MissingCredentials(true) {
      PutKeeps(cfg, s, r, Drop(w), Written(Blocked));
    } else if snapshot.status != Active {
      PutKeeps(cfg, s, r, Drop(w), s.row);
    } else if Fresh(cfg, w, snapshot, r, s.clock) {
      PutKeeps(cfg, s, r, w.(phase := Between, checked := s.clock), s.row);
    }
  }

  lemma BeginKeeps(cfg: Settings, s: State, r: RuntimeId, build: Build)
    requires Invariant(cfg, s) && r in s.workers && s.workers[r].phase.Claimed?
    requires !Disturbs(s, Begin(r, build))
    ensures Invariant(cfg, BeginOne(s, r, build))
  {
    var w := s.workers[r].(phase := Between);
    assert WorkerOk(cfg, s, r, s.workers[r]);
    assert s.(row := s.row) == s;
    if w.known {
      PutKeeps(cfg, s, r, w, s.row);
    } else {
      match build
      case Built => PutKeeps(cfg, s, r, w.(running := true, known := true), s.row);
      case MissingCredentials(_) => PutKeeps(cfg, s, r, w, Written(Blocked));
      case BuildFailed =>
        NobodyElse(cfg, s, r);
        PutKeeps(cfg, s, r, w, ReleasedBy(s.row, r));
    }
  }

  /** If a runtime holds the row without running, nobody runs. */
  lemma NobodyElse(cfg: Settings, s: State, r: RuntimeId)
    requires Invariant(cfg, s) && r in s.workers && !s.workers[r].running
    ensures s.row.holder == Some(r) ==> !SomeoneRuns(s)
  {
    forall q ensures s.row.holder == Some(r) ==> !Running(s, q) {
      if q in s.workers { assert WorkerOk(cfg, s, q, s.workers[q]); }
    }
  }

  /** An undisturbed step at the required pace keeps the invariant. */
  lemma StepKeeps(cfg: Settings, s: State, a: Action)
    requires cfg.half > 0 && Invariant(cfg, s) && PacedStep(cfg, s, a) && !Disturbs(s, a)
    ensures Invariant(cfg, Step(cfg, s, a))
  {
    var s' := Step(cfg, s, a);
    match a
    case Check(r, build) => if s' != s { CheckKeeps(cfg, s, r, build); }
    case Reclaim(r) => if s' != s { ClaimKeeps(cfg, s, r); }
    case Begin(r, build) => if s' != s { BeginKeeps(cfg, s, r, build); }
    case Release(r) =>
      if s' != s {
        NobodyElse(cfg, s, r);
        PutKeeps(cfg, s, r, s.workers[r], ReleasedBy(s.row, r));
        assert s.workers[r := s.workers[r]] == s.workers;
      }
    case WriteStatus(_) =>
      forall q | q in s.workers ensures !s.workers[q].running { assert !Running(s, q); }
    case _ =>
      forall q | q in s'.workers ensures WorkerOk(cfg, s', q, s'.workers[q]) {
        assert WorkerOk(cfg, s, q, s.workers[q]);
      }
  }

  /** A disturbance leaves some running adapter without a lease. */
  lemma DisturbanceShows(cfg: Settings, s: State, a: Action)
    requires Invariant(cfg, s) && Disturbs(s, a)
    ensures !Leased(Step(cfg, s, a))
  {
    var s' := Step(cfg, s, a);
    if StartsUnclaimed(s, a) {
      assert Running(s', a.r) && !Holds(s'.row, a.r, s'.clock);
    } else {
      var r :| Running(s, r);
      assert WorkerOk(cfg, s, r, s.workers[r]);
      assert Running(s', r) && !Holds(s'.row, r, s'.clock);
    }
  }

  /**
    At the required pace, every running adapter holds an unexpired lease throughout a run
    exactly when no status write lands on a running adapter and no adapter is started after
    its claim was lost.
   */
  lemma {:induction false} LeasedIffUndisturbed(cfg: Settings, s: State, actions: seq<Action>)
    requires cfg.half > 0 && Invariant(cfg, s) && Paced(cfg, s, actions)
    ensures LeasedThroughout(cfg, s, actions) <==> Undisturbed(cfg, s, actions)
    decreases |actions|
  {
    InvariantLeases(cfg, s);
    hide Invariant, Disturbs, Leased, PacedStep, Step;
    if actions != [] {
      var s' := Step(cfg, s, actions[0]);
      if Disturbs(s, actions[0]) {
        DisturbanceShows(cfg, s, actions[0]);
      } else {
        StepKeeps(cfg, s, actions[0]);
        LeasedIffUndisturbed(cfg, s', actions[1..]);
      }
    }
  }

  lemma StartInvariant(cfg: Settings, runtimes: set<RuntimeId>, clock: Time, status: Status)
    ensures Invariant(cfg, Start(runtimes, clock, status))
  {
  }

  /** Two adapters never hold the lease at once, so leased adapters never overlap. */
  lemma LeasedExcludes(s: State, r1: RuntimeId, r2: RuntimeId)
    requires Leased(s) && Running(s, r1) && Running(s, r2)
    ensures r1 == r2
  {
    assert Holds(s.row, r1, s.clock) && Holds(s.row, r2, s.clock);
  }

  function After(cfg: Settings, s: State, actions: seq<Action>): State
    decreases |actions|
  {
    if actions == [] then s else After(cfg, Step(cfg, s, actions[0]), actions[1..])
  }

  lemma {:induction false} LeasedAtEnd(cfg: Settings, s: State, actions: seq<Action>)
    requires LeasedThroughout(cfg, s, actions)
    ensures Leased(After(cfg, s, actions))
    decreases |actions|
  {
    if actions != [] { LeasedAtEnd(cfg, Step(cfg, s, actions[0]), actions[1..]); }
  }

  /** In an undisturbed, paced run at most one runtime's adapter runs at any time. */
  lemma NeverTwoAdapters(cfg: Settings, runtimes: set<RuntimeId>, clock: Time, status: Status, actions: seq<Action>, r1: RuntimeId, r2: RuntimeId)
    requires cfg.half > 0
    requires Paced(cfg, Start(runtimes, clock, status), actions) && Undisturbed(cfg, Start(runtimes, clock, status), actions)
    requires var s := After(cfg, Start(runtimes, clock, status), actions); Running(s, r1) && Running(s, r2)
    ensures r1 == r2
  {
    StartInvariant(cfg, runtimes, clock, status);
    LeasedIffUndisturbed(cfg, Start(runtimes, clock, status), actions);
    LeasedAtEnd(cfg, Start(runtimes, clock, status), actions);
    LeasedExcludes(After(cfg, Start(runtimes, clock, status), actions), r1, r2);
  }

  lemma AfterCons(cfg: Settings, s: State, a: Action, s': State, rest: seq<Action>)
    requires Step(cfg, s, a) == s' && !a.Tick?
    ensures After(cfg, s, [a] + rest) == After(cfg, s', rest)
    ensures Paced(cfg, s', rest) ==> Paced(cfg, s, [a] + rest)
  {
    hide Step;
    assert ([a] + rest)[0] == a && ([a] + rest)[1..] == rest;
  }

  /** Runtime 0 runs the recovered adapter while runtime 1 still holds its copy of the blocked row. */
  function OneRecovered(cfg: Settings, clock: Time): State {
    State(clock, Row(Active, Some(0), Some(clock + 2 * cfg.half)),
      map[0 := Worker(Between, true, true, clock), 1 := Worker(Listed(Row(Blocked, None, None)), false, false, clock)])
  }

  /** The states on the way there. */
  function OnTheWay(cfg: Settings, clock: Time, i: nat): State {
    var blocked := Row(Blocked, None, None);
    var idle, listed := Worker(Between, false, false, clock), Worker(Listed(blocked), false, false, clock);
    match i
    case 0 => State(clock, blocked, map[0 := idle, 1 := idle])
    case 1 => State(clock, blocked, map[0 := listed, 1 := idle])
    case 2 => State(clock, blocked, map[0 := listed, 1 := listed])
    case 3 => State(clock, Row(Active, None, None), map[0 := listed.(phase := Recovered), 1 := listed])
    case 4 => State(clock, Row(Active, Some(0), Some(clock + 2 * cfg.half)), map[0 := listed.(phase := Claimed), 1 := listed])
    case _ => OneRecovered(cfg, clock)
  }

  function RecoveryStep(i: nat): Action {
    match i
    case 0 => List(0)
    case 1 => List(1)
    case 2 => Check(0, Built)
    case 3 => Reclaim(0)
    case _ => Begin(0, Built)
  }

  lemma RecoverySteps(cfg: Settings, clock: Time, i: nat)
    requires i < 5
    ensures Step(cfg, OnTheWay(cfg, clock, i), RecoveryStep(i)) == OnTheWay(cfg, clock, i + 1)
  {
  }

  /** The remaining steps to that state, from the i-th on, before `rest`. */
  function Recovering(i: nat, rest: seq<Action>): seq<Action>
    decreases 5 - i
  {
    if i >= 5 then rest else [RecoveryStep(i)] + Recovering(i + 1, rest)
  }

  lemma {:induction false} FirstRecovery(cfg: Settings, clock: Time, i: nat, rest: seq<Action>)
    requires i <= 5
    ensures After(cfg, OnTheWay(cfg, clock, i), Recovering(i, rest)) == After(cfg, OneRecovered(cfg, clock), rest)
    ensures Paced(cfg, OneRecovered(cfg, clock), rest) ==> Paced(cfg, OnTheWay(cfg, clock, i), Recovering(i, rest))
    ensures (forall a :: a in rest ==> !a.WriteStatus?) ==> forall a :: a in Recovering(i, rest) ==> !a.WriteStatus?
    decreases 5 - i
  {
    hide Step, After, Paced, OneRecovered;
    if i < 5 {
      RecoverySteps(cfg, clock, i);
      FirstRecovery(cfg, clock, i + 1, rest);
      hide OnTheWay;
      AfterCons(cfg, OnTheWay(cfg, clock, i), RecoveryStep(i), OnTheWay(cfg, clock, i + 1), Recovering(i + 1, rest));
    }
  }

  /**
    Two runtimes that both listed the subscription while it was blocked overlap, without any
    operator: the second recovery rewrites the status, and with it drops the lease of the
    first one's running adapter.
   */
  lemma RecoveriesOverlap(cfg: Settings, clock: Time)
    ensures exists actions: seq<Action> ::
              && Paced(cfg, Start({0, 1}, clock, Blocked), actions)
              && (forall a :: a in actions ==> !a.WriteStatus?)
              && Running(After(cfg, Start({0, 1}, clock, Blocked), actions), 0)
              && Running(After(cfg, Start({0, 1}, clock, Blocked), actions), 1)
  {
    var first := Worker(Between, true, true, clock);
    var rest := [Check(1, Built)] + ([Reclaim(1)] + ([Begin(1, Built)] + []));
    var s5 := OneRecovered(cfg, clock);
    var s6 := State(clock, Row(Active, None, None), map[0 := first, 1 := Worker(Recovered, false, false, clock)]);
    var s7 := State(clock, Row(Active, Some(1), Some(clock + 2 * cfg.half)), map[0 := first, 1 := Worker(Claimed, false, false, clock)]);
    var s8 := s7.(workers := map[0 := first, 1 := first]);
    assert Step(cfg, s7, Begin(1, Built)) == s8;
    assert Step(cfg, s6, Reclaim(1)) == s7;
    assert Step(cfg, s5, Check(1, Built)) == s6;
    assert Start({0, 1}, clock, Blocked) == OnTheWay(cfg, clock, 0);
    hide Step, OneRecovered, OnTheWay, Start, RecoveryStep;
    AfterCons(cfg, s7, Begin(1, Built), s8, []);
    AfterCons(cfg, s6, Reclaim(1), s7, [Begin(1, Built)] + []);
    AfterCons(cfg, s5, Check(1, Built), s6, [Reclaim(1)] + ([Begin(1, Built)] + []));
    hide Recovering;
    FirstRecovery(cfg, clock, 0, rest);
    assert After(cfg, Start({0, 1}, clock, Blocked), Recovering(0, rest)) == s8;
  }

  // ---------------------------------------------------------------- overlap without a status write

  ghost predicate NoStatusWrites(cfg: Settings, s: State, actions: seq<Action>)
    decreases |actions|
  {
    actions != [] ==> !WritesStatus(s, actions[0]) && NoStatusWrites(cfg, Step(cfg, s, actions[0]), actions[1..])
  }

  const LAST := 13

  /**
    An adapter of runtime 0 returns; before its task releases the claim, the next pass renews it;
    then the release clears the renewed claim, and the pass starts a new adapter without one.
   */
  function LapseStep(cfg: Settings, i: nat): Action
    requires cfg.half > 0
  {
    match i
    case 0 => List(0)
    case 1 => Check(0, Built)
    case 2 => Begin(0, Built)
    case 3 => Return(0)
    case 4 => Tick(cfg.half)
    case 5 => List(0)
    case 6 => Check(0, Built)
    case 7 => Release(0)
    case 8 => Forget(0)
    case 9 => Begin(0, Built)
    case 10 => List(1)
    case 11 => Check(1, Built)
    case _ => Begin(1, Built)
  }

  function Lapsed(cfg: Settings, clock: Time, i: nat): State {
    var later, full := clock + cfg.half, 2 * cfg.half;
    var free, first, second := Row(Active, None, None), Row(Active, Some(0), Some(clock + full)), Row(Active, Some(0), Some(later + full));
    var idle, runs := Worker(Between, false, false, clock), Worker(Between, true, true, clock);
    match i
    case 0 => State(clock, free, map[0 := idle, 1 := idle])
    case 1 => State(clock, free, map[0 := idle.(phase := Listed(free)), 1 := idle])
    case 2 => State(clock, first, map[0 := idle.(phase := Claimed), 1 := idle])
    case 3 => State(clock, first, map[0 := runs, 1 := idle])
    case 4 => State(clock, first, map[0 := runs.(running := false), 1 := idle])
    case 5 => State(later, first, map[0 := runs.(running := false), 1 := idle])
    case 6 => State(later, first, map[0 := Worker(Listed(first), false, true, clock), 1 := idle])
    case 7 => State(later, second, map[0 := Worker(Claimed, false, true, later), 1 := idle])
    case 8 => State(later, free, map[0 := Worker(Claimed, false, true, later), 1 := idle])
    case 9 => State(later, free, map[0 := Worker(Claimed, false, false, later), 1 := idle])
    case 10 => State(later, free, map[0 := Worker(Between, true, true, later), 1 := idle])
    case 11 => State(later, free, map[0 := Worker(Between, true, true, later), 1 := idle.(phase := Listed(free))])
    case 12 =>
      State(later, second.(holder := Some(1)), map[0 := Worker(Between, true, true, later), 1 := Worker(Claimed, false, false, later)])
    case _ =>
      State(later, second.(holder := Some(1)), map[0 := Worker(Between, true, true, later), 1 := Worker(Between, true, true, later)])
  }

  /** The i-th step leads on, at the required pace, and only the ninth disturbs. */
  ghost predicate LapseOk(cfg: Settings, clock: Time, i: nat)
    requires cfg.half > 0
  {
    var s, a := Lapsed(cfg, clock, i), LapseStep(cfg, i);
    && Step(cfg, s, a) == Lapsed(cfg, clock, i + 1)
    && PacedStep(cfg, s, a) && !WritesStatus(s, a)
    && (StartsUnclaimed(s, a) <==> i == 9)
  }

  lemma RenewalSteps(cfg: Settings, clock: Time, i: nat)
    requires cfg.half > 0 && i < 7
    ensures LapseOk(cfg, clock, i)
  {
  }

  lemma ReleaseSteps(cfg: Settings, clock: Time, i: nat)
    requires cfg.half > 0 && 7 <= i < LAST
    ensures LapseOk(cfg, clock, i)
  {
  }

  function Lapsing(cfg: Settings, i: nat): seq<Action>
    requires cfg.half > 0 && i <= LAST
    decreases LAST - i
  {
    if i == LAST then [] else [LapseStep(cfg, i)] + Lapsing(cfg, i + 1)
  }

  lemma {:induction false} LapseRuns(cfg: Settings, clock: Time, i: nat)
    requires cfg.half > 0 && i <= LAST
    ensures After(cfg, Lapsed(cfg, clock, i), Lapsing(cfg, i)) == Lapsed(cfg, clock, LAST)
    ensures Paced(cfg, Lapsed(cfg, clock, i), Lapsing(cfg, i)) && NoStatusWrites(cfg, Lapsed(cfg, clock, i), Lapsing(cfg, i))
    decreases LAST - i
  {
    hide Step, Lapsed, LapseStep, PacedStep, WritesStatus, StartsUnclaimed;
    if i < LAST {
      if i < 7 { RenewalSteps(cfg, clock, i); } else { ReleaseSteps(cfg, clock, i); }
      LapseRuns(cfg, clock, i + 1);
      assert Lapsing(cfg, i)[1..] == Lapsing(cfg, i + 1);
    }
  }

  /**
    Two adapters can also run at once, at the required pace, without a single status write:
    the release of an adapter that returned clears the claim its own runtime's next pass just
    renewed, so the adapter that pass starts runs unclaimed and another runtime claims the row.
   */
  lemma ReleaseOverlap(cfg: Settings, clock: Time)
    requires cfg.half > 0
    ensures exists actions: seq<Action> ::
              && Paced(cfg, Start({0, 1}, clock, Active), actions)
              && NoStatusWrites(cfg, Start({0, 1}, clock, Active), actions)
              && Running(After(cfg, Start({0, 1}, clock, Active), actions), 0)
              && Running(After(cfg, Start({0, 1}, clock, Active), actions), 1)
  {
    LapseRuns(cfg, clock, 0);
    hide Step, After, Paced, NoStatusWrites, Lapsing, LapseStep;
    assert Start({0, 1}, clock, Active) == Lapsed(cfg, clock, 0);
    assert Running(Lapsed(cfg, clock, LAST), 0) && Running(Lapsed(cfg, clock, LAST), 1);
  }
}
