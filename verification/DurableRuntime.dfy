/**
  `PostgresAppRuntimeService` (src/orcheo/hosted_apps/postgres_runtime.py): hosted-app
  invocation over three tables. Limits are counted as quota leases that expire by
  themselves and are released early when a run settles. The functions give each
  transaction's effect when it runs alone; how transactions interleave is the subject of
  module RuntimeInterleaving.
 */
module DurableModel {
  import opened Common
  import opened RuntimeModel

  /** The `operation` column of a lease: a minute bucket, or a binding's concurrency. */
  datatype Operation =
    | RateOp(key: WindowKey)
    | ConcurrencyOp(app: AppId, binding: BindingId)

  datatype Lease = Lease(
    workspace: WorkspaceId, operation: Operation, expiresAt: Time, releasedAt: Option<Time>)
  {
    predicate LiveAt(now: Time) { releasedAt.None? && expiresAt > now }
  }

  /** A row of the run table; `leases` is its `quota_lease_ids` column. */
  datatype RunRow = RunRow(run: Run, leases: seq<LeaseId>)

  datatype DbState = DbState(
    runs: map<Handle, RunRow>,
    idem: map<Scope, IdemEntry>,
    leases: map<LeaseId, Lease>)

  /** One limit to reserve: the bucket, its size and how long a lease in it lives. */
  datatype Spec = Spec(operation: Operation, limit: nat, expiresAt: Time)

  /** At most one lease per kind of limit. */
  const MAX_LEASES := 4

  // ---------------------------------------------------------------- statements

  function PurgeIdempotency(idem: map<Scope, IdemEntry>, now: Time): map<Scope, IdemEntry> {
    map s | s in idem && idem[s].expiresAt > now :: idem[s]
  }

  /** `UPDATE … SET released_at` on the expired, unreleased leases of one operation. */
  function ReleaseExpired(leases: map<LeaseId, Lease>, op: Operation, now: Time): map<LeaseId, Lease> {
    map l | l in leases ::
      if leases[l].operation == op && leases[l].releasedAt.None? && leases[l].expiresAt <= now
      then leases[l].(releasedAt := Some(now)) else leases[l]
  }

  /** `UPDATE … SET released_at` on the given unreleased leases. */
  function ReleaseIds(leases: map<LeaseId, Lease>, ids: seq<LeaseId>, now: Time): map<LeaseId, Lease> {
    map l | l in leases ::
      if l in ids && leases[l].releasedAt.None? then leases[l].(releasedAt := Some(now)) else leases[l]
  }

  /** The rows behind `SELECT SUM(amount)`; every amount is 1. */
  function LiveLeases(leases: map<LeaseId, Lease>, workspace: WorkspaceId, op: Operation, now: Time): set<LeaseId> {
    set l | l in leases && leases[l].workspace == workspace && leases[l].operation == op && leases[l].LiveAt(now)
  }

  // ---------------------------------------------------------------- limits

  function RateSpecs(ws: seq<Window>, now: Time): (specs: seq<Spec>)
    ensures |specs| == |ws|
    ensures forall i :: 0 <= i < |ws| ==> specs[i] == Spec(RateOp(ws[i].key), ws[i].limit, now + MINUTE)
  {
    seq(|ws|, i requires 0 <= i < |ws| => Spec(RateOp(ws[i].key), ws[i].limit, now + MINUTE))
  }

  function ConcurrencySpecs(req: Request, timeoutAt: Time): seq<Spec> {
    match req.binding.limits.maxConcurrency
    case Some(limit) => [Spec(ConcurrencyOp(req.app, req.binding.id), limit, timeoutAt)]
    case None => []
  }

  /** Every limit of a request: the minute buckets first, concurrency last. */
  function Specs(req: Request, now: Time, timeoutAt: Time): (specs: seq<Spec>)
    ensures |specs| <= MAX_LEASES
    ensures forall i, j :: 0 <= i < j < |specs| ==> specs[i].operation != specs[j].operation
  {
    RateSpecs(RateWindows(req), now) + ConcurrencySpecs(req, timeoutAt)
  }

  datatype Reservation =
    | Reserved(leases: map<LeaseId, Lease>, concurrency: seq<LeaseId>)
    | Exhausted(reason: LimitReason)

  function ReasonFor(op: Operation): LimitReason {
    if op.ConcurrencyOp? then ConcurrencyExceeded else RateExceeded
  }

  /**
    Release, count and insert for each spec in turn; `ids` are the fresh lease ids and
    `concurrency` collects those a settled run gives back.
   */
  function Reserve(leases: map<LeaseId, Lease>, workspace: WorkspaceId, specs: seq<Spec>, now: Time,
                   ids: seq<LeaseId>, concurrency: seq<LeaseId>)
    : Reservation
    requires |ids| >= |specs|
    decreases |specs|
  {
    if specs == [] then Reserved(leases, concurrency)
    else
      var op := specs[0].operation;
      var freed := ReleaseExpired(leases, op, now);
      if |LiveLeases(freed, workspace, op, now)| >= specs[0].limit then Exhausted(ReasonFor(op))
      else
        var taken := freed[ids[0] := Lease(workspace, op, specs[0].expiresAt, None)];
        Reserve(taken, workspace, specs[1..], now, ids[1..],
          if op.ConcurrencyOp? then concurrency + [ids[0]] else concurrency)
  }

  // ---------------------------------------------------------------- transactions

  /** `accept`, given the instant it read and the random handle and lease ids it drew. */
  function Accept(cfg: Config, db: DbState, req: Request, now: Time, handle: Handle, ids: seq<LeaseId>)
    : (DbState, AcceptOutcome)
    requires |ids| == MAX_LEASES
  {
    if Gate(cfg, req).Some? then (db, Denied(Gate(cfg, req).value))
    else
      var idem := PurgeIdempotency(db.idem, now);
      var scope := ScopeOf(req);
      if scope in idem && idem[scope].handle in db.runs then
        var entry := idem[scope];
        if entry.request != req.payload then (db, Conflict)
        else (db.(idem := idem), Replayed(ViewOf(entry.handle, db.runs[entry.handle].run)))
      else if LacksClientIdentity(req) then (db, Refused(ClientIdentityRequired))
      else match Reserve(db.leases, req.workspace, Specs(req, now, TimeoutAt(cfg, req, now)), now, ids, [])
        case Exhausted(reason) => (db, Refused(reason))
        case Reserved(leases, concurrency) =>
          if handle in db.runs || scope in idem then (db, StoreRejected)
          else
            var run := NewRun(cfg, req, now);
            (DbState(
               db.runs[handle := RunRow(run, concurrency)],
               idem[scope := IdemEntry(req.payload, handle, run.expiresAt)],
               leases),
             NewlyAccepted(handle))
  }

  /** Store a settled run and release the concurrency leases it names. */
  function Settle(db: DbState, handle: Handle, settled: Run, now: Time): DbState
    requires handle in db.runs
  {
    var row := db.runs[handle];
    db.(runs := db.runs[handle := row.(run := settled)], leases := ReleaseIds(db.leases, row.leases, now))
  }

  function MarkFailed(run: Run, error: RunError): Run {
    run.(status := Failed, output := None, error := Some(error))
  }

  predicate InScope(run: Run, q: Query, now: Time) {
    run.workspace == q.workspace && run.app == q.app && run.generation == q.generation && run.expiresAt > now
  }

  /** `status`: the visitor is checked before the deadline is applied. */
  function ReadStatus(db: DbState, handle: Handle, q: Query, now: Time): (DbState, StatusOutcome) {
    if handle !in db.runs || !InScope(db.runs[handle].run, q, now) then (db, Unavailable)
    else
      var run := db.runs[handle].run;
      if run.session.Some? && (q.session != run.session || q.user != run.user) then (db, Unavailable)
      else if run.timeoutAt <= now && run.Unsettled() then
        (Settle(db, handle, MarkFailed(run, TimedOut), now),
         Shown(ViewOf(handle, run.(status := Failed, error := Some(TimedOut)))))
      else (db, Shown(ViewOf(handle, run)))
  }

  /** What `complete` makes of an unsettled run. */
  function CompletedRun(cfg: Config, run: Run, report: Report, now: Time): Run {
    if run.timeoutAt <= now then MarkFailed(run, TimedOut)
    else match report
      case WorkerError => MarkFailed(run, ExecutionFailed)
      case WorkerValue(value) =>
        var projected := ProjectOutput(value, run.fields);
        if cfg.encodedSize(projected) > run.maxOutputBytes then MarkFailed(run, OutputTooLarge)
        else run.(status := Completed, output := projected, error := None)
  }

  function Complete(cfg: Config, db: DbState, handle: Handle, report: Report, now: Time): (DbState, SettleOutcome) {
    if handle !in db.runs then (db, UnknownHandle)
    else if !db.runs[handle].run.Unsettled() then (db, Done)
    else (Settle(db, handle, CompletedRun(cfg, db.runs[handle].run, report, now), now), Done)
  }

  function Cancel(db: DbState, handle: Handle, now: Time): (DbState, SettleOutcome) {
    if handle !in db.runs then (db, UnknownHandle)
    else if !db.runs[handle].run.Unsettled() then (db, Done)
    else (Settle(db, handle, db.runs[handle].run.(status := Cancelled), now), Done)
  }
}

/** The adapter itself: each method is one transaction, statement by statement. */
module DurableRuntime {
  import opened Common
  import opened RuntimeModel
  import opened DurableModel

  class PostgresAppRuntimeService {
    const cfg: Config
    var runs: map<Handle, RunRow>
    var idempotency: map<Scope, IdemEntry>
    var leases: map<LeaseId, Lease>

    constructor (cfg: Config)
      ensures Tables() == DbState(map[], map[], map[]) && this.cfg == cfg
    {
      this.cfg := cfg;
      runs, idempotency, leases := map[], map[], map[];
    }

    function Tables(): DbState
      reads this
    {
      DbState(runs, idempotency, leases)
    }

    /** A raised exception restores what the transaction found. */
    method Rollback(before: DbState)
      modifies this
      ensures Tables() == before
    {
      runs, idempotency, leases := before.runs, before.idem, before.leases;
    }

    method ReserveLimits(req: Request, now: Time, timeoutAt: Time, ids: seq<LeaseId>)
      returns (reserved: Option<seq<LeaseId>>, reason: LimitReason)
      requires |ids| == MAX_LEASES
      modifies this`leases
      ensures LacksClientIdentity(req) ==> reserved.None? && reason == ClientIdentityRequired
      ensures !LacksClientIdentity(req) ==>
                match Reserve(old(leases), req.workspace, Specs(req, now, timeoutAt), now, ids, [])
                case Exhausted(why) => reserved.None? && reason == why
                case Reserved(table, concurrency) => reserved == Some(concurrency) && leases == table
    {
      reason := ClientIdentityRequired;
      if LacksClientIdentity(req) { return None, reason; }
      var specs := Specs(req, now, timeoutAt);
      var concurrencyIds: seq<LeaseId> := [];
      var i := 0;
      while i < |specs|
        invariant 0 <= i <= |specs| <= MAX_LEASES
        invariant Reserve(old(leases), req.workspace, specs, now, ids, []) ==
                  Reserve(leases, req.workspace, specs[i..], now, ids[i..], concurrencyIds)
      {
        var op := specs[i].operation;
        assert specs[i..][1..] == specs[i + 1..] && ids[i..][1..] == ids[i + 1..];
        leases := ReleaseExpired(leases, op, now);
        var used := |LiveLeases(leases, req.workspace, op, now)|;
        if used >= specs[i].limit {
          reason := if op.ConcurrencyOp? then ConcurrencyExceeded else RateExceeded;
          return None, reason;
        }
        leases := leases[ids[i] := Lease(req.workspace, op, specs[i].expiresAt, None)];
        if op.ConcurrencyOp? { concurrencyIds := concurrencyIds + [ids[i]]; }
        i := i + 1;
      }
      reserved := Some(concurrencyIds);
    }

    method Accept(req: Request, now: Time, handle: Handle, ids: seq<LeaseId>) returns (outcome: AcceptOutcome)
      requires |ids| == MAX_LEASES
      modifies this
      ensures (Tables(), outcome) == DurableModel.Accept(cfg, old(Tables()), req, now, handle, ids)
    {
      var denied := Gate(cfg, req);
      if denied.Some? { return Denied(denied.value); }
      var scope := ScopeOf(req);
      var before := Tables();
      idempotency := PurgeIdempotency(idempotency, now);
      if scope in idempotency && idempotency[scope].handle in runs {
        var entry := idempotency[scope];
        if entry.request != req.payload {
          Rollback(before);
          return Conflict;
        }
        return Replayed(ViewOf(entry.handle, runs[entry.handle].run));
      }
      var reserved, reason := ReserveLimits(req, now, TimeoutAt(cfg, req, now), ids);
      if reserved.None? {
        Rollback(before);
        return Refused(reason);
      }
      if handle in runs || scope in idempotency {
        Rollback(before);
        return StoreRejected;
      }
      var run := NewRun(cfg, req, now);
      runs := runs[handle := RunRow(run, reserved.value)];
      idempotency := idempotency[scope := IdemEntry(req.payload, handle, run.expiresAt)];
      outcome := NewlyAccepted(handle);
    }

    method StoreSettled(handle: Handle, settled: Run, now: Time)
      requires handle in runs
      modifies this`runs, this`leases
      ensures Tables() == Settle(old(Tables()), handle, settled, now)
    {
      var row := runs[handle];
      runs := runs[handle := row.(run := settled)];
      if row.leases != [] {
        leases := ReleaseIds(leases, row.leases, now);
      } else {
        assert leases == ReleaseIds(leases, row.leases, now);
      }
    }

    method Status(handle: Handle, q: Query, now: Time) returns (outcome: StatusOutcome)
      modifies this`runs, this`leases
      ensures (Tables(), outcome) == ReadStatus(old(Tables()), handle, q, now)
    {
      if handle !in runs || !InScope(runs[handle].run, q, now) { return Unavailable; }
      var run := runs[handle].run;
      if run.session.Some? && (q.session != run.session || q.user != run.user) { return Unavailable; }
      if run.timeoutAt <= now && run.Unsettled() {
        StoreSettled(handle, MarkFailed(run, TimedOut), now);
        run := run.(status := Failed, error := Some(TimedOut));
      }
      outcome := Shown(ViewOf(handle, run));
    }

    method Complete(handle: Handle, report: Report, now: Time) returns (outcome: SettleOutcome)
      modifies this`runs, this`leases
      ensures (Tables(), outcome) == DurableModel.Complete(cfg, old(Tables()), handle, report, now)
    {
      if handle !in runs { return UnknownHandle; }
      var run := runs[handle].run;
      outcome := Done;
      if !run.Unsettled() { return; }
      if run.timeoutAt <= now {
        StoreSettled(handle, MarkFailed(run, TimedOut), now);
        return;
      }
      match report {
        case WorkerError =>
          StoreSettled(handle, MarkFailed(run, ExecutionFailed), now);
        case WorkerValue(value) =>
          var projected := ProjectOutput(value, run.fields);
          if cfg.encodedSize(projected) > run.maxOutputBytes {
            StoreSettled(handle, MarkFailed(run, OutputTooLarge), now);
          } else {
            StoreSettled(handle, run.(status := Completed, output := projected, error := None), now);
          }
      }
    }

    method Cancel(handle: Handle, now: Time) returns (outcome: SettleOutcome)
      modifies this`runs, this`leases
      ensures (Tables(), outcome) == DurableModel.Cancel(old(Tables()), handle, now)
    {
      if handle !in runs { return UnknownHandle; }
      if runs[handle].run.Unsettled() {
        StoreSettled(handle, runs[handle].run.(status := Cancelled), now);
      }
      outcome := Done;
    }
  }
}
