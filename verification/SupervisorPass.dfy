/**
  One pass of a listener runtime over all subscriptions (`run_once` in
  src/orcheo/listeners/supervisor.py), undisturbed by other runtimes. The pass works through
  the listed rows, collects the ones it may run, starts adapters and only then stops what is
  no longer its own; its effect on each subscription turns out to depend on that
  subscription alone.
 */
module SupervisorPass {
  import opened Common
  import opened SupervisorLease

  type SubId = nat

  /** What a runtime and the repository know about one subscription. */
  datatype Cell = Cell(row: Row, known: bool, failures: nat)

  /** The effect of one pass on one subscription; `failures` counts consecutive failed builds on record. */
  function Reconciled(half: Time, r: RuntimeId, cell: Cell, build: Build, now: Time): Cell {
    var row := cell.row;
    if row.status == Blocked then
      match build
      case Built => Cell(Row(Active, Some(r), Some(now + 2 * half)), true, 0)
      case MissingCredentials(newError) => Stopped(r, if newError then Written(Blocked) else row, cell.known)
      case BuildFailed => Stopped(r, row, cell.known)
    else if row.status != Active then Stopped(r, row, cell.known)
    else if cell.known && Holds(row, r, now + half) then Cell(row, true, 0)
    else if !Claimable(row, r, now) then Stopped(r, row, cell.known)
    else
      var claimed := row.(holder := Some(r), expires := Some(now + 2 * half));
      if cell.known then Cell(claimed, true, 0)
      else match build
        case Built => Cell(claimed, true, 0)
        case MissingCredentials(_) => Cell(Written(Blocked), false, 0)
        case BuildFailed => Cell(ReleasedBy(claimed, r), false, cell.failures + 1)
  }

  /** A subscription that is not this runtime's: its adapter, if any, stops and gives the lease back. */
  function Stopped(r: RuntimeId, row: Row, known: bool): Cell {
    Cell(if known then ReleasedBy(row, r) else row, false, 0)
  }

  /** The first half of a pass: claim and start; `active` tells whether the subscription is this runtime's. */
  datatype Prepared = Prepared(cell: Cell, active: bool)

  function Prepare(half: Time, r: RuntimeId, cell: Cell, build: Build, now: Time): Prepared {
    var row := cell.row;
    var claimed := row.(holder := Some(r), expires := Some(now + 2 * half));
    if row.status == Blocked then
      match build
      case Built => Prepared(Cell(Row(Active, Some(r), Some(now + 2 * half)), true, 0), true)
      case MissingCredentials(newError) => Prepared(Cell(if newError then Written(Blocked) else row, cell.known, 0), false)
      case BuildFailed => Prepared(cell.(failures := cell.failures + 1), false)
    else if cell.known && row.status == Active && Holds(row, r, now + half) then Prepared(Cell(row, true, 0), true)
    else if !Claimable(row, r, now) then Prepared(cell, false)
    else if cell.known || build.Built? then Prepared(Cell(claimed, true, 0), true)
    else if build.BuildFailed? then Prepared(Cell(ReleasedBy(claimed, r), false, cell.failures + 1), true)
    else Prepared(Cell(Written(Blocked), false, 0), true)
  }

  /** The repository, as its in-memory form keeps it. */
  class ListenerRepository {
    var rows: map<SubId, Row>

    constructor (rows: map<SubId, Row>)
      ensures this.rows == rows
    {
      this.rows := rows;
    }

    method Claim(id: SubId, r: RuntimeId, lease: Time, now: Time) returns (granted: bool)
      modifies this
      ensures granted <==> id in old(rows) && Claimable(old(rows)[id], r, now)
      ensures granted ==> rows == old(rows)[id := old(rows)[id].(holder := Some(r), expires := Some(now + lease))]
      ensures !granted ==> rows == old(rows)
    {
      if id !in rows || rows[id].status != Active { return false; }
      var row := rows[id];
      if row.holder.Some? && row.holder.value != r && row.expires.Some? && row.expires.value > now { return false; }
      rows := rows[id := row.(holder := Some(r), expires := Some(now + lease))];
      granted := true;
    }

    method ReleaseSubscription(id: SubId, r: RuntimeId)
      modifies this
      ensures rows == if id in old(rows) then old(rows)[id := ReleasedBy(old(rows)[id], r)] else old(rows)
    {
      if id in rows && rows[id].holder == Some(r) {
        rows := rows[id := rows[id].(holder := None, expires := None)];
      } else {
        assert id in rows ==> rows[id := rows[id]] == rows;
      }
    }

    method UpdateStatus(id: SubId, status: Status)
      requires id in rows
      modifies this
      ensures rows == old(rows)[id := Written(status)]
    {
      rows := rows[id := Row(status, None, None)];
    }
  }

  class ListenerSupervisor {
    const repository: ListenerRepository
    const runtime: RuntimeId
    const half: Time
    var tasks: set<SubId>
    var failures: map<SubId, nat>

    constructor (repository: ListenerRepository, runtime: RuntimeId, half: Time)
      ensures this.repository == repository && this.runtime == runtime && this.half == half
      ensures tasks == {} && failures == map[]
    {
      this.repository, this.runtime, this.half := repository, runtime, half;
      tasks, failures := {}, map[];
    }

    /** What is known of one subscription before or after a pass. */
    ghost function At(id: SubId): Cell
      requires id in repository.rows
      reads this, repository
    {
      Cell(repository.rows[id], id in tasks, if id in failures then failures[id] else 0)
    }

    method Forget(id: SubId)
      modifies this`failures
      ensures failures == old(failures) - {id}
    {
      failures := failures - {id};
    }

    method RecordFailure(id: SubId)
      modifies this`failures
      ensures failures == old(failures)[id := (if id in old(failures) then old(failures)[id] else 0) + 1]
    {
      failures := failures[id := (if id in failures then failures[id] else 0) + 1];
    }

    /** The adapter's `run` returns, its lease is released and it is forgotten. */
    method StopAdapter(id: SubId)
      requires id in tasks
      modifies this`tasks, repository
      ensures tasks == old(tasks) - {id} && repository.rows.Keys == old(repository.rows.Keys)
      ensures forall i :: i in repository.rows ==>
                repository.rows[i] == if i == id then ReleasedBy(old(repository.rows)[i], runtime) else old(repository.rows)[i]
    {
      repository.ReleaseSubscription(id, runtime);
      tasks := tasks - {id};
    }

    /** Claim or recover one listed subscription; an adapter built on the way is ready to start. */
    method PrepareSubscription(id: SubId, row: Row, build: Build, now: Time) returns (claimed: bool, ready: bool)
      requires id in repository.rows && repository.rows[id] == row
      modifies this`failures, repository
      ensures repository.rows.Keys == old(repository.rows.Keys)
      ensures forall i :: i in repository.rows && i != id ==> repository.rows[i] == old(repository.rows)[i]
      ensures forall i :: i != id ==> (i in failures <==> i in old(failures)) && (i in failures ==> failures[i] == old(failures)[i])
      ensures row.status == Blocked ==> (claimed <==> build.Built?) && (ready <==> build.Built?)
      ensures row.status != Blocked ==>
                !ready && (claimed <==> row.status == Active && ((id in tasks && Holds(row, runtime, now + half)) || Claimable(row, runtime, now)))
      ensures repository.rows[id] ==
              (if row.status == Blocked then
                 (match build
                  case Built => Row(Active, Some(runtime), Some(now + 2 * half))
                  case MissingCredentials(newError) => if newError then Written(Blocked) else row
                  case BuildFailed => row)
               else if !claimed || (id in tasks && Holds(row, runtime, now + half)) then row
               else row.(holder := Some(runtime), expires := Some(now + 2 * half)))
      ensures !claimed && row.status == Blocked && build.BuildFailed? ==>
                id in failures && failures[id] == (if id in old(failures) then old(failures)[id] else 0) + 1
      ensures row.status == Blocked && build.MissingCredentials? ==> id !in failures
      ensures !(row.status == Blocked && !build.Built?) ==> failures == old(failures)
    {
      if row.status == Blocked {
        match build {
          case MissingCredentials(newError) =>
            if newError { repository.UpdateStatus(id, Blocked); }
            Forget(id);
            return false, false;
          case BuildFailed =>
            RecordFailure(id);
            return false, false;
          case Built =>
            repository.UpdateStatus(id, Active);
            claimed := repository.Claim(id, runtime, 2 * half, now);
            return claimed, true;
        }
      }
      if row.status != Active { return false, false; }
      if id in tasks && Holds(row, runtime, now + half) { return true, false; }
      claimed := repository.Claim(id, runtime, 2 * half, now);
      ready := false;
    }

    /** Start the adapter of a claimed subscription, or record why it cannot start. */
    method StartSubscription(id: SubId, ready: bool, build: Build)
      requires id in repository.rows
      modifies this, repository
      ensures repository.rows.Keys == old(repository.rows.Keys)
      ensures forall i :: i in repository.rows && i != id ==> repository.rows[i] == old(repository.rows)[i]
      ensures forall i :: i != id ==>
                (i in tasks <==> i in old(tasks)) && (i in failures <==> i in old(failures)) && (i in failures ==> failures[i] == old(failures)[i])
      ensures var starts := id in old(tasks) || ready || build.Built?;
              && (id in tasks <==> starts)
              && (id in failures <==> !starts && build.BuildFailed?)
              && (id in failures ==> failures[id] == (if id in old(failures) then old(failures)[id] else 0) + 1)
              && repository.rows[id] ==
                 (if starts then old(repository.rows)[id]
                  else if build.BuildFailed? then ReleasedBy(old(repository.rows)[id], runtime) else Written(Blocked))
    {
      if id in tasks {
        Forget(id);
        return;
      }
      if !ready {
        match build {
          case MissingCredentials(_) =>
            repository.UpdateStatus(id, Blocked);
            Forget(id);
            return;
          case BuildFailed =>
            RecordFailure(id);
            repository.ReleaseSubscription(id, runtime);
            return;
          case Built =>
        }
      }
      tasks := tasks + {id};
      Forget(id);
    }

    /** The body of the loop over the listed subscriptions. */
    method Visit(id: SubId, build: Build, now: Time) returns (active: bool)
      requires id in repository.rows
      modifies this, repository
      ensures repository.rows.Keys == old(repository.rows.Keys)
      ensures forall i :: i in repository.rows && i != id ==> At(i) == old(At(i))
      ensures forall i :: i != id ==> (i in tasks <==> i in old(tasks)) && (i in failures <==> i in old(failures))
      ensures Prepared(At(id), active) == Prepare(half, runtime, old(At(id)), build, now)
    {
      var ready;
      active, ready := PrepareSubscription(id, repository.rows[id], build, now);
      if active { StartSubscription(id, ready, build); }
    }

    /** Stop the adapters of subscriptions that are no longer active here. */
    method StopStale(active: set<SubId>)
      modifies this`tasks, repository
      ensures tasks == old(tasks) * active && repository.rows.Keys == old(repository.rows.Keys)
      ensures forall i :: i in repository.rows ==>
                repository.rows[i] == if i in old(tasks) - active then ReleasedBy(old(repository.rows)[i], runtime) else old(repository.rows)[i]
    {
      var stale := tasks - active;
      while stale != {}
        invariant stale == tasks - active && tasks * active == old(tasks) * active && tasks <= old(tasks)
        invariant repository.rows.Keys == old(repository.rows.Keys)
        invariant forall i :: i in repository.rows ==>
                    repository.rows[i] == if i in old(tasks) - active && i !in stale then ReleasedBy(old(repository.rows)[i], runtime)
                                          else old(repository.rows)[i]
        decreases stale
      {
        var id :| id in stale;
        StopAdapter(id);
        stale := stale - {id};
      }
      forall i | i in tasks ensures i in active {
        assert i !in stale;
      }
    }

    /** Drop the build failures of subscriptions that are no longer active here. */
    method ForgetStale(active: set<SubId>)
      modifies this`failures
      ensures failures == map i | i in old(failures) && i in active :: old(failures)[i]
    {
      var stale := failures.Keys - active;
      while stale != {}
        invariant stale == failures.Keys - active
        invariant failures == map i | i in old(failures) && (i in active || i in stale) :: old(failures)[i]
        decreases stale
      {
        var id :| id in stale;
        Forget(id);
        stale := stale - {id};
      }
    }

    /** One pass; `listed` is the order in which the repository lists its rows. */
    method RunOnce(listed: seq<SubId>, build: SubId -> Build, now: SubId -> Time)
      requires forall i, j :: 0 <= i < j < |listed| ==> listed[i] != listed[j]
      requires forall id :: id in repository.rows <==> id in listed
      modifies this, repository
      ensures repository.rows.Keys == old(repository.rows.Keys)
      ensures forall id :: id in repository.rows ==>
                At(id) == Reconciled(half, runtime, old(At(id)), build(id), now(id))
      ensures forall id :: id !in repository.rows ==> id !in tasks && id !in failures
    {
      var active: set<SubId> := {};
      var i := 0;
      while i < |listed|
        invariant 0 <= i <= |listed|
        invariant repository.rows.Keys == old(repository.rows.Keys)
        invariant active <= old(repository.rows.Keys)
        invariant forall j :: 0 <= j < i ==>
                    Prepared(At(listed[j]), listed[j] in active) ==
                    Prepare(half, runtime, old(At(listed[j])), build(listed[j]), now(listed[j]))
        invariant forall j :: i <= j < |listed| ==> At(listed[j]) == old(At(listed[j])) && listed[j] !in active
      {
        hide Prepare;
        var id := listed[i];
        var claimed := Visit(id, build(id), now(id));
        if claimed { active := active + {id}; }
        i := i + 1;
      }
      label Visited:
      StopStale(active);
      ForgetStale(active);
      forall id | id in repository.rows
        ensures At(id) == Reconciled(half, runtime, old(At(id)), build(id), now(id))
      {
        var j :| 0 <= j < |listed| && listed[j] == id;
        PassOnOne(half, runtime, old(At(id)), build(id), now(id));
        assert old@Visited(Prepared(At(id), id in active)) == Prepare(half, runtime, old(At(id)), build(id), now(id));
        hide Prepare, Reconciled;
      }
    }
  }

  /** Preparing and then stopping what is not active reconciles. */
  lemma PassOnOne(half: Time, r: RuntimeId, cell: Cell, build: Build, now: Time)
    ensures var p := Prepare(half, r, cell, build, now);
            Reconciled(half, r, cell, build, now) == if p.active then p.cell else Stopped(r, p.cell.row, p.cell.known)
  {
  }

  // ---------------------------------------------------------------- what a pass achieves

  /** After a pass the runtime runs exactly what it may and can, each under a lease with more than half left. */
  lemma RunsWhatItMay(half: Time, r: RuntimeId, cell: Cell, build: Build, now: Time)
    requires half > 0
    ensures var after := Reconciled(half, r, cell, build, now);
            && (after.known ==> after.row.status == Active && Holds(after.row, r, now + half) && after.failures == 0)
            && (after.known <==>
                  || (cell.row.status == Blocked && build.Built?)
                  || (cell.row.status == Active && Claimable(cell.row, r, now) && (cell.known || build.Built?))
                  || (cell.row.status == Active && cell.known && Holds(cell.row, r, now + half)))
  {
  }

  /** What it does not run it does not hold, and a lease of another runtime is never touched. */
  lemma GivesBackTheRest(half: Time, r: RuntimeId, cell: Cell, build: Build, now: Time)
    requires cell.row.holder == Some(r) ==> cell.known
    ensures var after := Reconciled(half, r, cell, build, now);
            && (!after.known ==> after.row.holder != Some(r))
            && (forall q :: q != r && cell.row.status == Active && Holds(cell.row, q, now) ==> after.row == cell.row && !after.known)
  {
  }

  /** A second pass within half a lease, with nothing changed around it, renews nothing and changes nothing. */
  lemma PassIsStable(half: Time, r: RuntimeId, cell: Cell, build: Build, again: Build, now: Time, later: Time)
    requires half > 0 && Reconciled(half, r, cell, build, now).known
    requires var row := Reconciled(half, r, cell, build, now).row; row.expires.Some? && later + half < row.expires.value
    ensures var after := Reconciled(half, r, cell, build, now); Reconciled(half, r, after, again, later) == after
  {
  }

  /**
    A failed build stays on record, and is counted on, only for a subscription the pass
    claimed; the record of a failed recovery is dropped by the pass that made it.
   */
  lemma FailuresOnRecord(half: Time, r: RuntimeId, cell: Cell, build: Build, now: Time)
    ensures var after := Reconciled(half, r, cell, build, now);
            after.failures ==
              if cell.row.status == Active && !cell.known && Claimable(cell.row, r, now) && build.BuildFailed?
              then cell.failures + 1 else 0
  {
  }
}
