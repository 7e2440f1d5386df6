/**
  `AppRuntimeService` (src/orcheo/hosted_apps/runtime.py): the in-memory reference for
  hosted-app invocation. The functions say what each operation does to the three
  dictionaries; the class at the end does it step by step, as the source does, and is
  proved to do exactly that.
 */
module ReferenceModel {
  import opened Common
  import opened RuntimeModel

  datatype RefState = RefState(
    runs: map<Handle, Run>,
    idem: map<Scope, IdemEntry>,
    windows: map<WindowKey, seq<Time>>)

  // ---------------------------------------------------------------- pruning

  /** A deque after its leading timestamps at or before `cutoff` are popped. */
  function Trim(events: seq<Time>, cutoff: Time): seq<Time> {
    if events != [] && events[0] <= cutoff then Trim(events[1..], cutoff) else events
  }

  function PruneRuns(runs: map<Handle, Run>, now: Time): map<Handle, Run> {
    map h | h in runs && runs[h].expiresAt > now :: runs[h]
  }

  predicate KeepEntry(entry: IdemEntry, runs: map<Handle, Run>, now: Time) {
    entry.expiresAt > now && entry.handle in runs
  }

  function PruneIdem(idem: map<Scope, IdemEntry>, runs: map<Handle, Run>, now: Time): map<Scope, IdemEntry> {
    map s | s in idem && KeepEntry(idem[s], runs, now) :: idem[s]
  }

  function PruneWindows(windows: map<WindowKey, seq<Time>>, cutoff: Time): map<WindowKey, seq<Time>> {
    map k | k in windows && Trim(windows[k], cutoff) != [] :: Trim(windows[k], cutoff)
  }

  function Prune(s: RefState, now: Time): RefState {
    var runs := PruneRuns(s.runs, now);
    RefState(runs, PruneIdem(s.idem, runs, now), PruneWindows(s.windows, now - MINUTE))
  }

  // ---------------------------------------------------------------- limits

  predicate OccupiesSlot(run: Run, app: AppId, binding: BindingId, now: Time) {
    run.app == app && run.binding == binding && run.Unsettled() && run.expiresAt > now && run.timeoutAt > now
  }

  function ConcurrentRuns(runs: map<Handle, Run>, app: AppId, binding: BindingId, now: Time): set<Handle> {
    set h | h in runs && OccupiesSlot(runs[h], app, binding, now)
  }

  function Events(windows: map<WindowKey, seq<Time>>, key: WindowKey): seq<Time> {
    if key in windows then windows[key] else []
  }

  /** Trim and test each window in turn; stop at the first full one. */
  function CheckWindows(windows: map<WindowKey, seq<Time>>, ws: seq<Window>, cutoff: Time)
    : (map<WindowKey, seq<Time>>, bool)
    decreases |ws|
  {
    if ws == [] then (windows, true)
    else
      var events := Trim(Events(windows, ws[0].key), cutoff);
      var windows' := windows[ws[0].key := events];
      if |events| >= ws[0].limit then (windows', false) else CheckWindows(windows', ws[1..], cutoff)
  }

  /** Record one event in every window. */
  function RecordEvents(windows: map<WindowKey, seq<Time>>, ws: seq<Window>, now: Time)
    : map<WindowKey, seq<Time>>
    decreases |ws|
  {
    if ws == [] then windows
    else RecordEvents(windows[ws[0].key := Events(windows, ws[0].key) + [now]], ws[1..], now)
  }

  predicate ConcurrencyFull(runs: map<Handle, Run>, req: Request, now: Time) {
    match req.binding.limits.maxConcurrency
    case Some(limit) => |ConcurrentRuns(runs, req.app, req.binding.id, now)| >= limit
    case None => false
  }

  function EnforceLimits(s: RefState, req: Request, now: Time): (map<WindowKey, seq<Time>>, Option<LimitReason>) {
    if ConcurrencyFull(s.runs, req, now) then (s.windows, Some(ConcurrencyExceeded))
    else if LacksClientIdentity(req) then (s.windows, Some(ClientIdentityRequired))
    else
      var (windows, ok) := CheckWindows(s.windows, RateWindows(req), now - MINUTE);
      if !ok then (windows, Some(RateExceeded))
      else (RecordEvents(windows, RateWindows(req), now), None)
  }

  // ---------------------------------------------------------------- operations

  /** `accept`, given the instant it read and the random handle it drew. */
  function Accept(cfg: Config, s: RefState, req: Request, now: Time, handle: Handle): (RefState, AcceptOutcome) {
    if Gate(cfg, req).Some? then (s, Denied(Gate(cfg, req).value))
    else
      var p := Prune(s, now);
      var scope := ScopeOf(req);
      if scope in p.idem then
        var entry := p.idem[scope];
        (p, if entry.request != req.payload then Conflict else Replayed(ViewOf(entry.handle, p.runs[entry.handle])))
      else
        var (windows, refused) := EnforceLimits(p, req, now);
        if refused.Some? then (p.(windows := windows), Refused(refused.value))
        else
          var run := NewRun(cfg, req, now);
          (RefState(
             p.runs[handle := run],
             p.idem[scope := IdemEntry(req.payload, handle, run.expiresAt)],
             windows),
           NewlyAccepted(handle))
  }

  predicate InScope(run: Run, q: Query, now: Time) {
    run.expiresAt > now && run.workspace == q.workspace && run.app == q.app && run.generation == q.generation
  }

  predicate IsOriginator(run: Run, q: Query) {
    run.session.Some? ==> q.session == run.session && q.user == run.user
  }

  /** `status`: the deadline is applied before the visitor is checked. */
  function ReadStatus(s: RefState, handle: Handle, q: Query, now: Time): (RefState, StatusOutcome) {
    if handle !in s.runs || !InScope(s.runs[handle], q, now) then (s, Unavailable)
    else
      var run := SettleTimeout(s.runs[handle], now);
      var s' := s.(runs := s.runs[handle := run]);
      (s', if IsOriginator(run, q) then Shown(ViewOf(handle, run)) else Unavailable)
  }

  /** What `complete` makes of a run: only a failed run is left alone. */
  function CompleteRun(cfg: Config, run: Run, report: Report, now: Time): Run {
    var run := SettleTimeout(run, now);
    if run.status == Failed then run
    else match report
      case WorkerError => run.(status := Failed, error := Some(ExecutionFailed))
      case WorkerValue(value) =>
        var projected := ProjectOutput(value, run.fields);
        if cfg.encodedSize(projected) > run.maxOutputBytes
        then run.(status := Failed, error := Some(OutputTooLarge), output := None)
        else run.(status := Completed, output := projected)
  }

  function Complete(cfg: Config, s: RefState, handle: Handle, report: Report, now: Time): (RefState, SettleOutcome) {
    if handle !in s.runs then (s, UnknownHandle)
    else (s.(runs := s.runs[handle := CompleteRun(cfg, s.runs[handle], report, now)]), Done)
  }

  function CancelRun(run: Run): Run {
    if run.Unsettled() then run.(status := Cancelled) else run
  }

  function Cancel(s: RefState, handle: Handle): (RefState, SettleOutcome) {
    if handle !in s.runs then (s, UnknownHandle)
    else (s.(runs := s.runs[handle := CancelRun(s.runs[handle])]), Done)
  }

}

/** The service object itself; its lock makes every method one step. */
module ReferenceRuntime {
  import opened Common
  import opened RuntimeModel
  import opened ReferenceModel

  class AppRuntimeService {
    const cfg: Config
    var runs: map<Handle, Run>
    var idempotency: map<Scope, IdemEntry>
    var windows: map<WindowKey, seq<Time>>

    constructor (cfg: Config)
      ensures State() == RefState(map[], map[], map[]) && this.cfg == cfg
    {
      this.cfg := cfg;
      runs, idempotency, windows := map[], map[], map[];
    }

    ghost function State(): RefState
      reads this
    {
      RefState(runs, idempotency, windows)
    }

    method PruneExpired(now: Time)
      modifies this
      ensures State() == Prune(old(State()), now)
    {
      var expired := set h | h in runs && runs[h].expiresAt <= now;
      ghost var gone := expired;
      while expired != {}
        invariant expired <= gone
        invariant runs == old(runs) - (gone - expired)
        invariant idempotency == old(idempotency) && windows == old(windows)
      {
        var h :| h in expired;
        runs := runs - {h};
        expired := expired - {h};
      }
      assert runs == PruneRuns(old(runs), now);

      var scopes := idempotency.Keys;
      while scopes != {}
        invariant scopes <= old(idempotency).Keys
        invariant idempotency ==
                  map s | s in old(idempotency) && (s in scopes || KeepEntry(old(idempotency)[s], runs, now))
                    :: old(idempotency)[s]
        invariant runs == PruneRuns(old(runs), now) && windows == old(windows)
      {
        var s :| s in scopes;
        if idempotency[s].expiresAt <= now || idempotency[s].handle !in runs {
          idempotency := idempotency - {s};
        }
        scopes := scopes - {s};
      }

      PruneEvents(now - MINUTE);
    }

    method PruneEvents(cutoff: Time)
      modifies this`windows
      ensures windows == PruneWindows(old(windows), cutoff)
    {
      var keys := windows.Keys;
      ghost var before := windows;
      while keys != {}
        invariant keys <= before.Keys
        invariant windows == PartlyPruned(before, keys, cutoff)
      {
        var k :| k in keys;
        var events := PopStale(windows[k], cutoff);
        PartlyPrunedStep(before, keys, k, cutoff);
        windows := if events == [] then windows - {k} else windows[k := events];
        keys := keys - {k};
      }
    }

    /** The windows once every key outside `keys` has been pruned. */
    static ghost function PartlyPruned(before: map<WindowKey, seq<Time>>, keys: set<WindowKey>, cutoff: Time)
      : map<WindowKey, seq<Time>>
    {
      map k | k in before && (k in keys || Trim(before[k], cutoff) != []) ::
        if k in keys then before[k] else Trim(before[k], cutoff)
    }

    static lemma PartlyPrunedStep(
        before: map<WindowKey, seq<Time>>, keys: set<WindowKey>, k: WindowKey, cutoff: Time)
      requires k in keys && keys <= before.Keys
      ensures PartlyPruned(before, keys - {k}, cutoff) ==
              var events, partly := Trim(before[k], cutoff), PartlyPruned(before, keys, cutoff);
              if events == [] then partly - {k} else partly[k := events]
    {
    }

    method PopStale(deque: seq<Time>, cutoff: Time) returns (events: seq<Time>)
      ensures events == Trim(deque, cutoff)
    {
      events := deque;
      while events != [] && events[0] <= cutoff
        invariant Trim(events, cutoff) == Trim(deque, cutoff)
      {
        events := events[1..];
      }
    }

    method EnforceInvocationLimits(req: Request, now: Time) returns (refused: Option<LimitReason>)
      modifies this`windows
      ensures (windows, refused) == EnforceLimits(old(State()), req, now)
    {
      var limit := req.binding.limits.maxConcurrency;
      if limit.Some? {
        var concurrent := |ConcurrentRuns(runs, req.app, req.binding.id, now)|;
        if concurrent >= limit.value { return Some(ConcurrencyExceeded); }
      }
      if req.binding.limits.perIp.Some? && Missing(req.clientIp) { return Some(ClientIdentityRequired); }

      var ws := RateWindows(req);
      var cutoff := now - MINUTE;
      var i := 0;
      while i < |ws|
        invariant 0 <= i <= |ws|
        invariant CheckWindows(windows, ws[i..], cutoff) == CheckWindows(old(windows), ws, cutoff)
      {
        var events := PopStale(Events(windows, ws[i].key), cutoff);
        windows := windows[ws[i].key := events];
        assert ws[i..][1..] == ws[i + 1..];
        if |events| >= ws[i].limit { return Some(RateExceeded); }
        i := i + 1;
      }
      ghost var checked := windows;
      i := 0;
      while i < |ws|
        invariant 0 <= i <= |ws|
        invariant RecordEvents(windows, ws[i..], now) == RecordEvents(checked, ws, now)
      {
        windows := windows[ws[i].key := Events(windows, ws[i].key) + [now]];
        assert ws[i..][1..] == ws[i + 1..];
        i := i + 1;
      }
      refused := None;
    }

    method Accept(req: Request, now: Time, handle: Handle) returns (outcome: AcceptOutcome)
      modifies this
      ensures (State(), outcome) == ReferenceModel.Accept(cfg, old(State()), req, now, handle)
    {
      var denied := Gate(cfg, req);
      if denied.Some? { return Denied(denied.value); }
      PruneExpired(now);
      var scope := ScopeOf(req);
      if scope in idempotency {
        var entry := idempotency[scope];
        if entry.request != req.payload { return Conflict; }
        return Replayed(ViewOf(entry.handle, runs[entry.handle]));
      }
      var refused := EnforceInvocationLimits(req, now);
      if refused.Some? { return Refused(refused.value); }
      var run := NewRun(cfg, req, now);
      runs := runs[handle := run];
      idempotency := idempotency[scope := IdemEntry(req.payload, handle, run.expiresAt)];
      outcome := NewlyAccepted(handle);
    }

    method Status(handle: Handle, q: Query, now: Time) returns (outcome: StatusOutcome)
      modifies this`runs
      ensures (State(), outcome) == ReadStatus(old(State()), handle, q, now)
    {
      if handle !in runs || !InScope(runs[handle], q, now) { return Unavailable; }
      ApplyTimeout(handle, now);
      var run := runs[handle];
      if run.session.Some? && (q.session != run.session || q.user != run.user) { return Unavailable; }
      outcome := Shown(ViewOf(handle, run));
    }

    method ApplyTimeout(handle: Handle, now: Time)
      requires handle in runs
      modifies this`runs
      ensures runs == old(runs)[handle := SettleTimeout(old(runs)[handle], now)]
    {
      var run := runs[handle];
      if run.timeoutAt <= now && run.Unsettled() {
        run := run.(status := Failed, error := Some(TimedOut));
      }
      runs := runs[handle := run];
    }

    method Complete(handle: Handle, report: Report, now: Time) returns (outcome: SettleOutcome)
      modifies this`runs
      ensures (State(), outcome) == ReferenceModel.Complete(cfg, old(State()), handle, report, now)
    {
      if handle !in runs { return UnknownHandle; }
      ApplyTimeout(handle, now);
      var run := runs[handle];
      outcome := Done;
      assert forall r {:trigger runs[handle := r]} :: runs[handle := r] == old(runs)[handle := r];
      if run.status == Failed { return; }
      match report {
        case WorkerError =>
          runs := runs[handle := run.(status := Failed, error := Some(ExecutionFailed))];
        case WorkerValue(value) =>
          var projected := ProjectOutput(value, run.fields);
          if cfg.encodedSize(projected) > run.maxOutputBytes {
            runs := runs[handle := run.(status := Failed, error := Some(OutputTooLarge), output := None)];
          } else {
            runs := runs[handle := run.(status := Completed, output := projected)];
          }
      }
    }

    method Cancel(handle: Handle) returns (outcome: SettleOutcome)
      modifies this`runs
      ensures (State(), outcome) == ReferenceModel.Cancel(old(State()), handle)
    {
      if handle !in runs { return UnknownHandle; }
      if runs[handle].Unsettled() {
        runs := runs[handle := runs[handle].(status := Cancelled)];
      }
      assert runs == old(runs)[handle := CancelRun(old(runs)[handle])];
      outcome := Done;
    }
  }
}
