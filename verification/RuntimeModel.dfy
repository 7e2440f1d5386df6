/**
  Hosted-app invocation runtime: the vocabulary shared by the reference service
  (src/orcheo/hosted_apps/runtime.py) and its durable PostgreSQL form
  (src/orcheo/hosted_apps/postgres_runtime.py).

  Time is counted in microseconds. UUIDs and random tokens are numbers handed in by the
  caller; hashes are injective, so a hash is represented by the text it was computed from.
 */
module RuntimeModel {
  import opened Common

  type Time = int
  type Bytes = seq<bv8>
  type WorkspaceId = nat
  type AppId = nat
  type BindingId = nat
  type SessionId = nat
  type Handle = nat
  type LeaseId = nat

  const SECOND: Time := 1_000_000
  const MINUTE: Time := 60 * SECOND
  const MAX_KEY_BYTES := 256

  // ---------------------------------------------------------------- bindings and requests

  datatype Limits = Limits(
    perApp: Option<nat>,
    perIp: Option<nat>,
    perSession: Option<nat>,
    maxConcurrency: Option<nat>,
    timeoutSeconds: Option<nat>,
    inputMaxBytes: Option<nat>,
    outputMaxBytes: Option<nat>)

  datatype Binding = Binding(
    id: BindingId,
    workspace: WorkspaceId,
    app: AppId,
    deleted: bool,
    requiresSession: bool,
    limits: Limits,
    fields: seq<string>,
    canReadOutput: bool,
    canReadError: bool)

  /** One call of `accept`; `schemaOk` is the verdict of the input schema on the payload. */
  datatype Request = Request(
    binding: Binding,
    workspace: WorkspaceId,
    app: AppId,
    release: nat,
    generation: nat,
    key: Bytes,
    payload: Bytes,
    schemaOk: bool,
    user: Option<string>,
    session: Option<SessionId>,
    anonymousId: Option<string>,
    clientIp: Option<string>)

  /** Service settings, plus the size of a canonically encoded output. */
  datatype Config = Config(
    handleTtl: Time,
    maxInputBytes: nat,
    maxOutputBytes: nat,
    encodedSize: Output -> nat)

  datatype Owner = SessionOwner(session: SessionId) | AnonymousOwner(visitor: string)

  /** The five fields whose hash is the idempotency scope. */
  datatype Scope = Scope(app: AppId, release: nat, binding: BindingId, owner: Owner, key: Bytes)

  datatype GateError =
    | BindingUnavailable
    | AuthenticationRequired
    | BadIdempotencyKey
    | InputTooLarge
    | SchemaMismatch
    | IdentityRequired

  function Min(a: nat, b: nat): nat { if a <= b then a else b }

  /** A client address that Python treats as missing is `None` or the empty string. */
  predicate Missing(text: Option<string>) { text.None? || text.value == "" }

  /** The checks both services run before they look at any stored state, in order. */
  function Gate(cfg: Config, req: Request): Option<GateError> {
    var b := req.binding;
    if b.workspace != req.workspace || b.app != req.app || b.deleted then Some(BindingUnavailable)
    else if b.requiresSession && (req.user.None? || req.session.None?) then Some(AuthenticationRequired)
    else if req.key == [] || |req.key| > MAX_KEY_BYTES then Some(BadIdempotencyKey)
    else if |req.payload| > Min(cfg.maxInputBytes, b.limits.inputMaxBytes.GetOr(cfg.maxInputBytes)) then
      Some(InputTooLarge)
    else if !req.schemaOk then Some(SchemaMismatch)
    else if req.session.None? && Missing(req.anonymousId) then Some(IdentityRequired)
    else None
  }

  function ScopeOf(req: Request): Scope {
    var owner :=
      if req.session.Some? then SessionOwner(req.session.value)
      else AnonymousOwner(req.anonymousId.GetOr(""));
    Scope(req.app, req.release, req.binding.id, owner, req.key)
  }

  // ---------------------------------------------------------------- runs

  datatype Status = Accepted | Running | Completed | Failed | Cancelled

  datatype RunError = ExecutionFailed | OutputTooLarge | TimedOut

  /** A visitor-readable output: nothing, or an allowlisted part of a worker's object. */
  type Output = Option<map<string, string>>

  datatype Run = Run(
    workspace: WorkspaceId,
    app: AppId,
    binding: BindingId,
    generation: nat,
    user: Option<string>,
    session: Option<SessionId>,
    canReadOutput: bool,
    canReadError: bool,
    fields: seq<string>,
    maxOutputBytes: nat,
    timeoutAt: Time,
    expiresAt: Time,
    status: Status,
    output: Output,
    error: Option<RunError>)
  {
    predicate Unsettled() { status == Accepted || status == Running }
  }

  datatype IdemEntry = IdemEntry(request: Bytes, handle: Handle, expiresAt: Time)

  /** What a visitor may see of a run. */
  datatype View = View(handle: Handle, status: Status, output: Output, error: Option<RunError>)

  function ViewOf(handle: Handle, run: Run): View {
    View(handle, run.status,
      if run.canReadOutput then run.output else None,
      if run.canReadError then run.error else None)
  }

  function TimeoutAt(cfg: Config, req: Request, now: Time): Time {
    match req.binding.limits.timeoutSeconds
    case Some(seconds) => now + seconds * SECOND
    case None => now + cfg.handleTtl
  }

  function NewRun(cfg: Config, req: Request, now: Time): Run {
    var b := req.binding;
    Run(req.workspace, req.app, b.id, req.generation, req.user, req.session,
      b.canReadOutput, b.canReadError, b.fields,
      Min(cfg.maxOutputBytes, b.limits.outputMaxBytes.GetOr(cfg.maxOutputBytes)),
      TimeoutAt(cfg, req, now), now + cfg.handleTtl, Accepted, None, None)
  }

  /** What a worker reports: an error, or a value that is or is not an object. */
  datatype Report = WorkerError | WorkerValue(value: Option<map<string, string>>)

  /** The explicit top-level allowlist; no fields, or a value that is no object, gives no output. */
  function ProjectOutput(value: Option<map<string, string>>, fields: seq<string>): Output {
    if fields == [] || value.None? then None
    else Some(map f | f in value.value && f in fields :: value.value[f])
  }

  /** An unsettled run whose deadline has come fails. */
  function SettleTimeout(run: Run, now: Time): Run {
    if run.timeoutAt <= now && run.Unsettled() then run.(status := Failed, error := Some(TimedOut)) else run
  }

  // ---------------------------------------------------------------- limits

  /** The bucket of a one-minute rate limit. */
  datatype WindowKey =
    | AppWindow(app: AppId)
    | IpWindow(app: AppId, ip: string)
    | SessionWindow(app: AppId, session: SessionId)

  datatype Window = Window(key: WindowKey, limit: nat)

  datatype LimitReason = ConcurrencyExceeded | RateExceeded | ClientIdentityRequired

  function AppWindows(req: Request): seq<Window> {
    match req.binding.limits.perApp
    case Some(limit) => [Window(AppWindow(req.app), limit)]
    case None => []
  }

  function IpWindows(req: Request): seq<Window> {
    match req.binding.limits.perIp
    case Some(limit) => [Window(IpWindow(req.app, req.clientIp.GetOr("")), limit)]
    case None => []
  }

  function SessionWindows(req: Request): seq<Window> {
    if req.binding.limits.perSession.Some? && req.session.Some?
    then [Window(SessionWindow(req.app, req.session.value), req.binding.limits.perSession.value)]
    else []
  }

  predicate LacksClientIdentity(req: Request) {
    req.binding.limits.perIp.Some? && Missing(req.clientIp)
  }

  /** The rate windows one request consumes, in the order both services visit them. */
  function RateWindows(req: Request): (ws: seq<Window>)
    ensures forall i, j :: 0 <= i < j < |ws| ==> ws[i].key != ws[j].key
    ensures forall i :: 0 <= i < |ws| ==> ws[i].key.app == req.app
  {
    AppWindows(req) + IpWindows(req) + SessionWindows(req)
  }

  /** Who is asking for a result, and under which app. */
  datatype Query = Query(
    workspace: WorkspaceId, app: AppId, generation: nat, user: Option<string>, session: Option<SessionId>)

  // ---------------------------------------------------------------- outcomes

  datatype AcceptOutcome =
    | Denied(error: GateError)
    | Conflict
    | Replayed(view: View)
    | Refused(reason: LimitReason)
    | StoreRejected  // a unique constraint of the durable store raised
    | NewlyAccepted(handle: Handle)

  /** `status`, `complete` and `cancel` either answer or raise. */
  datatype StatusOutcome = Unavailable | Shown(view: View)
  datatype SettleOutcome = UnknownHandle | Done
}
