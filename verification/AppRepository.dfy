/**
  The hosted-app lifecycle (`InMemoryHostedAppsRepository` in
  src/orcheo/hosted_apps/repository.py): apps and their aliases, deployments, releases,
  capability grants, moderation and the runtime switch. Aliases and names are taken as
  already normalized, and identifiers are numbers drawn by the caller.
 */
module AppLifecycle {
  import opened Common

  type Time = int
  type Id = nat

  datatype Visibility = Public | Private
  datatype PublicationState = Draft | Published | Unpublished

  datatype App = App(
    workspace: Id,
    owner: string,
    visibility: Visibility,
    state: PublicationState,
    archived: bool,
    suspended: bool,
    activeRelease: Option<Id>,
    revision: nat,
    publishedRevision: Option<nat>)

  datatype AliasKind = AppKind | PlatformKind | Tombstone

  datatype Alias = Alias(app: Option<Id>, workspace: Option<Id>, kind: AliasKind, until: Option<Time>)

  datatype DeploymentStatus = Pending | Validating | Ready | Failed | Expired

  datatype Deployment = Deployment(workspace: Id, app: Id, status: DeploymentStatus, hasManifest: bool)

  datatype Release = Release(workspace: Id, app: Id, deployment: Id, revision: nat, visibility: Visibility)

  /** A draft capability: a workflow binding or a document collection. */
  datatype Grant = Grant(workspace: Id, app: Id, name: string, workflow: Id, deleted: bool)

  datatype TargetKind = AppTarget | AliasTarget | WorkspaceTarget | PublisherTarget
  datatype Target = Target(kind: TargetKind, id: Id, text: string)
  datatype Block = Block(target: Target, lifted: bool)

  datatype Runtime = Runtime(generation: nat, enabled: bool)

  datatype AuditKind =
    | Created | Updated | AliasReserved | ManifestRequested | BindingSaved | BindingDeleted | BindingInvalidated
    | CollectionSaved | CollectionDeleted | ReleasePublished | ReleaseUnpublished
    | PlatformAliasReserved | Blocked | Reinstated | RuntimeChanged

  datatype Audit = Audit(kind: AuditKind, target: Option<Id>)

  datatype Repo = Repo(
    apps: map<Id, App>,
    aliases: map<string, Alias>,
    deployments: map<Id, Deployment>,
    releases: map<Id, Release>,
    bindings: map<Id, Grant>,
    collections: map<Id, Grant>,
    blocks: map<Id, Block>,
    audit: multiset<Audit>,
    runtime: Runtime)

  datatype Outcome =
    | Done
    | NotFound
    | Exists
    | AliasTombstoned
    | AliasTaken
    | NameTaken
    | NotPublishable
    | NotReady
    | StaleRevision

  function Empty(): Repo {
    Repo(map[], map[], map[], map[], map[], map[], map[], multiset{}, Runtime(1, false))
  }

  /** Audit evidence touches nothing else. */
  function Audited(r: Repo, events: multiset<Audit>): (r': Repo)
    ensures r' == r.(audit := r'.audit)
  {
    r.(audit := r.audit + events)
  }

  function Record(r: Repo, kind: AuditKind, target: Option<Id>): (r': Repo)
    ensures r' == r.(audit := r'.audit)
  {
    Audited(r, multiset{Audit(kind, target)})
  }

  predicate InScope(r: Repo, workspace: Id, app: Id) {
    app in r.apps && r.apps[app].workspace == workspace
  }

  // ---------------------------------------------------------------- apps and aliases

  /** May an app take this alias now? */
  function AliasRefusal(r: Repo, id: Id, alias: string, now: Time): Outcome {
    if alias !in r.aliases || r.aliases[alias].app == Some(id) then Done
    else if r.aliases[alias].kind.Tombstone? then
      if r.aliases[alias].until.Some? && r.aliases[alias].until.value <= now then Done else AliasTombstoned
    else AliasTaken
  }

  /** The row for an alias that may be taken; an app's own alias keeps its row. */
  function Reservation(r: Repo, id: Id, workspace: Id, alias: string): Alias {
    if alias in r.aliases && r.aliases[alias].app == Some(id) then r.aliases[alias]
    else Alias(Some(id), Some(workspace), AppKind, None)
  }

  function CreateApp(r: Repo, id: Id, app: App, alias: string, now: Time): (Repo, Outcome) {
    if id in r.apps then (r, Exists)
    else if AliasRefusal(r, id, alias, now) != Done then (r, AliasRefusal(r, id, alias, now))
    else
      (Record(r, Created, Some(id)).(apps := r.apps[id := app],
         aliases := r.aliases[alias := Reservation(r, id, app.workspace, alias)]), Done)
  }

  /** The whole object is stored. */
  function UpdateApp(r: Repo, id: Id, app: App): (Repo, Outcome) {
    if !InScope(r, app.workspace, id) then (r, NotFound)
    else (Record(r, Updated, Some(id)).(apps := r.apps[id := app]), Done)
  }

  /** Every other alias of the app becomes a tombstone. */
  function Retire(aliases: map<string, Alias>, id: Id, kept: string, until: Time): map<string, Alias> {
    map a | a in aliases ::
      if aliases[a].app == Some(id) && a != kept then Alias(None, None, Tombstone, Some(until)) else aliases[a]
  }

  function ReserveAlias(r: Repo, id: Id, workspace: Id, alias: string, now: Time, rest: Time): (Repo, Outcome) {
    if !InScope(r, workspace, id) then (r, NotFound)
    else if AliasRefusal(r, id, alias, now) != Done then (r, AliasRefusal(r, id, alias, now))
    else
      var taken := r.aliases[alias := Reservation(r, id, workspace, alias)];
      (Record(r, AliasReserved, Some(id)).(aliases := Retire(taken, id, alias, now + rest)), Done)
  }

  predicate IsAliasOf(row: Alias, workspace: Id, id: Id) {
    row.workspace == Some(workspace) && row.app == Some(id) && row.kind.AppKind?
  }

  // ---------------------------------------------------------------- capabilities

  /** A capability change asks for a new review. */
  function Bump(app: App): App { app.(revision := app.revision + 1) }

  function BumpOne(r: Repo, id: Id): Repo
    requires id in r.apps
  {
    r.(apps := r.apps[id := Bump(r.apps[id])])
  }

  function AddDeployment(r: Repo, id: Id, d: Deployment): (Repo, Outcome) {
    if !InScope(r, d.workspace, d.app) then (r, NotFound)
    else if id in r.deployments then (r, Exists)
    else
      var stored := r.(deployments := r.deployments[id := d]);
      (if d.status.Ready? && d.hasManifest then BumpOne(Record(stored, ManifestRequested, Some(d.app)), d.app) else stored, Done)
  }

  predicate NameClash(items: map<Id, Grant>, id: Id, g: Grant) {
    exists i :: i in items && i != id && items[i].app == g.app && !items[i].deleted && items[i].name == g.name
  }

  /** Why a grant may not be saved under this id. */
  function SaveRefusal(r: Repo, items: map<Id, Grant>, id: Id, g: Grant): Outcome {
    if !InScope(r, g.workspace, g.app) then NotFound
    else if NameClash(items, id, g) then NameTaken
    else if id in items && (items[id].workspace != g.workspace || items[id].app != g.app) then NotFound
    else Done
  }

  predicate Deletable(r: Repo, items: map<Id, Grant>, workspace: Id, app: Id, id: Id) {
    InScope(r, workspace, app) && id in items && items[id].workspace == workspace && items[id].app == app && !items[id].deleted
  }

  function SaveBinding(r: Repo, id: Id, g: Grant): (Repo, Outcome) {
    if SaveRefusal(r, r.bindings, id, g) != Done then (r, SaveRefusal(r, r.bindings, id, g))
    else (BumpOne(Record(r, BindingSaved, Some(g.app)).(bindings := r.bindings[id := g]), g.app), Done)
  }

  function DeleteBinding(r: Repo, workspace: Id, app: Id, id: Id): (Repo, Outcome) {
    if !Deletable(r, r.bindings, workspace, app, id) then (r, NotFound)
    else
      (BumpOne(Record(r, BindingDeleted, Some(app)).(bindings := r.bindings[id := r.bindings[id].(deleted := true)]), app), Done)
  }

  function SaveCollection(r: Repo, id: Id, g: Grant): (Repo, Outcome) {
    if SaveRefusal(r, r.collections, id, g) != Done then (r, SaveRefusal(r, r.collections, id, g))
    else (BumpOne(Record(r, CollectionSaved, Some(g.app)).(collections := r.collections[id := g]), g.app), Done)
  }

  function DeleteCollection(r: Repo, workspace: Id, app: Id, id: Id): (Repo, Outcome) {
    if !Deletable(r, r.collections, workspace, app, id) then (r, NotFound)
    else
      (BumpOne(Record(r, CollectionDeleted, Some(app)).(collections := r.collections[id := r.collections[id].(deleted := true)]), app),
       Done)
  }

  /** Apps with a live binding to a workflow. */
  function Dependents(r: Repo, workspace: Id, workflow: Id): set<Id> {
    set b | b in r.bindings && r.bindings[b].workspace == workspace && r.bindings[b].workflow == workflow && !r.bindings[b].deleted
      :: r.bindings[b].app
  }

  function BumpAll(apps: map<Id, App>, ids: set<Id>): map<Id, App> {
    map i | i in apps :: if i in ids then Bump(apps[i]) else apps[i]
  }

  function InvalidationAudit(ids: set<Id>): multiset<Audit> {
    multiset(set i | i in ids :: Audit(BindingInvalidated, Some(i)))
  }

  function Invalidate(r: Repo, workspace: Id, workflow: Id): Repo {
    var ids := Dependents(r, workspace, workflow);
    Audited(r, InvalidationAudit(ids)).(apps := BumpAll(r.apps, ids))
  }

  // ---------------------------------------------------------------- publication

  function PublishRefusal(r: Repo, id: Id, rel: Release): Outcome {
    if !InScope(r, rel.workspace, rel.app) then NotFound
    else
      var app := r.apps[rel.app];
      if app.archived || app.suspended then NotPublishable
      else if rel.deployment !in r.deployments || r.deployments[rel.deployment].app != rel.app
              || r.deployments[rel.deployment].workspace != app.workspace || !r.deployments[rel.deployment].status.Ready? then NotReady
      else if rel.revision != app.revision + (if rel.visibility != app.visibility then 1 else 0) then StaleRevision
      else if id in r.releases then Exists
      else Done
  }

  function Publish(r: Repo, id: Id, rel: Release): (Repo, Outcome) {
    if PublishRefusal(r, id, rel) != Done then (r, PublishRefusal(r, id, rel))
    else
      var app := r.apps[rel.app].(revision := rel.revision, visibility := rel.visibility, activeRelease := Some(id),
                                  state := Published, publishedRevision := Some(rel.revision));
      (Record(r, ReleasePublished, Some(rel.app)).(releases := r.releases[id := rel], apps := r.apps[rel.app := app]), Done)
  }

  function Unpublish(r: Repo, workspace: Id, id: Id): (Repo, Outcome) {
    if !InScope(r, workspace, id) then (r, NotFound)
    else (Record(r, ReleaseUnpublished, Some(id)).(apps := r.apps[id := r.apps[id].(state := Unpublished)]), Done)
  }

  // ---------------------------------------------------------------- the platform's side

  function ReservePlatformAlias(r: Repo, alias: string): (Repo, Outcome) {
    if alias in r.aliases then (r, AliasTaken)
    else (Record(r, PlatformAliasReserved, None).(aliases := r.aliases[alias := Alias(None, None, PlatformKind, None)]), Done)
  }

  function CreateBlock(r: Repo, id: Id, target: Target): Repo {
    Record(r, Blocked, None).(blocks := r.blocks[id := Block(target, false)])
  }

  function LiftBlock(r: Repo, id: Id): (Repo, Outcome) {
    if id !in r.blocks then (r, NotFound)
    else if r.blocks[id].lifted then (r, Done)
    else (Record(r, Reinstated, None).(blocks := r.blocks[id := r.blocks[id].(lifted := true)]), Done)
  }

  function SetRuntime(r: Repo, enabled: bool): Repo {
    Record(r, RuntimeChanged, None).(runtime := Runtime(r.runtime.generation + 1, enabled))
  }

  predicate TargetsOf(target: Target, alias: string, id: Id, app: App) {
    match target.kind
    case AliasTarget => target.text == alias
    case AppTarget => target.id == id
    case WorkspaceTarget => target.id == app.workspace
    case PublisherTarget => target.text == app.owner
  }

  predicate IsBlocked(r: Repo, alias: string, id: Id, app: App) {
    exists b :: b in r.blocks && !r.blocks[b].lifted && TargetsOf(r.blocks[b].target, alias, id, app)
  }

  // ---------------------------------------------------------------- reads

  datatype Resolution =
    | RuntimeOff
    | UnknownAlias
    | UnknownApp
    | Suspended(generation: nat)
    | NotPublished
    | UnknownRelease
    | Delivered(generation: nat, workspace: Id, app: Id, release: Id, deployment: Id, visibility: Visibility)

  function Resolve(r: Repo, alias: string): Resolution {
    if !r.runtime.enabled then RuntimeOff
    else if alias !in r.aliases || !r.aliases[alias].kind.AppKind? || r.aliases[alias].app.None? || r.aliases[alias].workspace.None? then
      UnknownAlias
    else
      var row := r.aliases[alias];
      if !InScope(r, row.workspace.value, row.app.value) then UnknownApp
      else
        var app := r.apps[row.app.value];
        if app.suspended || IsBlocked(r, alias, row.app.value, app) then Suspended(r.runtime.generation)
        else if app.archived || !app.state.Published? || app.activeRelease.None? then NotPublished
        else if app.activeRelease.value !in r.releases then UnknownRelease
        else
          var rel := r.releases[app.activeRelease.value];
          Delivered(r.runtime.generation, app.workspace, row.app.value, app.activeRelease.value, rel.deployment, rel.visibility)
  }

  datatype ActiveDeployment = NoApp | NoRelease | ReleaseUnavailable | Active(deployment: Id)

  function GetActiveDeployment(r: Repo, workspace: Id, id: Id): ActiveDeployment {
    if !InScope(r, workspace, id) then NoApp
    else if r.apps[id].activeRelease.None? then NoRelease
    else if r.apps[id].activeRelease.value !in r.releases then ReleaseUnavailable
    else Active(r.releases[r.apps[id].activeRelease.value].deployment)
  }

  // ---------------------------------------------------------------- any mutation

  datatype Action =
    | DoCreateApp(id: Id, app: App, alias: string, now: Time)
    | DoUpdateApp(id: Id, app: App)
    | DoReserveAlias(id: Id, workspace: Id, alias: string, now: Time, rest: Time)
    | DoAddDeployment(id: Id, deployment: Deployment)
    | DoSaveBinding(id: Id, grant: Grant)
    | DoDeleteBinding(workspace: Id, app_: Id, id: Id)
    | DoInvalidate(workspace: Id, workflow: Id)
    | DoSaveCollection(id: Id, grant: Grant)
    | DoDeleteCollection(workspace: Id, app_: Id, id: Id)
    | DoPublish(id: Id, release: Release)
    | DoUnpublish(workspace: Id, id: Id)
    | DoReservePlatformAlias(alias: string)
    | DoCreateBlock(id: Id, target: Target)
    | DoLiftBlock(id: Id)
    | DoSetRuntime(enabled: bool)

  function Step(r: Repo, a: Action): (Repo, Outcome) {
    match a
    case DoCreateApp(id, app, alias, now) => CreateApp(r, id, app, alias, now)
    case DoUpdateApp(id, app) => UpdateApp(r, id, app)
    case DoReserveAlias(id, workspace, alias, now, rest) => ReserveAlias(r, id, workspace, alias, now, rest)
    case DoAddDeployment(id, d) => AddDeployment(r, id, d)
    case DoSaveBinding(id, g) => SaveBinding(r, id, g)
    case DoDeleteBinding(workspace, app, id) => DeleteBinding(r, workspace, app, id)
    case DoInvalidate(workspace, workflow) => (Invalidate(r, workspace, workflow), Done)
    case DoSaveCollection(id, g) => SaveCollection(r, id, g)
    case DoDeleteCollection(workspace, app, id) => DeleteCollection(r, workspace, app, id)
    case DoPublish(id, rel) => Publish(r, id, rel)
    case DoUnpublish(workspace, id) => Unpublish(r, workspace, id)
    case DoReservePlatformAlias(alias) => ReservePlatformAlias(r, alias)
    case DoCreateBlock(id, target) => (CreateBlock(r, id, target), Done)
    case DoLiftBlock(id) => LiftBlock(r, id)
    case DoSetRuntime(enabled) => (SetRuntime(r, enabled), Done)
  }

  /** A new app carries the default release and revision fields. */
  predicate IsNew(app: App) {
    app.state.Draft? && app.activeRelease.None? && app.publishedRevision.None? && app.revision >= 1
  }

  /** An updated app carries the stored release fields, and one more revision if the request names a visibility. */
  predicate IsCurrent(stored: App, app: App) {
    && app.state == stored.state && app.activeRelease == stored.activeRelease
    && app.publishedRevision == stored.publishedRevision
    && (app.revision == stored.revision + 1 || (app.revision == stored.revision && app.visibility == stored.visibility))
  }

  /** What the router guarantees of the objects it stores. */
  predicate Honest(r: Repo, a: Action) {
    && (a.DoCreateApp? ==> IsNew(a.app))
    && (a.DoUpdateApp? && a.id in r.apps ==> IsCurrent(r.apps[a.id], a.app))
  }

  ghost predicate HonestRun(r: Repo, actions: seq<Action>)
    decreases |actions|
  {
    actions != [] ==> Honest(r, actions[0]) && HonestRun(Step(r, actions[0]).0, actions[1..])
  }

  function After(r: Repo, actions: seq<Action>): Repo
    decreases |actions|
  {
    if actions == [] then r else After(Step(r, actions[0]).0, actions[1..])
  }

  // ---------------------------------------------------------------- the global invariant

  ghost predicate AliasesOk(r: Repo) {
    && (forall a :: a in r.aliases && r.aliases[a].kind.AppKind? ==>
          && r.aliases[a].app.Some? && r.aliases[a].app.value in r.apps
          && r.aliases[a].workspace == Some(r.apps[r.aliases[a].app.value].workspace))
    && (forall a :: a in r.aliases && r.aliases[a].app.Some? ==> r.aliases[a].kind.AppKind?)
    && (forall a, b :: a in r.aliases && b in r.aliases && r.aliases[a].app.Some? && r.aliases[a].app == r.aliases[b].app ==> a == b)
    && (forall i :: i in r.apps ==> HasAlias(r.aliases, i))
  }

  ghost predicate HasAlias(aliases: map<string, Alias>, id: Id) {
    exists a :: a in aliases && aliases[a].app == Some(id)
  }

  predicate SameLiveName(g: Grant, h: Grant) {
    !g.deleted && !h.deleted && g.app == h.app && g.name == h.name
  }

  ghost predicate GrantsOk(r: Repo, items: map<Id, Grant>) {
    && (forall i :: i in items ==> InScope(r, items[i].workspace, items[i].app))
    && (forall i, j :: i in items && j in items && SameLiveName(items[i], items[j]) ==> i == j)
  }

  /** The release an app points at, if any, selects a READY deployment of that app. */
  predicate ReleaseOk(r: Repo, id: Id)
    requires id in r.apps
  {
    var app := r.apps[id];
    && (app.state.Published? ==> app.activeRelease.Some?)
    && (app.activeRelease.Some? ==>
          && app.activeRelease.value in r.releases
          && var rel := r.releases[app.activeRelease.value];
             && rel.app == id && rel.workspace == app.workspace
             && rel.deployment in r.deployments
             && r.deployments[rel.deployment].app == id && r.deployments[rel.deployment].workspace == app.workspace
             && r.deployments[rel.deployment].status.Ready?)
  }

  ghost predicate Invariant(r: Repo) {
    && AliasesOk(r)
    && GrantsOk(r, r.bindings)
    && GrantsOk(r, r.collections)
    && forall i :: i in r.apps ==> ReleaseOk(r, i)
  }

  /** Same apps, same workspaces. */
  predicate SameScopes(r: Repo, r': Repo) {
    r'.apps.Keys == r.apps.Keys && forall i :: i in r.apps ==> r'.apps[i].workspace == r.apps[i].workspace
  }

  lemma AliasesKept(r: Repo, r': Repo)
    requires AliasesOk(r) && SameScopes(r, r') && r'.aliases == r.aliases
    ensures AliasesOk(r')
  {
  }

  lemma GrantsKept(r: Repo, r': Repo, items: map<Id, Grant>)
    requires GrantsOk(r, items) && (forall i :: i in r.apps ==> i in r'.apps && r'.apps[i].workspace == r.apps[i].workspace)
    ensures GrantsOk(r', items)
  {
  }

  /** Releases and deployments are only added, and an app keeps its publication fields. */
  lemma ReleaseKept(r: Repo, r': Repo, id: Id)
    requires id in r.apps && ReleaseOk(r, id) && id in r'.apps
    requires forall k :: k in r.releases ==> k in r'.releases && r'.releases[k] == r.releases[k]
    requires forall k :: k in r.deployments ==> k in r'.deployments && r'.deployments[k] == r.deployments[k]
    requires r'.apps[id].workspace == r.apps[id].workspace && r'.apps[id].activeRelease == r.apps[id].activeRelease
    requires r'.apps[id].state == r.apps[id].state || r'.apps[id].state.Unpublished?
    ensures ReleaseOk(r', id)
  {
  }

  /** An alias freed by nobody else's app can be taken by an app that owns no other alias, or gives up the ones it owns. */
  lemma TakenAliasOk(r: Repo, id: Id, alias: string, now: Time)
    requires AliasesOk(r) && AliasRefusal(r, id, alias, now).Done?
    ensures alias in r.aliases ==> r.aliases[alias].app.None? || r.aliases[alias].app == Some(id)
  {
  }

  lemma HasAliasKept(aliases: map<string, Alias>, aliases': map<string, Alias>, id: Id)
    requires HasAlias(aliases, id)
    requires forall a :: a in aliases && aliases[a].app == Some(id) ==> a in aliases' && aliases'[a].app == Some(id)
    ensures HasAlias(aliases', id)
  {
  }

  lemma CreateKeepsAliases(r: Repo, id: Id, app: App, alias: string, now: Time)
    requires AliasesOk(r)
    ensures AliasesOk(CreateApp(r, id, app, alias, now).0)
  {
    hide CreateApp, AliasRefusal, HasAlias;
    var r' := CreateApp(r, id, app, alias, now).0;
    CreateStores(r, id, app, alias, now);
    if r' != r {
      TakenAliasOk(r, id, alias, now);
      CreateKeepsOwners(r, id, app, alias, now);
      assert forall a :: a in r.aliases ==> r.aliases[a].app != Some(id);
    }
  }

  /** A creation stores the app and a new row for its alias, or nothing. */
  lemma CreateStores(r: Repo, id: Id, app: App, alias: string, now: Time)
    requires AliasesOk(r)
    ensures var r' := CreateApp(r, id, app, alias, now).0;
            r' == r ||
            (&& id !in r.apps && AliasRefusal(r, id, alias, now).Done? && r'.apps == r.apps[id := app]
             && r'.aliases == r.aliases[alias := Alias(Some(id), Some(app.workspace), AppKind, None)])
  {
    hide AliasRefusal, HasAlias;
  }

  lemma CreateKeepsOwners(r: Repo, id: Id, app: App, alias: string, now: Time)
    requires AliasesOk(r) && CreateApp(r, id, app, alias, now).0 != r
    ensures var r' := CreateApp(r, id, app, alias, now).0; forall i :: i in r'.apps ==> HasAlias(r'.aliases, i)
  {
    var r' := CreateApp(r, id, app, alias, now).0;
    TakenAliasOk(r, id, alias, now);
    hide AliasRefusal;
    assert r'.aliases[alias].app == Some(id);
    forall i | i in r'.apps ensures HasAlias(r'.aliases, i) {
      if i != id { HasAliasKept(r.aliases, r'.aliases, i); }
    }
  }

  lemma ReserveKeepsAliases(r: Repo, id: Id, workspace: Id, alias: string, now: Time, rest: Time)
    requires AliasesOk(r)
    ensures AliasesOk(ReserveAlias(r, id, workspace, alias, now, rest).0)
  {
    hide ReserveAlias, AliasRefusal, HasAlias, Reservation;
    var r' := ReserveAlias(r, id, workspace, alias, now, rest).0;
    ReserveStores(r, id, workspace, alias, now, rest);
    if r' != r {
      TakenAliasOk(r, id, alias, now);
      ReserveKeepsOwners(r, id, workspace, alias, now, rest);
      ReservedRow(r, id, workspace, alias);
    }
  }

  /** A reservation stores a row for the alias and retires the app's others, or does nothing. */
  lemma ReserveStores(r: Repo, id: Id, workspace: Id, alias: string, now: Time, rest: Time)
    ensures var r' := ReserveAlias(r, id, workspace, alias, now, rest).0;
            r' == r ||
            (&& InScope(r, workspace, id) && AliasRefusal(r, id, alias, now).Done? && r'.apps == r.apps
             && r'.aliases == Retire(r.aliases[alias := Reservation(r, id, workspace, alias)], id, alias, now + rest))
  {
    hide AliasRefusal, Reservation, InScope, Retire;
  }

  lemma ReservedRow(r: Repo, id: Id, workspace: Id, alias: string)
    requires AliasesOk(r) && InScope(r, workspace, id)
    ensures var row := Reservation(r, id, workspace, alias); row.kind.AppKind? && row.app == Some(id) && row.workspace == Some(workspace)
  {
    hide HasAlias;
  }

  lemma ReserveKeepsOwners(r: Repo, id: Id, workspace: Id, alias: string, now: Time, rest: Time)
    requires AliasesOk(r) && ReserveAlias(r, id, workspace, alias, now, rest).0 != r
    ensures var r' := ReserveAlias(r, id, workspace, alias, now, rest).0; forall i :: i in r'.apps ==> HasAlias(r'.aliases, i)
  {
    var r' := ReserveAlias(r, id, workspace, alias, now, rest).0;
    TakenAliasOk(r, id, alias, now);
    hide AliasRefusal;
    assert r'.aliases[alias].app == Some(id);
    forall i | i in r'.apps ensures HasAlias(r'.aliases, i) {
      if i != id { HasAliasKept(r.aliases, r'.aliases, i); }
    }
  }

  lemma PlatformKeepsAliases(r: Repo, alias: string)
    requires AliasesOk(r)
    ensures AliasesOk(ReservePlatformAlias(r, alias).0)
  {
    hide ReservePlatformAlias, HasAlias;
    PlatformStores(r, alias);
    PlatformKeepsOwners(r, alias);
  }

  /** The platform's reservation adds a row that belongs to no app, or does nothing. */
  lemma PlatformStores(r: Repo, alias: string)
    ensures var r' := ReservePlatformAlias(r, alias).0;
            && r'.apps == r.apps
            && (r' == r || (alias !in r.aliases && r'.aliases == r.aliases[alias := Alias(None, None, PlatformKind, None)]))
  {
  }

  lemma PlatformKeepsOwners(r: Repo, alias: string)
    requires AliasesOk(r)
    ensures var r' := ReservePlatformAlias(r, alias).0; forall i :: i in r'.apps ==> HasAlias(r'.aliases, i)
  {
    hide ReservePlatformAlias, HasAlias;
    var r' := ReservePlatformAlias(r, alias).0;
    PlatformStores(r, alias);
    forall i | i in r'.apps ensures HasAlias(r'.aliases, i) { HasAliasKept(r.aliases, r'.aliases, i); }
  }

  lemma SaveKeepsGrants(r: Repo, items: map<Id, Grant>, id: Id, g: Grant)
    requires GrantsOk(r, items) && SaveRefusal(r, items, id, g).Done?
    ensures GrantsOk(r, items[id := g])
  {
    var items' := items[id := g];
    forall i, j | i in items' && j in items' && SameLiveName(items'[i], items'[j]) ensures i == j
    {
      assert !NameClash(items, id, g);
    }
  }

  lemma DeleteKeepsGrants(r: Repo, items: map<Id, Grant>, id: Id)
    requires GrantsOk(r, items) && id in items
    ensures GrantsOk(r, items[id := items[id].(deleted := true)])
  {
  }

  /** An app's record after a successful capability change of app `app`. */
  predicate Bumped(r: Repo, r': Repo, app: Id, done: bool) {
    if done then app in r.apps && r'.apps == r.apps[app := Bump(r.apps[app])] else r'.apps == r.apps
  }

  lemma SavesBump(r: Repo, id: Id, g: Grant)
    ensures Bumped(r, SaveBinding(r, id, g).0, g.app, SaveBinding(r, id, g).1.Done?)
    ensures Bumped(r, SaveCollection(r, id, g).0, g.app, SaveCollection(r, id, g).1.Done?)
  {
    hide NameClash, Record;
  }

  lemma DeletesBump(r: Repo, workspace: Id, app: Id, id: Id)
    ensures Bumped(r, DeleteBinding(r, workspace, app, id).0, app, DeleteBinding(r, workspace, app, id).1.Done?)
    ensures Bumped(r, DeleteCollection(r, workspace, app, id).0, app, DeleteCollection(r, workspace, app, id).1.Done?)
  {
    hide Record;
  }

  lemma DeploymentBumps(r: Repo, id: Id, d: Deployment)
    ensures var (r', outcome) := AddDeployment(r, id, d); Bumped(r, r', d.app, outcome.Done? && d.status.Ready? && d.hasManifest)
  {
    hide Record;
  }

  lemma InvalidateBumps(r: Repo, workspace: Id, workflow: Id, id: Id)
    requires id in r.apps
    ensures var r' := Invalidate(r, workspace, workflow);
            id in r'.apps && r'.apps[id] == if id in Dependents(r, workspace, workflow) then Bump(r.apps[id]) else r.apps[id]
  {
    hide Dependents, Audited;
  }

  lemma UpdateStores(r: Repo, id: Id, app: App)
    ensures var (r', outcome) := UpdateApp(r, id, app);
            if outcome.Done? then id in r.apps && r'.apps == r.apps[id := app] else r'.apps == r.apps
  {
    hide Record;
  }

  /** Only creation, reservation and the platform change aliases. */
  lemma StepAliases(r: Repo, a: Action)
    ensures !a.DoCreateApp? && !a.DoReserveAlias? && !a.DoReservePlatformAlias? ==> Step(r, a).0.aliases == r.aliases
  {
    hide SaveRefusal, PublishRefusal, AliasRefusal, NameClash, Retire, Dependents, InvalidationAudit, Record, Audited, Deletable, BumpAll;
  }

  /** Only creation adds an app; no app moves. */
  lemma StepScopes(r: Repo, a: Action)
    requires !a.DoCreateApp?
    ensures SameScopes(r, Step(r, a).0)
  {
    hide SaveBinding, SaveCollection, DeleteBinding, DeleteCollection, AddDeployment, Dependents, AliasRefusal, Retire, Record, Audited,
      PublishRefusal, Reservation, InvalidationAudit, ReserveAlias;
    match a
    case DoReserveAlias(id, workspace, alias, now, rest) => ReserveStores(r, id, workspace, alias, now, rest);
    case DoSaveBinding(i, g) => SavesBump(r, i, g);
    case DoSaveCollection(i, g) => SavesBump(r, i, g);
    case DoDeleteBinding(workspace, app, i) => DeletesBump(r, workspace, app, i);
    case DoDeleteCollection(workspace, app, i) => DeletesBump(r, workspace, app, i);
    case DoAddDeployment(i, d) => DeploymentBumps(r, i, d);
    case DoPublish(i, rel) => if PublishRefusal(r, i, rel).Done? { PublishableApp(r, i, rel); }
    case _ =>
  }

  lemma PublishableApp(r: Repo, id: Id, rel: Release)
    requires PublishRefusal(r, id, rel).Done?
    ensures rel.app in r.apps
  {
  }

  lemma StepKeepsAliases(r: Repo, a: Action)
    requires AliasesOk(r)
    ensures AliasesOk(Step(r, a).0)
  {
    match a
    case DoCreateApp(id, app, alias, now) => CreateKeepsAliases(r, id, app, alias, now);
    case DoReserveAlias(id, workspace, alias, now, rest) => ReserveKeepsAliases(r, id, workspace, alias, now, rest);
    case DoReservePlatformAlias(alias) => PlatformKeepsAliases(r, alias);
    case _ =>
      hide *;
      StepScopes(r, a);
      StepAliases(r, a);
      AliasesKept(r, Step(r, a).0);
  }

  lemma AppsStay(r: Repo, a: Action)
    ensures forall i :: i in r.apps ==> i in Step(r, a).0.apps && Step(r, a).0.apps[i].workspace == r.apps[i].workspace
  {
    if a.DoCreateApp? {
      hide AliasRefusal, Record, Reservation;
    } else {
      StepScopes(r, a);
      hide Step;
    }
  }

  /** Grants after an action on one of the two kinds. */
  function GrantsAfter(r: Repo, items: map<Id, Grant>, a: Action, bindings: bool): map<Id, Grant> {
    match a
    case DoSaveBinding(id, g) => if bindings && SaveRefusal(r, items, id, g).Done? then items[id := g] else items
    case DoSaveCollection(id, g) => if !bindings && SaveRefusal(r, items, id, g).Done? then items[id := g] else items
    case DoDeleteBinding(workspace, app, id) =>
      if bindings && Deletable(r, items, workspace, app, id) then items[id := items[id].(deleted := true)] else items
    case DoDeleteCollection(workspace, app, id) =>
      if !bindings && Deletable(r, items, workspace, app, id) then items[id := items[id].(deleted := true)] else items
    case _ => items
  }

  lemma StepGrants(r: Repo, a: Action)
    ensures Step(r, a).0.bindings == GrantsAfter(r, r.bindings, a, true)
    ensures Step(r, a).0.collections == GrantsAfter(r, r.collections, a, false)
  {
    StepBindings(r, a);
    hide Retire, Record, Audited, InvalidationAudit, AliasRefusal, NameClash, Reservation, PublishRefusal, SaveRefusal, Deletable;
  }

  lemma StepBindings(r: Repo, a: Action)
    ensures Step(r, a).0.bindings == GrantsAfter(r, r.bindings, a, true)
  {
    hide Retire, Record, Audited, InvalidationAudit, AliasRefusal, NameClash, Reservation, PublishRefusal, SaveRefusal, Deletable;
  }

  lemma GrantsAfterOk(r: Repo, items: map<Id, Grant>, a: Action, bindings: bool)
    requires GrantsOk(r, items)
    ensures GrantsOk(r, GrantsAfter(r, items, a, bindings))
  {
    hide GrantsOk, SaveRefusal;
    match a
    case DoSaveBinding(id, g) => if SaveRefusal(r, items, id, g).Done? { SaveKeepsGrants(r, items, id, g); }
    case DoSaveCollection(id, g) => if SaveRefusal(r, items, id, g).Done? { SaveKeepsGrants(r, items, id, g); }
    case DoDeleteBinding(workspace, app, id) =>
      if Deletable(r, items, workspace, app, id) { DeleteKeepsGrants(r, items, id); }
    case DoDeleteCollection(workspace, app, id) =>
      if Deletable(r, items, workspace, app, id) { DeleteKeepsGrants(r, items, id); }
    case _ =>
  }

  lemma StepKeepsGrants(r: Repo, a: Action)
    requires GrantsOk(r, r.bindings) && GrantsOk(r, r.collections)
    ensures GrantsOk(Step(r, a).0, Step(r, a).0.bindings) && GrantsOk(Step(r, a).0, Step(r, a).0.collections)
  {
    hide *;
    AppsStay(r, a);
    StepGrants(r, a);
    GrantsAfterOk(r, r.bindings, a, true);
    GrantsAfterOk(r, r.collections, a, false);
    GrantsKept(r, Step(r, a).0, GrantsAfter(r, r.bindings, a, true));
    GrantsKept(r, Step(r, a).0, GrantsAfter(r, r.collections, a, false));
  }

  /** Releases and deployments are only ever added. */
  lemma StepHistory(r: Repo, a: Action)
    ensures !a.DoPublish? ==> Step(r, a).0.releases == r.releases
    ensures forall k :: k in r.deployments ==> k in Step(r, a).0.deployments && Step(r, a).0.deployments[k] == r.deployments[k]
  {
    StepReleases(r, a);
    hide Retire, Record, Audited, InvalidationAudit, AliasRefusal, NameClash, Reservation, BumpAll, InScope, PublishRefusal, SaveRefusal,
      Deletable;
  }

  lemma StepReleases(r: Repo, a: Action)
    ensures !a.DoPublish? ==> Step(r, a).0.releases == r.releases
  {
    hide Retire, Record, Audited, InvalidationAudit, AliasRefusal, NameClash, Reservation, BumpAll, InScope, PublishRefusal, SaveRefusal,
      Deletable;
  }

  /** Besides creation, publication and dishonest updates, no step changes what an app publishes. */
  lemma StepPublication(r: Repo, a: Action, i: Id)
    requires Honest(r, a) && !a.DoCreateApp? && !a.DoPublish? && i in r.apps && i in Step(r, a).0.apps
    ensures var app := Step(r, a).0.apps[i];
            app.activeRelease == r.apps[i].activeRelease && (app.state == r.apps[i].state || app.state.Unpublished?)
  {
    hide Retire, Record, Audited, InvalidationAudit, AliasRefusal, NameClash, Reservation, Dependents, InScope, SaveRefusal, Deletable;
  }

  lemma PublishKeepsReleases(r: Repo, id: Id, rel: Release)
    requires forall i :: i in r.apps ==> ReleaseOk(r, i)
    ensures var r' := Publish(r, id, rel).0; forall i :: i in r'.apps ==> ReleaseOk(r', i)
  {
    var r' := Publish(r, id, rel).0;
    if r' != r {
      forall i | i in r'.apps ensures ReleaseOk(r', i) {
        if i != rel.app { ReleaseKept(r, r', i); }
      }
    }
  }

  lemma CreateKeepsReleases(r: Repo, id: Id, app: App, alias: string, now: Time)
    requires (forall i :: i in r.apps ==> ReleaseOk(r, i)) && IsNew(app)
    ensures var r' := CreateApp(r, id, app, alias, now).0; forall i :: i in r'.apps ==> ReleaseOk(r', i)
  {
    var r' := CreateApp(r, id, app, alias, now).0;
    forall i | i in r'.apps ensures ReleaseOk(r', i) {
      if i in r.apps { ReleaseKept(r, r', i); }
    }
  }

  lemma OtherKeepsReleases(r: Repo, a: Action)
    requires (forall i :: i in r.apps ==> ReleaseOk(r, i)) && Honest(r, a) && !a.DoCreateApp? && !a.DoPublish?
    ensures forall i :: i in Step(r, a).0.apps ==> ReleaseOk(Step(r, a).0, i)
  {
    hide *;
    var r' := Step(r, a).0;
    StepScopes(r, a);
    StepHistory(r, a);
    SameApps(r, r');
    forall i | i in r'.apps ensures ReleaseOk(r', i) {
      StepPublication(r, a, i);
      ReleaseKept(r, r', i);
    }
  }

  lemma SameApps(r: Repo, r': Repo)
    requires SameScopes(r, r')
    ensures r'.apps.Keys == r.apps.Keys && forall i :: i in r.apps ==> i in r'.apps && r'.apps[i].workspace == r.apps[i].workspace
  {
  }

  lemma StepKeepsReleases(r: Repo, a: Action)
    requires (forall i :: i in r.apps ==> ReleaseOk(r, i)) && Honest(r, a)
    ensures forall i :: i in Step(r, a).0.apps ==> ReleaseOk(Step(r, a).0, i)
  {
    hide ReleaseOk, CreateApp, Publish;
    match a
    case DoCreateApp(id, app, alias, now) => CreateKeepsReleases(r, id, app, alias, now);
    case DoPublish(id, rel) => PublishKeepsReleases(r, id, rel);
    case _ => hide *; OtherKeepsReleases(r, a);
  }

  lemma StepKeeps(r: Repo, a: Action)
    requires Invariant(r) && Honest(r, a)
    ensures Invariant(Step(r, a).0)
  {
    hide AliasesOk, GrantsOk, ReleaseOk, Step, Honest;
    StepKeepsAliases(r, a);
    StepKeepsGrants(r, a);
    StepKeepsReleases(r, a);
  }

  /** The invariant holds in every state honest callers can reach. */
  lemma {:induction false} RunKeeps(r: Repo, actions: seq<Action>)
    requires Invariant(r) && HonestRun(r, actions)
    ensures Invariant(After(r, actions))
    decreases |actions|
  {
    hide Invariant, Step, Honest;
    if actions != [] {
      StepKeeps(r, actions[0]);
      RunKeeps(Step(r, actions[0]).0, actions[1..]);
    }
  }

  // ---------------------------------------------------------------- unreachable fallbacks

  /** Every listed app has exactly one live alias, so a page can always name it. */
  lemma ListedAppHasOneAlias(actions: seq<Action>, id: Id)
    requires HonestRun(Empty(), actions) && id in After(Empty(), actions).apps
    ensures var r := After(Empty(), actions);
            exists a :: a in r.aliases && IsAliasOf(r.aliases[a], r.apps[id].workspace, id)
              && forall b :: b in r.aliases && r.aliases[b].app == Some(id) ==> b == a
  {
    RunKeeps(Empty(), actions);
    var r := After(Empty(), actions);
    hide After, HonestRun;
    assert HasAlias(r.aliases, id);
    var a :| a in r.aliases && r.aliases[a].app == Some(id);
    assert IsAliasOf(r.aliases[a], r.apps[id].workspace, id);
  }

  /** The "release unavailable" and "unknown release" answers cannot occur, nor can an alias lead to a missing app. */
  lemma NoDanglingReads(actions: seq<Action>, workspace: Id, id: Id, alias: string)
    requires HonestRun(Empty(), actions)
    ensures var r := After(Empty(), actions);
            && !GetActiveDeployment(r, workspace, id).ReleaseUnavailable?
            && !Resolve(r, alias).UnknownRelease? && !Resolve(r, alias).UnknownApp?
  {
    RunKeeps(Empty(), actions);
    var r := After(Empty(), actions);
    hide After, HonestRun;
    assert forall i :: i in r.apps ==> ReleaseOk(r, i);
  }

  /** A published app that no one switched off is delivered through its alias, with a READY deployment of its own. */
  lemma PublishedIsDelivered(actions: seq<Action>, alias: string, id: Id)
    requires HonestRun(Empty(), actions)
    requires var r := After(Empty(), actions);
             && r.runtime.enabled && alias in r.aliases && r.aliases[alias].app == Some(id)
             && id in r.apps && r.apps[id].state.Published? && !r.apps[id].archived && !r.apps[id].suspended
             && !IsBlocked(r, alias, id, r.apps[id])
    ensures var r := After(Empty(), actions);
            var seen := Resolve(r, alias);
            && seen.Delivered? && seen.app == id && seen.workspace == r.apps[id].workspace
            && seen.deployment in r.deployments && r.deployments[seen.deployment].app == id
            && r.deployments[seen.deployment].status.Ready?
            && GetActiveDeployment(r, seen.workspace, id) == Active(seen.deployment)
  {
    RunKeeps(Empty(), actions);
    var r := After(Empty(), actions);
    hide After, HonestRun, IsBlocked;
    assert ReleaseOk(r, id);
  }

  // ---------------------------------------------------------------- review freshness

  /** Does this action change the capabilities of app `id`? */
  predicate ChangesCapabilities(r: Repo, a: Action, id: Id) {
    && id in r.apps && Step(r, a).1.Done?
    && match a
       case DoUpdateApp(i, app) => i == id && app.revision != r.apps[id].revision
       case DoAddDeployment(_, d) => d.app == id && d.status.Ready? && d.hasManifest
       case DoSaveBinding(_, g) => g.app == id
       case DoSaveCollection(_, g) => g.app == id
       case DoDeleteBinding(_, app, _) => app == id
       case DoDeleteCollection(_, app, _) => app == id
       case DoInvalidate(workspace, workflow) => id in Dependents(r, workspace, workflow)
       case _ => false
  }

  predicate Publishes(r: Repo, a: Action, id: Id) {
    a.DoPublish? && a.release.app == id && Step(r, a).1.Done?
  }

  /** Capability changes of app `id` after its last publish in this run, starting from `before`. */
  function ChangesSince(r: Repo, actions: seq<Action>, id: Id, before: nat): nat
    decreases |actions|
  {
    if actions == [] then before
    else
      ChangesSince(Step(r, actions[0]).0, actions[1..], id,
        if Publishes(r, actions[0], id) then 0 else if ChangesCapabilities(r, actions[0], id) then before + 1 else before)
  }

  predicate FreshBy(app: App, changes: nat) {
    app.publishedRevision.Some? ==> app.revision == app.publishedRevision.value + changes
  }

  /** A capability change adds one revision; besides publishing, nothing else moves either revision. */
  lemma StepRevises(r: Repo, a: Action, id: Id)
    requires Honest(r, a) && id in r.apps && !a.DoPublish? && !a.DoCreateApp?
    ensures var r' := Step(r, a).0;
            && id in r'.apps && r'.apps[id].publishedRevision == r.apps[id].publishedRevision
            && r'.apps[id].revision == r.apps[id].revision + (if ChangesCapabilities(r, a, id) then 1 else 0)
  {
    hide SaveBinding, SaveCollection, DeleteBinding, DeleteCollection, AddDeployment, Dependents, CreateApp, UpdateApp, ReserveAlias,
      Publish, Unpublish, ReservePlatformAlias, CreateBlock, LiftBlock, SetRuntime, Invalidate;
    match a
    case DoSaveBinding(i, g) => SavesBump(r, i, g);
    case DoSaveCollection(i, g) => SavesBump(r, i, g);
    case DoDeleteBinding(workspace, app, i) => DeletesBump(r, workspace, app, i);
    case DoDeleteCollection(workspace, app, i) => DeletesBump(r, workspace, app, i);
    case DoAddDeployment(i, d) => DeploymentBumps(r, i, d);
    case DoInvalidate(workspace, workflow) => InvalidateBumps(r, workspace, workflow, id);
    case DoUpdateApp(i, app) => UpdateStores(r, i, app);
    case _ => OthersRevise(r, a, id);
  }

  lemma OthersRevise(r: Repo, a: Action, id: Id)
    requires id in r.apps
    requires a.DoReserveAlias? || a.DoUnpublish? || a.DoReservePlatformAlias? || a.DoCreateBlock? || a.DoLiftBlock? || a.DoSetRuntime?
    ensures var r' := Step(r, a).0;
            id in r'.apps && r'.apps[id].revision == r.apps[id].revision && r'.apps[id].publishedRevision == r.apps[id].publishedRevision
  {
    hide Record, Retire, AliasRefusal, Reservation;
  }

  /** A publish reviews everything. */
  lemma PublishReviews(r: Repo, id: Id, rel: Release)
    requires rel.app in r.apps && Publish(r, id, rel).1.Done?
    ensures var app := Publish(r, id, rel).0.apps[rel.app];
            && app.publishedRevision == Some(app.revision)
            && app.revision == r.apps[rel.app].revision + (if rel.visibility != r.apps[rel.app].visibility then 1 else 0)
  {
    hide Record;
  }

  lemma StepTracks(r: Repo, a: Action, id: Id, changes: nat)
    requires Honest(r, a) && id in r.apps && FreshBy(r.apps[id], changes)
    ensures var r' := Step(r, a).0;
            && id in r'.apps && r'.apps[id].revision >= r.apps[id].revision
            && FreshBy(r'.apps[id], if Publishes(r, a, id) then 0 else if ChangesCapabilities(r, a, id) then changes + 1 else changes)
            && (Publishes(r, a, id) ==> r'.apps[id].publishedRevision.Some?)
            && (r.apps[id].publishedRevision.Some? ==> r'.apps[id].publishedRevision.Some?)
  {
    hide Record, Audited, PublishRefusal, AliasRefusal, Reservation;
    if a.DoPublish? {
      if a.release.app == id && Publish(r, a.id, a.release).1.Done? { PublishReviews(r, a.id, a.release); }
    } else if a.DoCreateApp? {
    } else {
      hide Step, ChangesCapabilities;
      StepRevises(r, a, id);
    }
  }

  lemma {:induction false} RunTracks(r: Repo, actions: seq<Action>, id: Id, changes: nat)
    requires HonestRun(r, actions) && id in r.apps && FreshBy(r.apps[id], changes)
    ensures var r' := After(r, actions);
            && id in r'.apps && r'.apps[id].revision >= r.apps[id].revision
            && FreshBy(r'.apps[id], ChangesSince(r, actions, id, changes))
            && (r.apps[id].publishedRevision.Some? ==> r'.apps[id].publishedRevision.Some?)
    decreases |actions|
  {
    hide Step, Honest, FreshBy, Publishes, ChangesCapabilities;
    if actions != [] {
      StepTracks(r, actions[0], id, changes);
      RunTracks(Step(r, actions[0]).0, actions[1..], id,
        if Publishes(r, actions[0], id) then 0 else if ChangesCapabilities(r, actions[0], id) then changes + 1 else changes);
    }
  }

  /**
    From the publish of a release on, the published revision equals the current one exactly
    when no capability of the app changed since its last publish, visibility flips included.
   */
  lemma ReviewFreshness(r: Repo, publish: Action, actions: seq<Action>, id: Id)
    requires Publishes(r, publish, id) && HonestRun(Step(r, publish).0, actions)
    ensures var r' := After(Step(r, publish).0, actions);
            && id in r'.apps && r'.apps[id].publishedRevision.Some?
            && (r'.apps[id].publishedRevision.value == r'.apps[id].revision <==>
                ChangesSince(Step(r, publish).0, actions, id, 0) == 0)
  {
    RunTracks(Step(r, publish).0, actions, id, 0);
  }

  // ---------------------------------------------------------------- updates from stale copies

  /** What a client changes in the copy it read; naming a visibility adds a revision. */
  datatype Edit = Edit(visibility: Option<Visibility>, archived: Option<bool>)

  function Edited(app: App, edit: Edit): App {
    var shown := if edit.visibility.Some? then app.(visibility := edit.visibility.value, revision := app.revision + 1) else app;
    if edit.archived.Some? then shown.(archived := edit.archived.value) else shown
  }

  /** A copy read earlier; `touched` once the app's review or publication changed after the read. */
  datatype Copy = Copy(id: Id, app: App, touched: bool)

  datatype Sys = Sys(repo: Repo, copies: map<Id, Copy>)

  /** Reading and writing back are two calls without a lock around them. */
  datatype Event = Read(client: Id, id: Id) | Write(client: Id, edit: Edit) | Other(action: Action)

  /** A capability change, a publish, or an unpublish of something not yet unpublished. */
  predicate Touches(r: Repo, a: Action, id: Id) {
    || ChangesCapabilities(r, a, id) || Publishes(r, a, id)
    || (a.DoUnpublish? && a.id == id && id in r.apps && Step(r, a).1.Done? && !r.apps[id].state.Unpublished?)
  }

  function Touched(copies: map<Id, Copy>, r: Repo, a: Action): map<Id, Copy> {
    map c | c in copies :: if Touches(r, a, copies[c].id) then copies[c].(touched := true) else copies[c]
  }

  function WriteBack(copy: Copy, edit: Edit): Action { DoUpdateApp(copy.id, Edited(copy.app, edit)) }

  /** What an event asks of the repository. */
  function Asked(s: Sys, e: Event): Option<Action> {
    match e
    case Read(_, _) => None
    case Write(client, edit) => if client in s.copies then Some(WriteBack(s.copies[client], edit)) else None
    case Other(a) => Some(a)
  }

  function Next(s: Sys, e: Event): Sys {
    match Asked(s, e)
    case Some(a) => Sys(Step(s.repo, a).0, Touched(s.copies, s.repo, a))
    case None =>
      if e.Read? && e.id in s.repo.apps then s.(copies := s.copies[e.client := Copy(e.id, s.repo.apps[e.id], false)]) else s
  }

  /** Updates come through copies only, and new apps are new. */
  predicate Proper(e: Event) {
    e.Other? ==> !e.action.DoUpdateApp? && (e.action.DoCreateApp? ==> IsNew(e.action.app))
  }

  /** A write whose app was touched between its read and itself. */
  predicate Late(s: Sys, e: Event) { e.Write? && e.client in s.copies && s.copies[e.client].touched }

  predicate SameReview(a: App, b: App) {
    && a.revision == b.revision && a.publishedRevision == b.publishedRevision
    && a.activeRelease == b.activeRelease && a.state == b.state
  }

  /** A write leaves the review and publication fields as the same edit of the current object would. */
  predicate Lands(s: Sys, e: Event) {
    e.Write? && e.client in s.copies && s.copies[e.client].id in s.repo.apps ==>
      SameReview(Edited(s.copies[e.client].app, e.edit), Edited(s.repo.apps[s.copies[e.client].id], e.edit))
  }

  function RunEvents(s: Sys, events: seq<Event>): Sys
    decreases |events|
  {
    if events == [] then s else RunEvents(Next(s, events[0]), events[1..])
  }

  predicate NoneLate(s: Sys, events: seq<Event>)
    decreases |events|
  {
    events == [] || (!Late(s, events[0]) && NoneLate(Next(s, events[0]), events[1..]))
  }

  predicate AllLand(s: Sys, events: seq<Event>)
    decreases |events|
  {
    events == [] || (Lands(s, events[0]) && AllLand(Next(s, events[0]), events[1..]))
  }

  /** The repository's part of a run. */
  function Actions(s: Sys, events: seq<Event>): seq<Action>
    decreases |events|
  {
    if events == [] then []
    else
      var rest := Actions(Next(s, events[0]), events[1..]);
      if Asked(s, events[0]).Some? then [Asked(s, events[0]).value] + rest else rest
  }

  /** The current object has moved on from a copy, and cannot come back to it. */
  predicate MovedOn(copy: App, current: App) {
    || copy.revision < current.revision
    || copy.activeRelease != current.activeRelease
    || (current.state.Unpublished? && !copy.state.Unpublished?)
  }

  predicate CopyOk(r: Repo, c: Copy) {
    && c.id in r.apps && r.apps[c.id].workspace == c.app.workspace
    && (c.app.activeRelease.Some? ==> c.app.activeRelease.value in r.releases)
    && (r.apps[c.id].activeRelease.Some? ==> r.apps[c.id].activeRelease.value in r.releases)
    && c.app.revision <= r.apps[c.id].revision
    && if c.touched then MovedOn(c.app, r.apps[c.id])
       else SameReview(c.app, r.apps[c.id]) && c.app.visibility == r.apps[c.id].visibility
  }

  ghost predicate CopiesOk(s: Sys) {
    && (forall c :: c in s.copies ==> CopyOk(s.repo, s.copies[c]))
    && (forall i :: i in s.repo.apps && s.repo.apps[i].activeRelease.Some? ==> s.repo.apps[i].activeRelease.value in s.repo.releases)
  }

  /** What an honest step does to one app, as far as its review and publication go. */
  predicate AppStep(r: Repo, r': Repo, id: Id, touched: bool)
    requires id in r.apps
  {
    && id in r'.apps && r'.apps[id].workspace == r.apps[id].workspace
    && (forall k :: k in r.releases ==> k in r'.releases)
    && var app, app' := r.apps[id], r'.apps[id];
       && app'.revision >= app.revision
       && (app'.activeRelease == app.activeRelease ||
           (app'.activeRelease.Some? && app'.activeRelease.value !in r.releases && app'.activeRelease.value in r'.releases))
       && (app.state.Unpublished? ==> app'.state.Unpublished? || app'.activeRelease != app.activeRelease)
       && if touched then MovedOn(app, app') else SameReview(app, app') && app'.visibility == app.visibility
  }

  lemma UpdateIsAppStep(r: Repo, i: Id, app: App, id: Id)
    requires Honest(r, DoUpdateApp(i, app)) && id in r.apps
    ensures AppStep(r, Step(r, DoUpdateApp(i, app)).0, id, Touches(r, DoUpdateApp(i, app), id))
  {
    hide Record;
  }

  lemma PublishIsAppStep(r: Repo, i: Id, rel: Release, id: Id)
    requires id in r.apps && (r.apps[id].activeRelease.Some? ==> r.apps[id].activeRelease.value in r.releases)
    ensures AppStep(r, Step(r, DoPublish(i, rel)).0, id, Touches(r, DoPublish(i, rel), id))
  {
    hide Record;
  }

  /** No other action touches a publication, nor the visibility. */
  lemma OthersKeepPublication(r: Repo, a: Action, id: Id)
    requires !a.DoCreateApp? && !a.DoPublish? && !a.DoUpdateApp? && id in r.apps && id in Step(r, a).0.apps
    ensures var app := Step(r, a).0.apps[id];
            && app.activeRelease == r.apps[id].activeRelease && app.visibility == r.apps[id].visibility
            && app.state == (if a.DoUnpublish? && a.id == id && Step(r, a).1.Done? then Unpublished else r.apps[id].state)
  {
    hide SaveBinding, SaveCollection, DeleteBinding, DeleteCollection, AddDeployment, Dependents, CreateApp, UpdateApp, ReserveAlias,
      Publish, Unpublish, ReservePlatformAlias, CreateBlock, LiftBlock, SetRuntime, Invalidate;
    match a
    case DoSaveBinding(i, g) => SavesBump(r, i, g);
    case DoSaveCollection(i, g) => SavesBump(r, i, g);
    case DoDeleteBinding(workspace, app, i) => DeletesBump(r, workspace, app, i);
    case DoDeleteCollection(workspace, app, i) => DeletesBump(r, workspace, app, i);
    case DoAddDeployment(i, d) => DeploymentBumps(r, i, d);
    case DoInvalidate(workspace, workflow) => InvalidateBumps(r, workspace, workflow, id);
    case _ => PlainKeepPublication(r, a, id);
  }

  lemma PlainKeepPublication(r: Repo, a: Action, id: Id)
    requires id in r.apps
    requires a.DoReserveAlias? || a.DoUnpublish? || a.DoReservePlatformAlias? || a.DoCreateBlock? || a.DoLiftBlock? || a.DoSetRuntime?
    ensures id in Step(r, a).0.apps
    ensures var app := Step(r, a).0.apps[id];
            && app.activeRelease == r.apps[id].activeRelease && app.visibility == r.apps[id].visibility
            && app.state == (if a.DoUnpublish? && a.id == id && Step(r, a).1.Done? then Unpublished else r.apps[id].state)
  {
    hide Record, Retire, AliasRefusal, Reservation;
  }

  lemma OtherIsAppStep(r: Repo, a: Action, id: Id)
    requires Honest(r, a) && id in r.apps && !a.DoCreateApp? && !a.DoPublish? && !a.DoUpdateApp?
    ensures AppStep(r, Step(r, a).0, id, Touches(r, a, id))
  {
    StepRevises(r, a, id);
    OthersKeepPublication(r, a, id);
    StepHistory(r, a);
    StepScopes(r, a);
    hide Step, ChangesCapabilities, Honest;
  }

  lemma CreateIsAppStep(r: Repo, i: Id, app: App, alias: string, now: Time, id: Id)
    requires id in r.apps
    ensures AppStep(r, Step(r, DoCreateApp(i, app, alias, now)).0, id, Touches(r, DoCreateApp(i, app, alias, now), id))
  {
    hide Record, AliasRefusal, Reservation;
  }

  lemma StepIsAppStep(r: Repo, a: Action, id: Id)
    requires Honest(r, a) && id in r.apps
    requires r.apps[id].activeRelease.Some? ==> r.apps[id].activeRelease.value in r.releases
    ensures AppStep(r, Step(r, a).0, id, Touches(r, a, id))
  {
    hide Step, Touches, Honest, AppStep;
    match a
    case DoCreateApp(i, app, alias, now) => CreateIsAppStep(r, i, app, alias, now, id);
    case DoPublish(i, rel) => PublishIsAppStep(r, i, rel, id);
    case DoUpdateApp(i, app) => UpdateIsAppStep(r, i, app, id);
    case _ => OtherIsAppStep(r, a, id);
  }

  lemma CopyFollows(r: Repo, r': Repo, c: Copy, touched: bool)
    requires CopyOk(r, c) && AppStep(r, r', c.id, touched)
    ensures CopyOk(r', if touched then c.(touched := true) else c)
  {
  }

  lemma StoredReleases(r: Repo, a: Action, i: Id)
    requires Honest(r, a) && (forall j :: j in r.apps && r.apps[j].activeRelease.Some? ==> r.apps[j].activeRelease.value in r.releases)
    requires i in Step(r, a).0.apps && Step(r, a).0.apps[i].activeRelease.Some?
    ensures Step(r, a).0.apps[i].activeRelease.value in Step(r, a).0.releases
  {
    if i in r.apps {
      StepIsAppStep(r, a, i);
    } else {
      NewAppHasNoRelease(r, a, i);
    }
    hide Step, Touches, Honest;
  }

  lemma NewAppHasNoRelease(r: Repo, a: Action, i: Id)
    requires Honest(r, a) && i !in r.apps && i in Step(r, a).0.apps
    ensures Step(r, a).0.apps[i].activeRelease.None?
  {
    if !a.DoCreateApp? { StepScopes(r, a); hide Step; } else { hide Record, AliasRefusal, Reservation; }
  }

  /** An action honest callers ask for keeps track of who read what. */
  lemma AskedKeepsCopies(s: Sys, a: Action)
    requires CopiesOk(s) && Honest(s.repo, a)
    ensures CopiesOk(Sys(Step(s.repo, a).0, Touched(s.copies, s.repo, a)))
  {
    var s' := Sys(Step(s.repo, a).0, Touched(s.copies, s.repo, a));
    forall c | c in s'.copies ensures CopyOk(s'.repo, s'.copies[c]) {
      StepIsAppStep(s.repo, a, s.copies[c].id);
      hide *;
      CopyFollows(s.repo, s'.repo, s.copies[c], Touches(s.repo, a, s.copies[c].id));
      TouchedCopy(s, a, c);
    }
    forall i | i in s'.repo.apps && s'.repo.apps[i].activeRelease.Some? ensures s'.repo.apps[i].activeRelease.value in s'.repo.releases {
      StoredReleases(s.repo, a, i);
    }
    hide Step, Touched, CopyOk, Honest;
  }

  lemma TouchedCopy(s: Sys, a: Action, c: Id)
    requires c in s.copies
    ensures c in Touched(s.copies, s.repo, a)
    ensures Touched(s.copies, s.repo, a)[c] == if Touches(s.repo, a, s.copies[c].id) then s.copies[c].(touched := true) else s.copies[c]
  {
    hide Touches;
  }

  /** A write lands exactly when it is not late, and then it is an honest update. */
  lemma LandsUnlessLate(s: Sys, e: Event)
    requires CopiesOk(s) && Proper(e)
    ensures Lands(s, e) <==> !Late(s, e)
    ensures !Late(s, e) && Asked(s, e).Some? ==> Honest(s.repo, Asked(s, e).value)
  {
    if e.Write? && e.client in s.copies {
      hide Step, Touched;
      WriteLands(s.repo, s.copies[e.client], e.edit);
      hide Edited, SameReview, Honest;
    } else {
      hide Step, Touched, CopyOk, Edited;
    }
  }

  lemma WriteLands(r: Repo, c: Copy, edit: Edit)
    requires CopyOk(r, c)
    ensures SameReview(Edited(c.app, edit), Edited(r.apps[c.id], edit)) <==> !c.touched
    ensures !c.touched ==> Honest(r, WriteBack(c, edit))
  {
  }

  lemma NextKeepsCopies(s: Sys, e: Event)
    requires CopiesOk(s) && Proper(e) && !Late(s, e)
    ensures CopiesOk(Next(s, e))
  {
    LandsUnlessLate(s, e);
    match Asked(s, e)
    case Some(a) => AskedKeepsCopies(s, a); hide Step, Touched, CopyOk, Honest;
    case None =>
  }

  /**
    Every write of a run lands exactly when none of them is late: between no read and its
    write lies a capability change, a publish or an unpublish of that app. The repository
    then only sees honest updates, so all that is proved of honest runs holds.
   */
  lemma {:induction false} LandsIffTimely(s: Sys, events: seq<Event>)
    requires CopiesOk(s) && forall e :: e in events ==> Proper(e)
    ensures AllLand(s, events) <==> NoneLate(s, events)
    ensures NoneLate(s, events) ==>
              HonestRun(s.repo, Actions(s, events)) && After(s.repo, Actions(s, events)) == RunEvents(s, events).repo
    decreases |events|
  {
    if events != [] {
      var e := events[0];
      assert e in events && forall f :: f in events[1..] ==> f in events;
      LandsUnlessLate(s, e);
      if !Late(s, e) {
        NextKeepsCopies(s, e);
        LandsIffTimely(Next(s, e), events[1..]);
        if Asked(s, e).Some? { ActionsStep(s, events); }
      }
      hide Step, Lands, Late, Honest, CopiesOk, Touched;
    }
  }

  lemma ActionsStep(s: Sys, events: seq<Event>)
    requires events != [] && Asked(s, events[0]).Some?
    ensures var actions := Actions(s, events);
            && actions != [] && actions[0] == Asked(s, events[0]).value && actions[1..] == Actions(Next(s, events[0]), events[1..])
            && Next(s, events[0]).repo == Step(s.repo, actions[0]).0
  {
    hide Step, Touched;
  }

  // ---------------------------------------------------------------- what a late write does

  /** How many revisions an app gains over a run of the repository. */
  function Revisions(r: Repo, actions: seq<Action>, id: Id): nat
    decreases |actions|
  {
    if actions == [] then 0
    else
      (if ChangesCapabilities(r, actions[0], id) || FlipsVisibility(r, actions[0], id) then 1 else 0)
      + Revisions(Step(r, actions[0]).0, actions[1..], id)
  }

  predicate FlipsVisibility(r: Repo, a: Action, id: Id) {
    Publishes(r, a, id) && id in r.apps && a.release.visibility != r.apps[id].visibility
  }

  lemma StepCounts(r: Repo, a: Action, id: Id)
    requires Honest(r, a) && id in r.apps
    ensures var r' := Step(r, a).0;
            && id in r'.apps
            && r'.apps[id].revision ==
               r.apps[id].revision + (if ChangesCapabilities(r, a, id) || FlipsVisibility(r, a, id) then 1 else 0)
  {
    hide Record, Audited, PublishRefusal, AliasRefusal, Reservation;
    if a.DoPublish? {
      if Publish(r, a.id, a.release).1.Done? { PublishedApp(r, a.id, a.release); PublishReviews(r, a.id, a.release); }
    } else if a.DoCreateApp? {
    } else {
      hide Step, ChangesCapabilities;
      StepRevises(r, a, id);
    }
  }

  lemma PublishedApp(r: Repo, id: Id, rel: Release)
    requires Publish(r, id, rel).1.Done?
    ensures rel.app in r.apps
  {
    PublishableApp(r, id, rel);
  }

  lemma {:induction false} RevisionsCount(r: Repo, actions: seq<Action>, id: Id)
    requires HonestRun(r, actions) && id in r.apps
    ensures var r' := After(r, actions); id in r'.apps && r'.apps[id].revision == r.apps[id].revision + Revisions(r, actions, id)
    decreases |actions|
  {
    hide Step, Honest, ChangesCapabilities, FlipsVisibility;
    if actions != [] {
      StepCounts(r, actions[0], id);
      RevisionsCount(Step(r, actions[0]).0, actions[1..], id);
    }
  }

  predicate LooksReviewed(app: App) { app.publishedRevision == Some(app.revision) }

  /** No review is of a future revision. */
  ghost predicate NotAhead(r: Repo) {
    forall i :: i in r.apps && r.apps[i].publishedRevision.Some? ==> r.apps[i].publishedRevision.value <= r.apps[i].revision
  }

  lemma StepNotAhead(r: Repo, a: Action, i: Id)
    requires NotAhead(r) && Honest(r, a) && i in Step(r, a).0.apps && Step(r, a).0.apps[i].publishedRevision.Some?
    ensures Step(r, a).0.apps[i].publishedRevision.value <= Step(r, a).0.apps[i].revision
  {
    if i in r.apps {
      var app := r.apps[i];
      var behind := if app.publishedRevision.Some? then app.revision - app.publishedRevision.value else 0;
      StepTracks(r, a, i, behind);
      hide Step, Honest, Publishes, ChangesCapabilities;
    } else if !a.DoCreateApp? {
      StepScopes(r, a);
      hide Step;
    } else {
      hide Record, AliasRefusal, Reservation;
    }
  }

  lemma {:induction false} RunNotAhead(r: Repo, actions: seq<Action>)
    requires NotAhead(r) && HonestRun(r, actions)
    ensures NotAhead(After(r, actions))
    decreases |actions|
  {
    if actions != [] {
      var r' := Step(r, actions[0]).0;
      forall i | i in r'.apps && r'.apps[i].publishedRevision.Some? ensures r'.apps[i].publishedRevision.value <= r'.apps[i].revision {
        StepNotAhead(r, actions[0], i);
      }
      hide Step, Honest;
      RunNotAhead(r', actions[1..]);
    }
  }

  lemma RewindsRevision(r: Repo, actions: seq<Action>, id: Id, edit: Edit)
    requires HonestRun(r, actions) && id in r.apps
    ensures id in After(r, actions).apps
    ensures Edited(r.apps[id], edit).revision < After(r, actions).apps[id].revision <==>
              Revisions(r, actions, id) > (if edit.visibility.Some? then 1 else 0)
  {
    hide *;
    RevisionsCount(r, actions, id);
    EditedFields(r.apps[id], edit);
  }

  lemma EditedFields(app: App, edit: Edit)
    ensures Edited(app, edit).revision == app.revision + (if edit.visibility.Some? then 1 else 0)
    ensures Edited(app, edit).publishedRevision == app.publishedRevision && Edited(app, edit).workspace == app.workspace
  {
  }

  lemma HidesChanges(r: Repo, actions: seq<Action>, id: Id, edit: Edit)
    requires NotAhead(r) && HonestRun(r, actions) && id in r.apps
    ensures id in After(r, actions).apps
    ensures LooksReviewed(Edited(r.apps[id], edit)) && !LooksReviewed(After(r, actions).apps[id]) <==>
              LooksReviewed(r.apps[id]) && edit.visibility.None? && ChangesSince(r, actions, id, 0) > 0
  {
    var copy := r.apps[id];
    assert copy.publishedRevision.Some? ==> copy.publishedRevision.value <= copy.revision;
    RevisionsCount(r, actions, id);
    if LooksReviewed(copy) {
      assert FreshBy(copy, 0);
      RunTracks(r, actions, id, 0);
    }
    hide *;
    HiddenOrNot(copy, After(r, actions).apps[id], edit, ChangesSince(r, actions, id, 0));
  }

  lemma HiddenOrNot(copy: App, current: App, edit: Edit, changes: nat)
    requires copy.publishedRevision.Some? ==> copy.publishedRevision.value <= copy.revision
    requires LooksReviewed(copy) ==> FreshBy(current, changes) && current.publishedRevision.Some?
    ensures LooksReviewed(Edited(copy, edit)) && !LooksReviewed(current) <==>
              LooksReviewed(copy) && edit.visibility.None? && changes > 0
  {
  }

  /**
    A copy read after the run `before` and written back after `actions`. The write takes the
    revision back exactly when the app gained more revisions in between than the edit adds. And
    it makes an app with unreviewed changes look reviewed exactly when the copy was reviewed,
    the edit names no visibility, and a capability changed in between without a publish after it.
   */
  lemma StaleUpdateRewinds(before: seq<Action>, actions: seq<Action>, id: Id, edit: Edit)
    requires var r := After(Empty(), before); HonestRun(Empty(), before) && HonestRun(r, actions) && id in r.apps
    ensures var r := After(Empty(), before); var r' := After(r, actions);
            && id in r'.apps && id in Step(r', DoUpdateApp(id, Edited(r.apps[id], edit))).0.apps
            && var written := Step(r', DoUpdateApp(id, Edited(r.apps[id], edit))).0.apps[id];
               && (written.revision < r'.apps[id].revision <==>
                     Revisions(r, actions, id) > (if edit.visibility.Some? then 1 else 0))
               && (LooksReviewed(written) && !LooksReviewed(r'.apps[id]) <==>
                     LooksReviewed(r.apps[id]) && edit.visibility.None? && ChangesSince(r, actions, id, 0) > 0)
  {
    var r := After(Empty(), before);
    hide Step, HonestRun, After, Edited, LooksReviewed, Revisions, ChangesSince;
    assert NotAhead(Empty());
    RunNotAhead(Empty(), before);
    RewindsRevision(r, actions, id, edit);
    HidesChanges(r, actions, id, edit);
    SameWorkspace(r, actions, id);
    EditedFields(r.apps[id], edit);
    StoredCopy(After(r, actions), id, Edited(r.apps[id], edit));
  }

  lemma StoredCopy(r: Repo, id: Id, app: App)
    requires InScope(r, app.workspace, id)
    ensures id in Step(r, DoUpdateApp(id, app)).0.apps && Step(r, DoUpdateApp(id, app)).0.apps[id] == app
  {
    hide Record;
  }

  lemma {:induction false} SameWorkspace(r: Repo, actions: seq<Action>, id: Id)
    requires id in r.apps
    ensures InScope(After(r, actions), r.apps[id].workspace, id)
    decreases |actions|
  {
    if actions != [] {
      AppsStay(r, actions[0]);
      hide Step;
      SameWorkspace(Step(r, actions[0]).0, actions[1..], id);
    }
  }

  const DRAFT := App(1, "", Public, Draft, false, false, None, 1, None)
  const BINDING := Grant(1, 7, "", 0, false)

  function SaveIt(): Action { DoSaveBinding(0, BINDING) }

  /** Create an app, add a READY deployment, publish it, and read a copy. */
  function UpToRead(): seq<Event> {
    [Other(DoCreateApp(7, DRAFT, "", 0)), Other(DoAddDeployment(0, Deployment(1, 7, Ready, true))),
     Other(DoPublish(0, Release(1, 7, 0, 2, Public))), Read(0, 7)]
  }

  /** Save a binding, and write the copy back. */
  function SaveAndWrite(): seq<Event> { [Other(SaveIt()), Write(0, Edit(None, None))] }

  /** The tables that matter to one app. */
  ghost predicate Holds(r: Repo, app: App, deployments: map<Id, Deployment>, releases: map<Id, Release>, bindings: map<Id, Grant>) {
    r.apps == map[7 := app] && r.deployments == deployments && r.releases == releases && r.bindings == bindings
  }

  lemma ReadState(r: Repo)
    requires r == Step(Step(Step(Empty(), UpToRead()[0].action).0, UpToRead()[1].action).0, UpToRead()[2].action).0
    ensures var app := DRAFT.(revision := 2, activeRelease := Some(0), state := Published, publishedRevision := Some(2));
            Holds(r, app, map[0 := Deployment(1, 7, Ready, true)], map[0 := Release(1, 7, 0, 2, Public)], map[])
  {
    var r1 := Step(Empty(), UpToRead()[0].action).0;
    assert Holds(r1, DRAFT, map[], map[], map[]);
    var r2 := Step(r1, UpToRead()[1].action).0;
    assert Holds(r2, DRAFT.(revision := 2), map[0 := Deployment(1, 7, Ready, true)], map[], map[]);
    hide Record;
  }

  lemma WrittenState(r: Repo, copy: App)
    requires r.apps == map[7 := copy] && copy.workspace == 1 && r.bindings == map[]
    ensures var saved := Step(r, SaveIt()).0; var end := Step(saved, DoUpdateApp(7, Edited(copy, Edit(None, None)))).0;
            saved.apps == map[7 := Bump(copy)] && end.apps == map[7 := copy] && end.bindings == map[0 := BINDING]
    ensures ChangesCapabilities(r, SaveIt(), 7) && !Publishes(r, SaveIt(), 7)
  {
    hide Record;
  }

  lemma ReadRun(s: Sys)
    requires s == Sys(Empty(), map[])
    ensures var r := Step(Step(Step(Empty(), UpToRead()[0].action).0, UpToRead()[1].action).0, UpToRead()[2].action).0;
            7 in r.apps ==> RunEvents(s, UpToRead()) == Sys(r, map[0 := Copy(7, r.apps[7], false)])
  {
    var es := UpToRead();
    hide Step, Touches;
    var s1 := Next(s, es[0]);
    var s2 := Next(s1, es[1]);
    var s3 := Next(s2, es[2]);
    assert s1.copies == map[] && s2.copies == map[] && s3.copies == map[];
    assert es[1..] == [es[1], es[2], es[3]] && es[1..][1..] == [es[2], es[3]] && es[1..][1..][1..] == [es[3]] && es[1..][1..][1..][1..] == [];
    hide Next, Empty;
    assert RunEvents(s, es) == RunEvents(s1, es[1..]) == RunEvents(s2, es[1..][1..]) == RunEvents(s3, [es[3]]) == Next(s3, es[3]);
  }

  lemma WriteRun(s: Sys, copy: App)
    requires 0 in s.copies && s.copies[0].id == 7 && s.copies[0].app == copy
    ensures RunEvents(s, SaveAndWrite()).repo == Step(Step(s.repo, SaveIt()).0, DoUpdateApp(7, Edited(copy, Edit(None, None)))).0
  {
    var es := SaveAndWrite();
    var s1 := Next(s, es[0]);
    TouchedCopy(s, SaveIt(), 0);
    assert es[1..] == [es[1]] && es[1..][1..] == [];
    hide Step, Touched;
    assert RunEvents(s, es) == RunEvents(s1, es[1..]) == Next(s1, es[1]);
  }

  /**
    Such a run from the empty repository. When the copy is read the app is reviewed; a binding is
    saved, one unreviewed change; and after the write the app looks reviewed again, binding and all.
   */
  lemma UnreviewedLooksReviewed()
    ensures var read := RunEvents(Sys(Empty(), map[]), UpToRead()); var end := RunEvents(read, SaveAndWrite());
            && 7 in read.repo.apps && LooksReviewed(read.repo.apps[7]) && ChangesSince(read.repo, [SaveIt()], 7, 0) == 1
            && 7 in end.repo.apps && LooksReviewed(end.repo.apps[7]) && end.repo.bindings == map[0 := BINDING]
  {
    var start := Sys(Empty(), map[]);
    var read := RunEvents(start, UpToRead());
    ReadRun(start);
    ReadState(read.repo) by { hide Step, RunEvents, UpToRead; }
    hide Step, RunEvents, UpToRead, ChangesCapabilities, Publishes, Empty;
    WrittenState(read.repo, read.repo.apps[7]);
    WriteRun(read, read.repo.apps[7]);
    assert [SaveIt()][1..] == [];
  }
}
