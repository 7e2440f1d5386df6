/**
  `InMemoryHostedAppsRepository` itself: dictionaries changed in place, method by method, each
  proved to do what module AppLifecycle says. Methods hold one lock, so each is one step.
 */
module AppRepositoryService {
  import opened Common
  import opened AppLifecycle

  class InMemoryHostedAppsRepository {
    const rest: Time
    var apps: map<Id, App>
    var aliases: map<string, Alias>
    var deployments: map<Id, Deployment>
    var releases: map<Id, Release>
    var bindings: map<Id, Grant>
    var collections: map<Id, Grant>
    var blocks: map<Id, Block>
    var audit: multiset<Audit>
    var runtime: Runtime

    constructor (rest: Time)
      ensures State() == Empty() && this.rest == rest
    {
      this.rest := rest;
      apps, aliases, deployments, releases := map[], map[], map[], map[];
      bindings, collections, blocks, audit := map[], map[], map[], multiset{};
      runtime := Runtime(1, false);
    }

    function State(): Repo
      reads this
    {
      Repo(apps, aliases, deployments, releases, bindings, collections, blocks, audit, runtime)
    }

    method RecordAudit(kind: AuditKind, target: Option<Id>)
      modifies this`audit
      ensures State() == Record(old(State()), kind, target)
    {
      audit := audit + multiset{Audit(kind, target)};
    }

    /** `_prepare_alias`: the row to store, or why the alias may not be taken. */
    method PrepareAlias(id: Id, workspace: Id, alias: string, now: Time) returns (outcome: Outcome, row: Alias)
      ensures outcome == AliasRefusal(State(), id, alias, now)
      ensures outcome.Done? ==> row == Reservation(State(), id, workspace, alias)
    {
      row := Alias(Some(id), Some(workspace), AppKind, None);
      if alias in aliases {
        var existing := aliases[alias];
        if existing.app == Some(id) { return Done, existing; }
        if existing.kind.Tombstone? {
          if existing.until.None? || existing.until.value > now { return AliasTombstoned, row; }
        } else {
          return AliasTaken, row;
        }
      }
      outcome := Done;
    }

    method CreateAppWithAlias(id: Id, app: App, alias: string, now: Time) returns (outcome: Outcome)
      modifies this
      ensures (State(), outcome) == CreateApp(old(State()), id, app, alias, now)
    {
      if id in apps { return Exists; }
      var row;
      outcome, row := PrepareAlias(id, app.workspace, alias, now);
      if !outcome.Done? { return; }
      RecordAudit(Created, Some(id));
      apps := apps[id := app];
      aliases := aliases[alias := row];
    }

    method Update(id: Id, app: App) returns (outcome: Outcome)
      modifies this
      ensures (State(), outcome) == UpdateApp(old(State()), id, app)
    {
      if id !in apps || apps[id].workspace != app.workspace { return NotFound; }
      RecordAudit(Updated, Some(id));
      apps := apps[id := app];
      outcome := Done;
    }

    /** The new alias is stored first; then every other alias of the app is retired, one by one. */
    method Reserve(id: Id, workspace: Id, alias: string, now: Time) returns (outcome: Outcome)
      modifies this
      ensures (State(), outcome) == ReserveAlias(old(State()), id, workspace, alias, now, rest)
    {
      if id !in apps || apps[id].workspace != workspace { return NotFound; }
      var row;
      outcome, row := PrepareAlias(id, workspace, alias, now);
      if !outcome.Done? { return; }
      RecordAudit(AliasReserved, Some(id));
      aliases := aliases[alias := row];
      ghost var recorded := State();
      var retired := Alias(None, None, Tombstone, Some(now + rest));
      var todo := aliases.Keys;
      while todo != {}
        invariant todo <= aliases.Keys == recorded.aliases.Keys
        invariant State() == recorded.(aliases := aliases)
        invariant forall a :: a in aliases ==>
                    aliases[a] == if recorded.aliases[a].app == Some(id) && a != alias && a !in todo then retired else recorded.aliases[a]
        decreases todo
      {
        var a :| a in todo;
        if aliases[a].app == Some(id) && a != alias { aliases := aliases[a := retired]; }
        todo := todo - {a};
      }
      assert aliases == Retire(recorded.aliases, id, alias, now + rest);
    }

    /** Look through the dictionary for the app's one live alias. */
    method GetAlias(workspace: Id, id: Id) returns (alias: Option<string>)
      ensures alias.Some? ==>
                InScope(State(), workspace, id) && alias.value in aliases && IsAliasOf(aliases[alias.value], workspace, id)
      ensures alias.None? ==>
                !InScope(State(), workspace, id) || forall a :: a in aliases ==> !IsAliasOf(aliases[a], workspace, id)
    {
      if id !in apps || apps[id].workspace != workspace { return None; }
      var todo := aliases.Keys;
      while todo != {}
        invariant todo <= aliases.Keys
        invariant forall a :: a in aliases && a !in todo ==> !IsAliasOf(aliases[a], workspace, id)
        decreases todo
      {
        var a :| a in todo;
        if IsAliasOf(aliases[a], workspace, id) { return Some(a); }
        todo := todo - {a};
      }
      alias := None;
    }

    method BumpRevision(id: Id)
      requires id in apps
      modifies this`apps
      ensures State() == BumpOne(old(State()), id)
    {
      apps := apps[id := apps[id].(revision := apps[id].revision + 1)];
    }

    method AddNewDeployment(id: Id, d: Deployment) returns (outcome: Outcome)
      modifies this
      ensures (State(), outcome) == AddDeployment(old(State()), id, d)
    {
      if d.app !in apps || apps[d.app].workspace != d.workspace { return NotFound; }
      if id in deployments { return Exists; }
      deployments := deployments[id := d];
      if d.status.Ready? && d.hasManifest {
        RecordAudit(ManifestRequested, Some(d.app));
        BumpRevision(d.app);
      }
      outcome := Done;
    }

    /** Scan the live grants of the app for the name, then check that the id is not another app's. */
    method CheckGrant(items: map<Id, Grant>, id: Id, g: Grant) returns (outcome: Outcome)
      ensures outcome == SaveRefusal(State(), items, id, g)
    {
      if g.app !in apps || apps[g.app].workspace != g.workspace { return NotFound; }
      var todo := items.Keys;
      while todo != {}
        invariant todo <= items.Keys
        invariant forall i :: i in items && i !in todo ==>
                    !(i != id && items[i].app == g.app && !items[i].deleted && items[i].name == g.name)
        decreases todo
      {
        var i :| i in todo;
        if i != id && items[i].app == g.app && !items[i].deleted && items[i].name == g.name { return NameTaken; }
        todo := todo - {i};
      }
      assert !NameClash(items, id, g);
      outcome := if id in items && (items[id].workspace != g.workspace || items[id].app != g.app) then NotFound else Done;
    }

    method SaveOneBinding(id: Id, g: Grant) returns (outcome: Outcome)
      modifies this
      ensures (State(), outcome) == SaveBinding(old(State()), id, g)
    {
      outcome := CheckGrant(bindings, id, g);
      if !outcome.Done? { return; }
      RecordAudit(BindingSaved, Some(g.app));
      bindings := bindings[id := g];
      BumpRevision(g.app);
    }

    method DeleteOneBinding(workspace: Id, app: Id, id: Id) returns (outcome: Outcome)
      modifies this
      ensures (State(), outcome) == DeleteBinding(old(State()), workspace, app, id)
    {
      if !Deletable(State(), bindings, workspace, app, id) { return NotFound; }
      RecordAudit(BindingDeleted, Some(app));
      bindings := bindings[id := bindings[id].(deleted := true)];
      BumpRevision(app);
      outcome := Done;
    }

    method SaveOneCollection(id: Id, g: Grant) returns (outcome: Outcome)
      modifies this
      ensures (State(), outcome) == SaveCollection(old(State()), id, g)
    {
      outcome := CheckGrant(collections, id, g);
      if !outcome.Done? { return; }
      RecordAudit(CollectionSaved, Some(g.app));
      collections := collections[id := g];
      BumpRevision(g.app);
    }

    method DeleteOneCollection(workspace: Id, app: Id, id: Id) returns (outcome: Outcome)
      modifies this
      ensures (State(), outcome) == DeleteCollection(old(State()), workspace, app, id)
    {
      if !Deletable(State(), collections, workspace, app, id) { return NotFound; }
      RecordAudit(CollectionDeleted, Some(app));
      collections := collections[id := collections[id].(deleted := true)];
      BumpRevision(app);
      outcome := Done;
    }

    method PublishRelease(id: Id, rel: Release) returns (outcome: Outcome)
      modifies this
      ensures (State(), outcome) == Publish(old(State()), id, rel)
    {
      if rel.app !in apps || apps[rel.app].workspace != rel.workspace { return NotFound; }
      var app := apps[rel.app];
      if app.archived || app.suspended { return NotPublishable; }
      if rel.deployment !in deployments { return NotReady; }
      var d := deployments[rel.deployment];
      if d.app != rel.app || d.workspace != app.workspace || !d.status.Ready? { return NotReady; }
      var visibilityChanged := rel.visibility != app.visibility;
      if rel.revision != app.revision + (if visibilityChanged then 1 else 0) { return StaleRevision; }
      if id in releases { return Exists; }
      RecordAudit(ReleasePublished, Some(rel.app));
      releases := releases[id := rel];
      if visibilityChanged { app := app.(revision := rel.revision); }
      app := app.(visibility := rel.visibility, activeRelease := Some(id), state := Published, publishedRevision := Some(rel.revision));
      apps := apps[rel.app := app];
      outcome := Done;
    }

    method UnpublishApp(workspace: Id, id: Id) returns (outcome: Outcome)
      modifies this
      ensures (State(), outcome) == Unpublish(old(State()), workspace, id)
    {
      if id !in apps || apps[id].workspace != workspace { return NotFound; }
      RecordAudit(ReleaseUnpublished, Some(id));
      apps := apps[id := apps[id].(state := Unpublished)];
      outcome := Done;
    }

    method ReserveForPlatform(alias: string) returns (outcome: Outcome)
      modifies this
      ensures (State(), outcome) == ReservePlatformAlias(old(State()), alias)
    {
      if alias in aliases { return AliasTaken; }
      RecordAudit(PlatformAliasReserved, None);
      aliases := aliases[alias := Alias(None, None, PlatformKind, None)];
      outcome := Done;
    }

    method AddBlock(id: Id, target: Target)
      modifies this
      ensures State() == CreateBlock(old(State()), id, target)
    {
      RecordAudit(Blocked, None);
      blocks := blocks[id := Block(target, false)];
    }

    method LiftOneBlock(id: Id) returns (outcome: Outcome)
      modifies this
      ensures (State(), outcome) == LiftBlock(old(State()), id)
    {
      if id !in blocks { return NotFound; }
      if !blocks[id].lifted {
        RecordAudit(Reinstated, None);
        blocks := blocks[id := blocks[id].(lifted := true)];
      }
      outcome := Done;
    }

    method SwitchRuntime(enabled: bool)
      modifies this
      ensures State() == SetRuntime(old(State()), enabled)
    {
      RecordAudit(RuntimeChanged, None);
      runtime := Runtime(runtime.generation + 1, enabled);
    }

    /** Collect the dependent apps, then bump each in turn. */
    method InvalidateBindings(workspace: Id, workflow: Id)
      requires GrantsOk(State(), bindings)
      modifies this
      ensures State() == Invalidate(old(State()), workspace, workflow)
    {
      var ids := set b | b in bindings && bindings[b].workspace == workspace && bindings[b].workflow == workflow && !bindings[b].deleted
                   :: bindings[b].app;
      ghost var before := State();
      assert ids == Dependents(before, workspace, workflow);
      assert ids <= apps.Keys;
      var todo := ids;
      while todo != {}
        invariant todo <= ids <= apps.Keys
        invariant State() == before.(apps := BumpAll(before.apps, ids - todo), audit := before.audit + InvalidationAudit(ids - todo))
        decreases todo
      {
        var id :| id in todo;
        InvalidationGrows(ids - todo, id);
        BumpGrows(before.apps, ids - todo, id);
        assert ids - (todo - {id}) == (ids - todo) + {id};
        RecordAudit(BindingInvalidated, Some(id));
        BumpRevision(id);
        todo := todo - {id};
      }
      assert ids - todo == ids;
    }
  }

  lemma InvalidationGrows(ids: set<Id>, id: Id)
    requires id !in ids
    ensures InvalidationAudit(ids + {id}) == InvalidationAudit(ids) + multiset{Audit(BindingInvalidated, Some(id))}
  {
    var before := set i | i in ids :: Audit(BindingInvalidated, Some(i));
    var after := set i | i in ids + {id} :: Audit(BindingInvalidated, Some(i));
    assert after == before + {Audit(BindingInvalidated, Some(id))};
    assert Audit(BindingInvalidated, Some(id)) !in before;
  }

  lemma BumpGrows(apps: map<Id, App>, ids: set<Id>, id: Id)
    requires id !in ids && id in apps
    ensures BumpAll(apps, ids + {id}) == BumpAll(apps, ids)[id := Bump(BumpAll(apps, ids)[id])]
  {
  }
}
