/**
  Staged uploads and their materialization (`DeploymentService` in
  src/orcheo/hosted_apps/deployments.py) over a write-once object store (`PostgresBundleStore`
  in src/orcheo/hosted_apps/bundle_store.py). Any store call can fail, before or after it took
  effect; the archive validator's verdict is part of the archive.
 */
module DeploymentModel {
  import opened Common

  type Time = int
  type Id = nat

  const MANIFEST := "__manifest__.json"
  const HOUR: Time := 3_600_000_000

  datatype File = File(path: string, data: nat)

  /** What the validator makes of an archive: its files, or an error code. */
  datatype Verdict = Valid(files: seq<File>) | Invalid(code: nat)

  datatype Archive = Archive(size: nat, digest: nat, verdict: Verdict)

  /** An asset, or the generated manifest that lists the assets. */
  datatype Content = Asset(data: nat) | Manifest(files: seq<File>)

  datatype Key = Key(deployment: Id, path: string)

  type Objects = map<Key, Content>

  datatype UploadStatus = UploadPending | UploadCompleted | UploadFailed | UploadExpired

  /** `keyed`: the staging key is set; before that it names no staged object. */
  datatype Upload = Upload(
    deployment: Id, status: UploadStatus, expectedSize: nat, expectedDigest: Option<nat>, expiresAt: Time, keyed: bool)

  datatype DeploymentStatus = Pending | Ready | Failed
  datatype Deployment = Deployment(status: DeploymentStatus, archive: Option<nat>, manifest: Option<seq<File>>, error: Option<nat>)

  const SIZE_MISMATCH := 1
  const CHECKSUM_MISMATCH := 2

  // ---------------------------------------------------------------- the object store

  /** What goes wrong in one store call; `done` tells whether it took effect. */
  datatype Fault = NoFault | Fails(done: bool)

  /** Objects are immutable: writing other content to an existing key is refused. */
  predicate Refused(objects: Objects, key: Key, content: Content) {
    key in objects && objects[key] != content
  }

  function Written(objects: Objects, key: Key, content: Content, fault: Fault): Objects {
    if Refused(objects, key, content) || fault == Fails(false) then objects else objects[key := content]
  }

  predicate WriteOk(objects: Objects, key: Key, content: Content, fault: Fault) {
    !Refused(objects, key, content) && fault.NoFault?
  }

  function Without(objects: Objects, deployment: Id): Objects {
    map k | k in objects && k.deployment != deployment :: objects[k]
  }

  function Deleted(objects: Objects, deployment: Id, fault: Fault): Objects {
    if fault == Fails(false) then objects else Without(objects, deployment)
  }

  // ---------------------------------------------------------------- materialization

  /** The objects after every store call of a stretch of work, and whether it ended without an error. */
  datatype Trace = Trace(states: seq<Objects>, ok: bool)
  {
    function Last(start: Objects): Objects { if states == [] then start else states[|states| - 1] }
  }

  /** Write the assets in order; stop at the first failing call. `faults[i]` belongs to the i-th call. */
  function WriteAssets(objects: Objects, deployment: Id, files: seq<File>, faults: nat -> Fault, i: nat): Trace
    decreases |files|
  {
    if files == [] then Trace([], true)
    else
      var key := Key(deployment, files[0].path);
      var after := Written(objects, key, Asset(files[0].data), faults(i));
      if !WriteOk(objects, key, Asset(files[0].data), faults(i)) then Trace([after], false)
      else
        var rest := WriteAssets(after, deployment, files[1..], faults, i + 1);
        Trace([after] + rest.states, rest.ok)
  }

  /** Assets first, the manifest last. */
  function Materialize(objects: Objects, deployment: Id, files: seq<File>, faults: nat -> Fault): Trace {
    var assets := WriteAssets(objects, deployment, files, faults, 0);
    if !assets.ok then assets
    else
      var before := assets.Last(objects);
      var key := Key(deployment, MANIFEST);
      Trace(assets.states + [Written(before, key, Manifest(files), faults(|files|))],
        WriteOk(before, key, Manifest(files), faults(|files|)))
  }

  // ---------------------------------------------------------------- the service

  /** `staging` holds the staged archives, one object per upload. */
  datatype State = State(
    objects: Objects, staging: map<Id, Archive>, uploads: map<Id, Upload>, deployments: map<Id, Deployment>)

  datatype Outcome = Done | UnknownUpload | AlreadyCompleted | Expired | TooLarge | Rejected(code: nat) | StoreFailed

  /** The faults of one `complete`: opening the archive, each write, and the clean-up. */
  datatype Faults = Faults(open: Fault, write: nat -> Fault, clean: Fault)

  function Initiate(s: State, upload: Id, deployment: Id, size: nat, digest: Option<nat>, maxSize: nat, now: Time): (State, Outcome) {
    if size > maxSize then (s, TooLarge)
    else
      (s.(uploads := s.uploads[upload := Upload(deployment, UploadPending, size, digest, now + HOUR, false)],
          deployments := s.deployments[deployment := Deployment(Pending, None, None, None)]), Done)
  }

  /** Replay and expiry are rejected before any object is looked at; expiry is recorded. */
  function EnsurePending(s: State, upload: Id, now: Time): (State, Outcome)
    requires upload in s.uploads
  {
    var u := s.uploads[upload];
    if !u.status.UploadPending? then (s, AlreadyCompleted)
    else if u.expiresAt <= now then (s.(uploads := s.uploads[upload := u.(status := UploadExpired)]), Expired)
    else (s, Done)
  }

  /** A staged archive is an object like any other: it is written once. */
  predicate StageRefused(staging: map<Id, Archive>, upload: Id, archive: Archive) {
    upload in staging && staging[upload] != archive
  }

  function StageWritten(staging: map<Id, Archive>, upload: Id, archive: Archive, fault: Fault): map<Id, Archive> {
    if StageRefused(staging, upload, archive) || fault == Fails(false) then staging else staging[upload := archive]
  }

  /** The staging key is set only when the write returns. */
  function Stage(s: State, upload: Id, archive: Archive, now: Time, fault: Fault): (State, Outcome) {
    if upload !in s.uploads then (s, UnknownUpload)
    else
      var (s, outcome) := EnsurePending(s, upload, now);
      if !outcome.Done? then (s, outcome)
      else
        var stored := s.(staging := StageWritten(s.staging, upload, archive, fault));
        if StageRefused(s.staging, upload, archive) || fault.Fails? then (stored, StoreFailed)
        else (stored.(uploads := s.uploads[upload := s.uploads[upload].(keyed := true)]), Done)
  }

  /** `open_staged` finds the archive of an upload. */
  predicate Readable(s: State, upload: Id) { upload in s.uploads && s.uploads[upload].keyed && upload in s.staging }

  /** Why the bytes of an archive are not accepted, if so. */
  function Objection(u: Upload, archive: Archive): Option<nat> {
    if archive.size != u.expectedSize then Some(SIZE_MISMATCH)
    else if u.expectedDigest.Some? && u.expectedDigest.value != archive.digest then Some(CHECKSUM_MISMATCH)
    else match archive.verdict
      case Invalid(code) => Some(code)
      case Valid(_) => None
  }

  function CleanUp(s: State, deployment: Id, fault: Fault): State {
    s.(objects := Deleted(s.objects, deployment, fault))
  }

  /** A rejected archive fails its deployment for good, unless the clean-up itself raises. */
  function Reject(s: State, upload: Id, code: nat, fault: Fault): (State, Outcome)
    requires upload in s.uploads
  {
    var u := s.uploads[upload];
    var cleaned := CleanUp(s, u.deployment, fault);
    if fault.Fails? then (cleaned, StoreFailed)
    else
      (cleaned.(deployments := s.deployments[u.deployment := Deployment(Failed, None, None, Some(code))],
                uploads := s.uploads[upload := u.(status := UploadFailed)]), Rejected(code))
  }

  function Publish(s: State, upload: Id, archive: Archive, objects: Objects): State
    requires upload in s.uploads && archive.verdict.Valid?
  {
    var u := s.uploads[upload];
    State(objects, s.staging,
      s.uploads[upload := u.(status := UploadCompleted)],
      s.deployments[u.deployment := Deployment(Ready, Some(archive.digest), Some(archive.verdict.files), None)])
  }

  function Complete(s: State, upload: Id, now: Time, faults: Faults): (State, Outcome) {
    if upload !in s.uploads then (s, UnknownUpload)
    else
      var (s, outcome) := EnsurePending(s, upload, now);
      if !outcome.Done? then (s, outcome)
      else
        var u := s.uploads[upload];
        if faults.open.Fails? || !Readable(s, upload) then (CleanUp(s, u.deployment, faults.clean), StoreFailed)
        else
          var archive := s.staging[upload];
          var objection := Objection(u, archive);
          if objection.Some? then Reject(s, upload, objection.value, faults.clean)
          else
            var trace := Materialize(s.objects, u.deployment, archive.verdict.files, faults.write);
            var after := trace.Last(s.objects);
            if trace.ok then (Publish(s, upload, archive, after), Done)
            else (CleanUp(s.(objects := after), u.deployment, faults.clean), StoreFailed)
  }

  datatype Action =
    | DoInitiate(upload: Id, deployment: Id, size: nat, digest: Option<nat>, maxSize: nat, now: Time)
    | DoStage(upload: Id, archive: Archive, now: Time, fault: Fault)
    | DoComplete(upload: Id, now: Time, faults: Faults)

  function Step(s: State, a: Action): (State, Outcome) {
    match a
    case DoInitiate(upload, deployment, size, digest, maxSize, now) => Initiate(s, upload, deployment, size, digest, maxSize, now)
    case DoStage(upload, archive, now, fault) => Stage(s, upload, archive, now, fault)
    case DoComplete(upload, now, faults) => Complete(s, upload, now, faults)
  }

  function After(s: State, actions: seq<Action>): State
    decreases |actions|
  {
    if actions == [] then s else After(Step(s, actions[0]).0, actions[1..])
  }

  // ---------------------------------------------------------------- the manifest comes last

  /** No member takes the manifest's own name. */
  predicate Unreserved(files: seq<File>) {
    forall i :: 0 <= i < |files| ==> files[i].path != MANIFEST
  }

  /** Every listed asset is there, with its content. */
  predicate AllThere(objects: Objects, deployment: Id, files: seq<File>) {
    forall i :: 0 <= i < |files| ==>
      Key(deployment, files[i].path) in objects && objects[Key(deployment, files[i].path)] == Asset(files[i].data)
  }

  /** A generated manifest exists only together with every asset it lists. */
  ghost predicate GeneratedLast(objects: Objects) {
    forall d :: Key(d, MANIFEST) in objects && objects[Key(d, MANIFEST)].Manifest? ==>
      AllThere(objects, d, objects[Key(d, MANIFEST)].files)
  }

  /** And whatever has the manifest's name is a generated manifest. */
  ghost predicate ManifestLast(objects: Objects) {
    GeneratedLast(objects) && forall d :: Key(d, MANIFEST) in objects ==> objects[Key(d, MANIFEST)].Manifest?
  }

  /** Writing an asset cannot break the order: nothing is ever overwritten. */
  lemma WriteKeepsOrder(objects: Objects, key: Key, content: Content, fault: Fault)
    requires GeneratedLast(objects)
    requires content.Manifest? ==> AllThere(objects, key.deployment, content.files)
    ensures GeneratedLast(Written(objects, key, content, fault))
    ensures ManifestLast(objects) && (key.path == MANIFEST ==> content.Manifest?) ==>
              ManifestLast(Written(objects, key, content, fault))
  {
    var objects' := Written(objects, key, content, fault);
    forall d | Key(d, MANIFEST) in objects' && objects'[Key(d, MANIFEST)].Manifest?
      ensures AllThere(objects', d, objects'[Key(d, MANIFEST)].files)
    {
      if Key(d, MANIFEST) in objects {
        assert AllThere(objects, d, objects[Key(d, MANIFEST)].files);
      }
    }
  }

  /** A store call adds at most its own key and changes nothing. */
  ghost predicate Extends(objects: Objects, objects': Objects, deployment: Id) {
    && (forall k :: k in objects ==> k in objects' && objects'[k] == objects[k])
    && (forall k :: k in objects' && k !in objects ==> k.deployment == deployment)
  }

  /** New keys come from the files. */
  ghost predicate OnlyFiles(objects: Objects, objects': Objects, deployment: Id, files: seq<File>) {
    forall k :: k in objects' && k !in objects ==> IsFile(k, deployment, files)
  }

  predicate IsFile(k: Key, deployment: Id, files: seq<File>) {
    k.deployment == deployment && exists j :: 0 <= j < |files| && files[j].path == k.path
  }

  lemma ThereStep(objects: Objects, deployment: Id, files: seq<File>)
    requires files != [] && AllThere(objects, deployment, files[1..])
    requires Key(deployment, files[0].path) in objects && objects[Key(deployment, files[0].path)] == Asset(files[0].data)
    ensures AllThere(objects, deployment, files)
  {
    forall j | 0 <= j < |files|
      ensures Key(deployment, files[j].path) in objects && objects[Key(deployment, files[j].path)] == Asset(files[j].data)
    {
      if j > 0 { assert files[1..][j - 1] == files[j]; }
    }
  }

  lemma FilesStep(objects: Objects, after: Objects, last: Objects, deployment: Id, files: seq<File>)
    requires files != [] && OnlyFiles(after, last, deployment, files[1..])
    requires forall k :: k in after && k !in objects ==> k == Key(deployment, files[0].path)
    ensures OnlyFiles(objects, last, deployment, files)
  {
    forall k | k in last && k !in objects ensures IsFile(k, deployment, files) {
      if k !in after {
        assert IsFile(k, deployment, files[1..]);
        var j :| 0 <= j < |files| - 1 && files[1..][j].path == k.path;
        assert files[j + 1].path == k.path;
      }
    }
  }

  /** Asset writes add files of their own deployment only. */
  lemma {:induction false} AssetsStayInside(objects: Objects, deployment: Id, files: seq<File>, faults: nat -> Fault, i: nat)
    ensures var last := WriteAssets(objects, deployment, files, faults, i).Last(objects);
            Extends(objects, last, deployment) && OnlyFiles(objects, last, deployment, files)
    decreases |files|
  {
    if files != [] {
      var key := Key(deployment, files[0].path);
      var after := Written(objects, key, Asset(files[0].data), faults(i));
      assert Extends(objects, after, deployment) && forall k :: k in after && k !in objects ==> k == key;
      hide Written, IsFile;
      if WriteOk(objects, key, Asset(files[0].data), faults(i)) {
        AssetsStayInside(after, deployment, files[1..], faults, i + 1);
        FilesStep(objects, after, WriteAssets(after, deployment, files[1..], faults, i + 1).Last(after), deployment, files);
      } else {
        OneFile(objects, after, deployment, files);
      }
    }
  }

  lemma OneFile(objects: Objects, after: Objects, deployment: Id, files: seq<File>)
    requires files != [] && forall k :: k in after && k !in objects ==> k == Key(deployment, files[0].path)
    ensures OnlyFiles(objects, after, deployment, files)
  {
    assert files[0].path == Key(deployment, files[0].path).path;
  }

  /** If they succeed, every file is there. */
  lemma {:induction false} AssetsArrive(objects: Objects, deployment: Id, files: seq<File>, faults: nat -> Fault, i: nat)
    requires WriteAssets(objects, deployment, files, faults, i).ok
    ensures AllThere(WriteAssets(objects, deployment, files, faults, i).Last(objects), deployment, files)
    decreases |files|
  {
    if files != [] {
      var key := Key(deployment, files[0].path);
      var after := Written(objects, key, Asset(files[0].data), faults(i));
      assert after[key] == Asset(files[0].data);
      hide Written, OnlyFiles, AllThere;
      AssetsArrive(after, deployment, files[1..], faults, i + 1);
      AssetsStayInside(after, deployment, files[1..], faults, i + 1);
      ThereStep(WriteAssets(after, deployment, files[1..], faults, i + 1).Last(after), deployment, files);
    }
  }

  ghost predicate AllGeneratedLast(states: seq<Objects>) {
    forall n :: 0 <= n < |states| ==> GeneratedLast(states[n])
  }

  ghost predicate AllManifestLast(states: seq<Objects>) {
    forall n :: 0 <= n < |states| ==> ManifestLast(states[n])
  }

  /** Through all asset writes the order holds. */
  lemma {:induction false} AssetsKeepOrder(objects: Objects, deployment: Id, files: seq<File>, faults: nat -> Fault, i: nat)
    requires GeneratedLast(objects)
    ensures AllGeneratedLast(WriteAssets(objects, deployment, files, faults, i).states)
    ensures ManifestLast(objects) && Unreserved(files) ==> AllManifestLast(WriteAssets(objects, deployment, files, faults, i).states)
    decreases |files|
  {
    if files != [] {
      var key := Key(deployment, files[0].path);
      var after := Written(objects, key, Asset(files[0].data), faults(i));
      WriteKeepsOrder(objects, key, Asset(files[0].data), faults(i));
      assert Unreserved(files) ==> files[0].path != MANIFEST && Unreserved(files[1..]);
      hide GeneratedLast, ManifestLast, Written, Unreserved;
      if WriteOk(objects, key, Asset(files[0].data), faults(i)) {
        AssetsKeepOrder(after, deployment, files[1..], faults, i + 1);
      }
    }
  }

  /**
    Crash consistency: after every store call a generated manifest exists only with all it
    lists, whatever the members are called; and nothing else has its name if no member has.
   */
  lemma MaterializeKeepsOrder(objects: Objects, deployment: Id, files: seq<File>, faults: nat -> Fault)
    requires GeneratedLast(objects)
    ensures var trace := Materialize(objects, deployment, files, faults);
            AllGeneratedLast(trace.states) && (ManifestLast(objects) && Unreserved(files) ==> AllManifestLast(trace.states))
  {
    var assets := WriteAssets(objects, deployment, files, faults, 0);
    AssetsKeepOrder(objects, deployment, files, faults, 0);
    if assets.ok {
      AssetsArrive(objects, deployment, files, faults, 0);
      var before := assets.Last(objects);
      assert GeneratedLast(before);
      WriteKeepsOrder(before, Key(deployment, MANIFEST), Manifest(files), faults(|files|));
    }
    hide WriteAssets, GeneratedLast, ManifestLast, IsFile, Written;
  }

  /** Materialization removes nothing, adds only the files and the manifest, and if it succeeds adds all of them. */
  lemma MaterializeMeans(objects: Objects, deployment: Id, files: seq<File>, faults: nat -> Fault)
    ensures var trace := Materialize(objects, deployment, files, faults); var last := trace.Last(objects);
            && Extends(objects, last, deployment)
            && (forall k :: k in last && k !in objects ==> k == Key(deployment, MANIFEST) || IsFile(k, deployment, files))
            && (trace.ok ==>
                  && AllThere(last, deployment, files)
                  && Key(deployment, MANIFEST) in last && last[Key(deployment, MANIFEST)] == Manifest(files))
  {
    AssetsStayInside(objects, deployment, files, faults, 0);
    if WriteAssets(objects, deployment, files, faults, 0).ok { AssetsArrive(objects, deployment, files, faults, 0); }
    hide WriteAssets, IsFile;
  }

  // ---------------------------------------------------------------- members with the manifest's name

  /** The validator lists its files by path, so no two have the same. */
  predicate Distinct(files: seq<File>) {
    forall i, j :: 0 <= i < j < |files| ==> files[i].path != files[j].path
  }

  /** None of the files is there yet. */
  predicate AllNew(objects: Objects, deployment: Id, files: seq<File>) {
    forall i :: 0 <= i < |files| ==> Key(deployment, files[i].path) !in objects
  }

  /** Without faults, the write of the reserved member comes, and puts its bytes where the manifest should be. */
  lemma {:induction false} ReservedIsWritten(objects: Objects, deployment: Id, files: seq<File>, faults: nat -> Fault, i: nat, j: nat)
    requires Distinct(files) && AllNew(objects, deployment, files) && j < |files| && files[j].path == MANIFEST
    requires forall n :: faults(n) == NoFault
    ensures var states := WriteAssets(objects, deployment, files, faults, i).states;
            j < |states| && Key(deployment, MANIFEST) in states[j] && states[j][Key(deployment, MANIFEST)].Asset?
    decreases |files|
  {
    var key := Key(deployment, files[0].path);
    var after := Written(objects, key, Asset(files[0].data), faults(i));
    assert files[0].path != MANIFEST || j == 0;
    if j > 0 {
      var rest := files[1..];
      assert rest[j - 1] == files[j];
      ReservedIsWritten(after, deployment, rest, faults, i + 1, j - 1);
    }
  }

  /**
    The manifest-last order holds through every materialization of some files, whatever fails,
    exactly when none of them has the manifest's name.
   */
  lemma OrderHoldsIffUnreserved(objects: Objects, deployment: Id, files: seq<File>)
    requires ManifestLast(objects) && Distinct(files) && AllNew(objects, deployment, files)
    ensures (forall faults: nat -> Fault :: AllManifestLast(Materialize(objects, deployment, files, faults).states)) <==>
            Unreserved(files)
  {
    if Unreserved(files) {
      forall faults: nat -> Fault ensures AllManifestLast(Materialize(objects, deployment, files, faults).states) {
        MaterializeKeepsOrder(objects, deployment, files, faults);
      }
    } else {
      var j :| 0 <= j < |files| && files[j].path == MANIFEST;
      var faults: nat -> Fault := _ => NoFault;
      ReservedIsWritten(objects, deployment, files, faults, 0, j);
      var trace := Materialize(objects, deployment, files, faults);
      assert trace.states[j] == WriteAssets(objects, deployment, files, faults, 0).states[j];
      assert !ManifestLast(trace.states[j]);
    }
  }

  // ---------------------------------------------------------------- the order over runs

  lemma WithoutKeepsOrder(objects: Objects, deployment: Id)
    requires GeneratedLast(objects)
    ensures GeneratedLast(Without(objects, deployment))
    ensures ManifestLast(objects) ==> ManifestLast(Without(objects, deployment))
  {
    var objects' := Without(objects, deployment);
    forall d | Key(d, MANIFEST) in objects' && objects'[Key(d, MANIFEST)].Manifest?
      ensures AllThere(objects', d, objects'[Key(d, MANIFEST)].files)
    {
      assert AllThere(objects, d, objects[Key(d, MANIFEST)].files);
    }
  }

  predicate Harmless(archive: Archive) { archive.verdict.Valid? ==> Unreserved(archive.verdict.files) }

  /** No staged archive holds a member with the manifest's name. */
  ghost predicate StagedOk(s: State) { forall u :: u in s.staging ==> Harmless(s.staging[u]) }

  predicate ArchiveOk(a: Action) { a.DoStage? ==> Harmless(a.archive) }

  lemma CompleteKeepsOrder(s: State, upload: Id, now: Time, faults: Faults)
    requires GeneratedLast(s.objects)
    ensures GeneratedLast(Complete(s, upload, now, faults).0.objects)
    ensures ManifestLast(s.objects) && StagedOk(s) ==> ManifestLast(Complete(s, upload, now, faults).0.objects)
  {
    if upload in s.uploads && EnsurePending(s, upload, now).1.Done? {
      var u := s.uploads[upload];
      WithoutKeepsOrder(s.objects, u.deployment);
      if Readable(s, upload) && Objection(u, s.staging[upload]).None? {
        var files := s.staging[upload].verdict.files;
        var trace := Materialize(s.objects, u.deployment, files, faults.write);
        MaterializeKeepsOrder(s.objects, u.deployment, files, faults.write);
        assert GeneratedLast(trace.Last(s.objects));
        WithoutKeepsOrder(trace.Last(s.objects), u.deployment);
        assert StagedOk(s) ==> Harmless(s.staging[upload]);
      }
      hide GeneratedLast, ManifestLast, Materialize, Without, Unreserved;
    }
  }

  lemma StepKeepsStaged(s: State, a: Action)
    requires StagedOk(s) && ArchiveOk(a)
    ensures StagedOk(Step(s, a).0)
  {
    hide Materialize, Objection, Harmless, Deleted;
  }

  /**
    Over any sequence of calls, whatever fails, a generated manifest exists only with all it
    lists; and whatever has its name is one, if no staged archive holds a member of that name.
   */
  lemma {:induction false} RunKeepsOrder(s: State, actions: seq<Action>)
    requires GeneratedLast(s.objects)
    ensures GeneratedLast(After(s, actions).objects)
    ensures ManifestLast(s.objects) && StagedOk(s) && (forall a :: a in actions ==> ArchiveOk(a)) ==>
              ManifestLast(After(s, actions).objects)
    decreases |actions|
  {
    if actions != [] {
      var a := actions[0];
      assert a in actions && forall b :: b in actions[1..] ==> b in actions;
      if StagedOk(s) && ArchiveOk(a) { StepKeepsStaged(s, a); }
      if a.DoComplete? { CompleteKeepsOrder(s, a.upload, a.now, a.faults); }
      assert !a.DoComplete? ==> Step(s, a).0.objects == s.objects;
      hide GeneratedLast, ManifestLast, StagedOk, Complete, ArchiveOk, Step;
      RunKeepsOrder(Step(s, a).0, actions[1..]);
    }
  }

  // ---------------------------------------------------------------- failures

  predicate PrefixEmpty(objects: Objects, deployment: Id) {
    forall k :: k in objects ==> k.deployment != deployment
  }

  ghost predicate SameUnder(objects: Objects, objects': Objects, deployment: Id) {
    forall k: Key :: k.deployment == deployment ==>
      (k in objects' <==> k in objects) && (k in objects ==> objects'[k] == objects[k])
  }

  predicate Attempted(outcome: Outcome) { outcome.Rejected? || outcome.StoreFailed? }

  /** A completion of this upload would not reach its first write, or that write is lost. */
  predicate WritesNothing(s: State, upload: Id, faults: Faults)
    requires upload in s.uploads
  {
    || faults.open.Fails? || !Readable(s, upload)
    || Objection(s.uploads[upload], s.staging[upload]).Some?
    || faults.write(0) == Fails(false)
  }

  lemma FirstWrite(objects: Objects, deployment: Id, files: seq<File>, faults: nat -> Fault)
    requires PrefixEmpty(objects, deployment)
    ensures var trace := Materialize(objects, deployment, files, faults);
            if faults(0) == Fails(false) then !trace.ok && trace.Last(objects) == objects
            else !PrefixEmpty(trace.Last(objects), deployment)
  {
    var key := if files == [] then Key(deployment, MANIFEST) else Key(deployment, files[0].path);
    var content := if files == [] then Manifest(files) else Asset(files[0].data);
    var after := Written(objects, key, content, faults(0));
    if faults(0) != Fails(false) {
      assert key in after;
      if files != [] && WriteOk(objects, key, content, faults(0)) {
        AssetsStayInside(after, deployment, files[1..], faults, 1);
      }
      assert key in Materialize(objects, deployment, files, faults).Last(objects);
    }
  }

  /**
    A completion that fails leaves nothing under the prefix exactly when the clean-up took
    effect, or the prefix was empty and no write took effect. It never touches another prefix.
   */
  lemma FailureCleansUp(s: State, upload: Id, now: Time, faults: Faults)
    requires Attempted(Complete(s, upload, now, faults).1)
    ensures var s' := Complete(s, upload, now, faults).0;
            var d := s.uploads[upload].deployment;
            && !s'.uploads[upload].status.UploadCompleted?
            && (PrefixEmpty(s'.objects, d) <==>
                  faults.clean != Fails(false) || (PrefixEmpty(s.objects, d) && WritesNothing(s, upload, faults)))
            && (forall e :: e != d ==> SameUnder(s.objects, s'.objects, e))
  {
    var u := s.uploads[upload];
    if Readable(s, upload) && Objection(u, s.staging[upload]).None? {
      var files := s.staging[upload].verdict.files;
      MaterializeMeans(s.objects, u.deployment, files, faults.write);
      if PrefixEmpty(s.objects, u.deployment) { FirstWrite(s.objects, u.deployment, files, faults.write); }
    }
    hide Materialize, IsFile, AllThere;
  }

  /** A failing input: the second write raises and so does the clean-up, and the first file stays behind. */
  lemma FailureLeavesObjects(upload: Id, d: Id, file: File, now: Time)
    ensures var archive := Archive(1, 1, Valid([file]));
            var faults := Faults(NoFault, n => if n == 0 then NoFault else Fails(false), Fails(false));
            var s := After(Start(), [DoInitiate(upload, d, 1, None, 1, now), DoStage(upload, archive, now, NoFault)]);
            var (s', outcome) := Complete(s, upload, now, faults);
            outcome.StoreFailed? && !PrefixEmpty(s'.objects, d)
  {
    var archive := Archive(1, 1, Valid([file]));
    var faults := Faults(NoFault, n => if n == 0 then NoFault else Fails(false), Fails(false));
    var first, second := DoInitiate(upload, d, 1, None, 1, now), DoStage(upload, archive, now, NoFault);
    assert [first, second][1..] == [second] && [second][1..] == [];
    var s := Step(Step(Start(), first).0, second).0;
    assert After(Start(), [first, second]) == After(Step(Start(), first).0, [second]) == After(s, []) == s;
    assert s.staging[upload] == archive && Objection(s.uploads[upload], archive).None?;
    SecondWriteFails(d, file, faults.write);
    FirstWrite(map[], d, [file], faults.write);
    hide Materialize;
  }

  lemma SecondWriteFails(d: Id, file: File, faults: nat -> Fault)
    requires faults(0) == NoFault && faults(1) == Fails(false)
    ensures !Materialize(map[], d, [file], faults).ok
  {
    assert [file][1..] == [];
  }

  function Start(): State { State(map[], map[], map[], map[]) }

  // ---------------------------------------------------------------- terminal records

  predicate Terminal(u: Upload) { !u.status.UploadPending? }

  /** A completed, failed or expired upload is never written again, whatever is called. */
  lemma StepKeepsTerminal(s: State, a: Action, upload: Id)
    requires upload in s.uploads && Terminal(s.uploads[upload]) && !(a.DoInitiate? && a.upload == upload)
    ensures upload in Step(s, a).0.uploads && Step(s, a).0.uploads[upload] == s.uploads[upload]
    ensures a.DoComplete? && a.upload == upload ==> Step(s, a) == (s, AlreadyCompleted)
  {
    hide Materialize, Objection, Deleted;
  }

  lemma {:induction false} TerminalForever(s: State, actions: seq<Action>, upload: Id)
    requires upload in s.uploads && Terminal(s.uploads[upload])
    requires forall a :: a in actions ==> !(a.DoInitiate? && a.upload == upload)
    ensures upload in After(s, actions).uploads && After(s, actions).uploads[upload] == s.uploads[upload]
    decreases |actions|
  {
    if actions != [] {
      assert actions[0] in actions && forall a :: a in actions[1..] ==> a in actions;
      StepKeepsTerminal(s, actions[0], upload);
      hide Step, Terminal;
      TerminalForever(Step(s, actions[0]).0, actions[1..], upload);
    }
  }

  // ---------------------------------------------------------------- what READY means

  /** `initiate` draws new ids. */
  predicate Fresh(s: State, a: Action) {
    a.DoInitiate? ==> a.upload !in s.uploads && a.deployment !in s.deployments
  }

  ghost predicate FreshRun(s: State, actions: seq<Action>)
    decreases |actions|
  {
    actions == [] || (Fresh(s, actions[0]) && FreshRun(Step(s, actions[0]).0, actions[1..]))
  }

  predicate IsUploadOf(s: State, u: Id, d: Id) { u in s.uploads && s.uploads[u].deployment == d }

  /** Every deployment has exactly one upload, and objects and archives belong to something. */
  ghost predicate Wired(s: State) {
    && (forall u, v :: u in s.uploads && v in s.uploads && s.uploads[u].deployment == s.uploads[v].deployment ==> u == v)
    && (forall u :: u in s.uploads ==> s.uploads[u].deployment in s.deployments)
    && (forall d :: d in s.deployments ==> exists u :: IsUploadOf(s, u, d))
    && (forall u :: u in s.staging ==> u in s.uploads)
    && (forall k :: k in s.objects ==> k.deployment in s.deployments)
  }

  /** Nothing is stored under a deployment but the files of its staged archive and their manifest. */
  predicate OnlyOwn(objects: Objects, deployment: Id, files: seq<File>) {
    forall k :: k in objects && k.deployment == deployment ==> k.path == MANIFEST || IsFile(k, deployment, files)
  }

  predicate Backed(s: State, u: Id)
    requires u in s.uploads
  {
    var d := s.uploads[u].deployment;
    PrefixEmpty(s.objects, d) ||
    (u in s.staging && s.staging[u].verdict.Valid? && OnlyOwn(s.objects, d, s.staging[u].verdict.files))
  }

  /** The prefix of a deployment holds exactly the validated files and the manifest, and the record says which. */
  predicate Exact(s: State, u: Id)
    requires u in s.uploads
  {
    var d := s.uploads[u].deployment;
    && u in s.staging && s.staging[u].verdict.Valid?
    && var files := s.staging[u].verdict.files;
       && d in s.deployments && s.deployments[d] == Deployment(Ready, Some(s.staging[u].digest), Some(files), None)
       && AllThere(s.objects, d, files) && OnlyOwn(s.objects, d, files)
       && Key(d, MANIFEST) in s.objects && s.objects[Key(d, MANIFEST)] == Manifest(files)
  }

  /** What is known of one upload. */
  predicate UploadOk(s: State, u: Id)
    requires u in s.uploads
  {
    && Backed(s, u)
    && (s.uploads[u].status.UploadCompleted? ==> Exact(s, u))
    && (s.uploads[u].deployment in s.deployments && s.deployments[s.uploads[u].deployment].status.Ready? ==>
          s.uploads[u].status.UploadCompleted?)
  }

  ghost predicate Consistent(s: State) {
    Wired(s) && forall u :: u in s.uploads ==> UploadOk(s, u)
  }

  /** An upload with its archive, its record and its objects as they were. */
  ghost predicate SameUpload(s: State, s': State, u: Id)
    requires u in s.uploads && Wired(s)
  {
    var d := s.uploads[u].deployment;
    && u in s'.uploads && s'.uploads[u] == s.uploads[u]
    && d in s'.deployments && s'.deployments[d] == s.deployments[d]
    && SameUnder(s.objects, s'.objects, d)
    && (u in s.staging ==> u in s'.staging && s'.staging[u] == s.staging[u])
  }

  lemma SameUploadOk(s: State, s': State, u: Id)
    requires u in s.uploads && Wired(s) && SameUpload(s, s', u) && UploadOk(s, u)
    ensures UploadOk(s', u)
  {
    var d := s.uploads[u].deployment;
    hide IsFile;
    if u in s.staging && s.staging[u].verdict.Valid? {
      var files := s.staging[u].verdict.files;
      assert AllThere(s.objects, d, files) ==> AllThere(s'.objects, d, files);
      assert OnlyOwn(s.objects, d, files) ==> OnlyOwn(s'.objects, d, files);
    }
    hide AllThere, OnlyOwn;
  }

  /** A call changes one upload, its archive, its record and its objects at most. */
  ghost predicate Confined(s: State, s': State, u: Id, d: Id) {
    && (forall v :: v != u ==> (v in s'.uploads <==> v in s.uploads) && (v in s.uploads ==> s'.uploads[v] == s.uploads[v]))
    && (forall v :: v != u ==> (v in s'.staging <==> v in s.staging) && (v in s.staging ==> s'.staging[v] == s.staging[v]))
    && (forall e :: e != d ==> (e in s'.deployments <==> e in s.deployments) && (e in s.deployments ==> s'.deployments[e] == s.deployments[e]))
    && (forall e :: e != d ==> SameUnder(s.objects, s'.objects, e))
  }

  function Concerned(s: State, a: Action): Id {
    if a.DoInitiate? then a.deployment else if a.upload in s.uploads then s.uploads[a.upload].deployment else 0
  }

  lemma SameUnderTransitive(a: Objects, b: Objects, c: Objects, d: Id)
    requires SameUnder(a, b, d) && SameUnder(b, c, d)
    ensures SameUnder(a, c, d)
  {
  }

  lemma ElsewhereKept(objects: Objects, d: Id, files: seq<File>, faults: nat -> Fault, clean: Fault, e: Id)
    requires e != d
    ensures SameUnder(objects, Deleted(objects, d, clean), e)
    ensures SameUnder(objects, Materialize(objects, d, files, faults).Last(objects), e)
    ensures SameUnder(objects, Deleted(Materialize(objects, d, files, faults).Last(objects), d, clean), e)
  {
    MaterializeMeans(objects, d, files, faults);
    hide Materialize, IsFile, AllThere;
  }

  lemma CompleteElsewhere(s: State, u: Id, now: Time, faults: Faults, e: Id)
    requires u in s.uploads && e != s.uploads[u].deployment
    ensures SameUnder(s.objects, Complete(s, u, now, faults).0.objects, e)
  {
    var files := if u in s.staging && s.staging[u].verdict.Valid? then s.staging[u].verdict.files else [];
    ElsewhereKept(s.objects, s.uploads[u].deployment, files, faults.write, faults.clean, e);
    assert SameUnder(s.objects, s.objects, e);
    hide Materialize, Deleted, SameUnder;
  }

  /** What a completion does to the other tables. */
  lemma CompleteTables(s: State, u: Id, now: Time, faults: Faults)
    requires u in s.uploads
    ensures var s' := Complete(s, u, now, faults).0;
            var d := s.uploads[u].deployment;
            && s'.staging == s.staging && u in s'.uploads
            && s'.uploads == s.uploads[u := s.uploads[u].(status := s'.uploads[u].status)]
            && (s'.deployments == s.deployments || (d in s'.deployments && s'.deployments == s.deployments[d := s'.deployments[d]]))
  {
    hide Materialize, Deleted, Objection, Readable;
  }

  lemma CompleteIsConfined(s: State, u: Id, now: Time, faults: Faults)
    requires u in s.uploads
    ensures Confined(s, Complete(s, u, now, faults).0, u, s.uploads[u].deployment)
  {
    CompleteTables(s, u, now, faults);
    forall e | e != s.uploads[u].deployment ensures SameUnder(s.objects, Complete(s, u, now, faults).0.objects, e) {
      CompleteElsewhere(s, u, now, faults, e);
    }
    hide Complete, SameUnder;
  }

  lemma StepIsConfined(s: State, a: Action)
    ensures Confined(s, Step(s, a).0, a.upload, Concerned(s, a))
  {
    UnknownChangesNothing(s, a);
    SameEverywhere(s);
    if a.DoComplete? {
      if a.upload in s.uploads { CompleteIsConfined(s, a.upload, a.now, a.faults); }
      hide Complete, Confined;
    } else {
      OthersAreConfined(s, a);
    }
  }

  lemma SameEverywhere(s: State)
    ensures forall e :: SameUnder(s.objects, s.objects, e)
  {
  }

  lemma OthersAreConfined(s: State, a: Action)
    requires !a.DoComplete?
    ensures Confined(s, Step(s, a).0, a.upload, Concerned(s, a))
  {
    hide Complete, SameUnder, StageRefused;
    SameEverywhere(s);
    if a.DoStage? { StageIsConfined(s, a); }
  }

  lemma StageIsConfined(s: State, a: Action)
    requires a.DoStage?
    ensures Confined(s, Step(s, a).0, a.upload, Concerned(s, a))
  {
    hide SameUnder, StageRefused;
    SameEverywhere(s);
  }

  /** A call concerns one upload and leaves all others as they were. */
  lemma StepTouchesOne(s: State, a: Action, u: Id)
    requires Wired(s) && Fresh(s, a) && u in s.uploads && a.upload != u
    ensures a.upload in s.uploads || a.DoInitiate? ==> SameUpload(s, Step(s, a).0, u)
    ensures !(a.upload in s.uploads || a.DoInitiate?) ==> Step(s, a).0 == s
  {
    StepIsConfined(s, a);
    assert a.upload in s.uploads ==> s.uploads[a.upload].deployment != s.uploads[u].deployment;
    UnknownChangesNothing(s, a);
    hide Step, SameUnder;
  }

  lemma UnknownChangesNothing(s: State, a: Action)
    ensures a.upload !in s.uploads && !a.DoInitiate? ==> Step(s, a).0 == s
  {
    hide Materialize, Objection, Deleted;
  }

  lemma NewObjectsOwned(s: State, s': State, d: Id)
    requires Wired(s) && d in s'.deployments && (forall e :: e in s.deployments ==> e in s'.deployments)
    requires forall e :: e != d ==> SameUnder(s.objects, s'.objects, e)
    ensures forall k :: k in s'.objects ==> k.deployment in s'.deployments
  {
    forall k | k in s'.objects ensures k.deployment in s'.deployments {
      if k.deployment != d { assert SameUnder(s.objects, s'.objects, k.deployment); }
    }
  }

  /** What a step does to the tables' keys. */
  ghost predicate KeysKept(s: State, s': State, a: Action) {
    && (forall u :: u in s.uploads ==> u in s'.uploads && s'.uploads[u].deployment == s.uploads[u].deployment)
    && (s'.staging.Keys <= s.staging.Keys + {a.upload})
    && ((s'.uploads.Keys == s.uploads.Keys && s'.deployments.Keys == s.deployments.Keys && a.upload in s.uploads) ||
        (&& a.DoInitiate? && s'.uploads.Keys == s.uploads.Keys + {a.upload}
         && s'.uploads[a.upload].deployment == a.deployment && s'.deployments.Keys == s.deployments.Keys + {a.deployment}))
  }

  lemma StepKeys(s: State, a: Action)
    requires Wired(s) && Fresh(s, a) && Step(s, a).0 != s
    ensures KeysKept(s, Step(s, a).0, a)
  {
    UnknownChangesNothing(s, a);
    if a.DoComplete? {
      CompleteKeys(s, a);
    } else {
      OtherKeys(s, a);
    }
    hide Step, Wired, KeysKept;
  }

  lemma OtherKeys(s: State, a: Action)
    requires !a.DoComplete? && Fresh(s, a) && (a.DoInitiate? || a.upload in s.uploads) && Step(s, a).0 != s
    ensures KeysKept(s, Step(s, a).0, a)
  {
    hide Complete, StageRefused;
  }

  lemma CompleteKeys(s: State, a: Action)
    requires Wired(s) && a.DoComplete? && a.upload in s.uploads
    ensures KeysKept(s, Step(s, a).0, a)
  {
    CompleteTables(s, a.upload, a.now, a.faults);
    assert s.uploads[a.upload].deployment in s.deployments;
    hide Complete, Wired;
  }

  lemma KeptWired(s: State, s': State, a: Action)
    requires Wired(s) && Fresh(s, a) && KeysKept(s, s', a) && Concerned(s, a) in s'.deployments
    requires forall e :: e != Concerned(s, a) ==> SameUnder(s.objects, s'.objects, e)
    ensures Wired(s')
  {
    hide SameUnder, IsUploadOf, Concerned;
    NewObjectsOwned(s, s', Concerned(s, a));
    EachHasUpload(s, s', a);
    OneUploadEach(s, s', a);
  }

  lemma OneUploadEach(s: State, s': State, a: Action)
    requires Wired(s) && Fresh(s, a) && KeysKept(s, s', a)
    ensures forall u, v :: u in s'.uploads && v in s'.uploads && s'.uploads[u].deployment == s'.uploads[v].deployment ==> u == v
  {
    hide IsUploadOf;
  }

  lemma EachHasUpload(s: State, s': State, a: Action)
    requires Wired(s) && KeysKept(s, s', a)
    ensures forall d :: d in s'.deployments ==> exists u :: IsUploadOf(s', u, d)
  {
    forall d | d in s'.deployments ensures exists u :: IsUploadOf(s', u, d) {
      if d in s.deployments {
        var u :| IsUploadOf(s, u, d);
        assert IsUploadOf(s', u, d);
      } else {
        assert IsUploadOf(s', a.upload, d);
      }
    }
  }

  lemma StepKeepsWired(s: State, a: Action)
    requires Wired(s) && Fresh(s, a)
    ensures Wired(Step(s, a).0)
  {
    var s' := Step(s, a).0;
    if s' != s {
      StepKeys(s, a);
      StepIsConfined(s, a);
      assert Concerned(s, a) in s'.deployments by { hide Step, SameUnder; }
      hide Step, SameUnder, Wired, KeysKept;
      KeptWired(s, s', a);
    }
  }

  /** The upload a call concerns: initiation and staging. */
  lemma InitiateOk(s: State, a: Action)
    requires Consistent(s) && Fresh(s, a) && a.DoInitiate? && a.size <= a.maxSize
    ensures UploadOk(Step(s, a).0, a.upload)
  {
    assert PrefixEmpty(s.objects, a.deployment);
    hide IsFile, AllThere, OnlyOwn;
  }

  lemma StageOk(s: State, a: Action)
    requires Consistent(s) && a.DoStage? && a.upload in s.uploads
    ensures UploadOk(Step(s, a).0, a.upload)
  {
    assert UploadOk(s, a.upload);
    StageTables(s, a);
    hide IsFile, AllThere, OnlyOwn, PrefixEmpty, Wired, Step;
  }

  lemma StageTables(s: State, a: Action)
    requires a.DoStage? && a.upload in s.uploads
    ensures var s' := Step(s, a).0;
            && s'.objects == s.objects && s'.deployments == s.deployments && a.upload in s'.uploads
            && s'.uploads[a.upload].deployment == s.uploads[a.upload].deployment
            && (s'.uploads[a.upload].status == s.uploads[a.upload].status ||
                (s.uploads[a.upload].status.UploadPending? && s'.uploads[a.upload].status.UploadExpired?))
            && (a.upload in s.staging ==> a.upload in s'.staging && s'.staging[a.upload] == s.staging[a.upload])
            && (s.uploads[a.upload].status.UploadCompleted? ==> s' == s)
  {
  }

  lemma DeletedOwn(objects: Objects, d: Id, files: seq<File>, fault: Fault)
    ensures PrefixEmpty(objects, d) ==> PrefixEmpty(Deleted(objects, d, fault), d)
    ensures OnlyOwn(objects, d, files) ==> OnlyOwn(Deleted(objects, d, fault), d, files)
  {
    hide IsFile;
  }

  lemma MaterializedOwn(objects: Objects, d: Id, files: seq<File>, faults: nat -> Fault)
    requires PrefixEmpty(objects, d) || OnlyOwn(objects, d, files)
    ensures OnlyOwn(Materialize(objects, d, files, faults).Last(objects), d, files)
  {
    MaterializeMeans(objects, d, files, faults);
    hide Materialize, IsFile, AllThere;
  }

  /** How a completion ends: closed before, without a READY record, or published. */
  datatype Ending = Closed | Cleaned | Reached

  ghost predicate EndsAs(s: State, s': State, u: Id, faults: Faults, e: Ending)
    requires u in s.uploads && u in s'.uploads
  {
    var d := s.uploads[u].deployment;
    var pending := s.uploads[u].status.UploadPending?;
    match e
    case Closed =>
      && s'.objects == s.objects && s'.deployments == s.deployments
      && (s' == s || (pending && s'.uploads[u].status.UploadExpired?))
    case Cleaned =>
      && pending && !s'.uploads[u].status.UploadCompleted?
      && (s'.deployments == s.deployments || (d in s'.deployments && s'.deployments[d].status.Failed?))
      && (|| s'.objects == Deleted(s.objects, d, faults.clean)
          || (&& u in s.staging && s.staging[u].verdict.Valid?
              && s'.objects == Deleted(Materialize(s.objects, d, s.staging[u].verdict.files, faults.write).Last(s.objects), d, faults.clean)))
    case Reached =>
      && pending && s'.uploads[u].status.UploadCompleted? && u in s.staging && s.staging[u].verdict.Valid?
      && var files := s.staging[u].verdict.files; var trace := Materialize(s.objects, d, files, faults.write);
         trace.ok && s'.objects == trace.Last(s.objects)
         && s'.deployments == s.deployments[d := Deployment(Ready, Some(s.staging[u].digest), Some(files), None)]
  }

  lemma CompleteEnds(s: State, u: Id, now: Time, faults: Faults)
    requires u in s.uploads
    ensures u in Complete(s, u, now, faults).0.uploads
    ensures exists e :: EndsAs(s, Complete(s, u, now, faults).0, u, faults, e)
  {
    CompleteTables(s, u, now, faults);
    var s' := Complete(s, u, now, faults).0;
    var outcome := Complete(s, u, now, faults).1;
    hide Materialize, Deleted;
    if outcome.Done? { assert EndsAs(s, s', u, faults, Reached); }
    else if outcome.AlreadyCompleted? || outcome.Expired? { assert EndsAs(s, s', u, faults, Closed); }
    else { assert EndsAs(s, s', u, faults, Cleaned); }
  }

  lemma CleanedOk(s: State, s': State, u: Id, faults: Faults)
    requires u in s.uploads && UploadOk(s, u) && u in s'.uploads && s'.staging == s.staging
    requires s'.uploads[u].deployment == s.uploads[u].deployment && EndsAs(s, s', u, faults, Cleaned)
    ensures UploadOk(s', u)
  {
    var d := s.uploads[u].deployment;
    if u in s.staging && s.staging[u].verdict.Valid? {
      var files := s.staging[u].verdict.files;
      DeletedOwn(s.objects, d, files, faults.clean);
      MaterializedOwn(s.objects, d, files, faults.write);
      DeletedOwn(Materialize(s.objects, d, files, faults.write).Last(s.objects), d, files, faults.clean);
    } else {
      DeletedOwn(s.objects, d, [], faults.clean);
    }
    hide Materialize, OnlyOwn, PrefixEmpty, Deleted, Exact;
  }

  lemma ReachedOk(s: State, s': State, u: Id, faults: Faults)
    requires u in s.uploads && UploadOk(s, u) && u in s'.uploads && s'.staging == s.staging
    requires s'.uploads[u].deployment == s.uploads[u].deployment && EndsAs(s, s', u, faults, Reached)
    ensures UploadOk(s', u)
  {
    var d := s.uploads[u].deployment;
    MaterializedOwn(s.objects, d, s.staging[u].verdict.files, faults.write);
    MaterializeMeans(s.objects, d, s.staging[u].verdict.files, faults.write);
    hide Materialize, OnlyOwn, AllThere, IsFile;
  }

  /** A completion, however it ends. */
  lemma CompleteOk(s: State, u: Id, now: Time, faults: Faults)
    requires u in s.uploads && UploadOk(s, u)
    ensures UploadOk(Complete(s, u, now, faults).0, u)
  {
    var s' := Complete(s, u, now, faults).0;
    CompleteTables(s, u, now, faults);
    CompleteEnds(s, u, now, faults);
    var e :| EndsAs(s, s', u, faults, e);
    if e.Cleaned? { CleanedOk(s, s', u, faults); }
    if e.Reached? { ReachedOk(s, s', u, faults); }
    if e.Closed? { ClosedOk(s, s', u, faults); }
    hide Complete, UploadOk, EndsAs;
  }

  lemma ClosedOk(s: State, s': State, u: Id, faults: Faults)
    requires u in s.uploads && UploadOk(s, u) && u in s'.uploads && s'.staging == s.staging
    requires s'.uploads[u].deployment == s.uploads[u].deployment && EndsAs(s, s', u, faults, Closed)
    ensures UploadOk(s', u)
  {
    hide OnlyOwn, PrefixEmpty, AllThere;
  }

  lemma StepKeepsConsistent(s: State, a: Action)
    requires Consistent(s) && Fresh(s, a)
    ensures Consistent(Step(s, a).0)
  {
    var s' := Step(s, a).0;
    StepKeepsWired(s, a);
    if a.DoInitiate? && a.size <= a.maxSize { InitiateOk(s, a); }
    if a.DoStage? && a.upload in s.uploads { StageOk(s, a); }
    if a.DoComplete? && a.upload in s.uploads { CompleteOk(s, a.upload, a.now, a.faults); }
    forall u | u in s'.uploads ensures UploadOk(s', u) {
      if u != a.upload {
        NoOtherUpload(s, a, u);
        StepTouchesOne(s, a, u);
        if s' != s { SameUploadOk(s, s', u); }
      } else {
        UnknownUploadOnly(s, a);
      }
    }
    hide Wired, UploadOk, Step;
  }

  lemma NoOtherUpload(s: State, a: Action, u: Id)
    requires u in Step(s, a).0.uploads && u != a.upload
    ensures u in s.uploads
  {
    hide Materialize, Objection, Deleted;
  }

  lemma UnknownUploadOnly(s: State, a: Action)
    requires a.upload in Step(s, a).0.uploads && Fresh(s, a)
    ensures a.upload in s.uploads || (a.DoInitiate? && a.size <= a.maxSize)
    ensures a.DoInitiate? ==> a.upload !in s.uploads
  {
    hide Materialize, Objection, Deleted;
  }

  lemma {:induction false} RunKeepsConsistent(s: State, actions: seq<Action>)
    requires Consistent(s) && FreshRun(s, actions)
    ensures Consistent(After(s, actions))
    decreases |actions|
  {
    if actions != [] {
      StepKeepsConsistent(s, actions[0]);
      hide Consistent, Step;
      RunKeepsConsistent(Step(s, actions[0]).0, actions[1..]);
    }
  }

  predicate IsReady(s: State, d: Id) { d in s.deployments && s.deployments[d].status.Ready? }

  /**
    In every reachable state, whatever fails and however often a completion is retried: a READY
    deployment is that of one completed upload, its prefix holds exactly the files the validator
    listed for the staged archive and their manifest, and its record names that archive.
   */
  lemma ReadyMeansComplete(actions: seq<Action>, d: Id)
    requires FreshRun(Start(), actions) && IsReady(After(Start(), actions), d)
    ensures var s := After(Start(), actions);
            exists u :: IsUploadOf(s, u, d) && s.uploads[u].status.UploadCompleted? && Exact(s, u)
  {
    assert Consistent(Start());
    RunKeepsConsistent(Start(), actions);
    var s := After(Start(), actions);
    var u :| IsUploadOf(s, u, d);
    assert UploadOk(s, u);
    hide Exact, Backed, After;
  }

  /** A step leaves a READY deployment as it is. */
  lemma StepKeepsReady(s: State, a: Action, d: Id)
    requires Consistent(s) && Fresh(s, a) && IsReady(s, d)
    ensures var s' := Step(s, a).0; IsReady(s', d) && s'.deployments[d] == s.deployments[d] && SameUnder(s.objects, s'.objects, d)
  {
    var u :| IsUploadOf(s, u, d);
    assert UploadOk(s, u);
    if a.upload == u {
      ClosedUploadInert(s, a);
    } else {
      StepTouchesOne(s, a, u);
    }
    hide Exact, Backed, Step, Wired;
  }

  lemma ClosedUploadInert(s: State, a: Action)
    requires Fresh(s, a) && a.upload in s.uploads && Terminal(s.uploads[a.upload])
    ensures Step(s, a).0 == s
  {
    hide Materialize, Objection, Deleted;
  }

  /** Once READY, a deployment's record and objects stay as they are through any later run. */
  lemma {:induction false} ReadyIsImmutable(s: State, actions: seq<Action>, d: Id)
    requires Consistent(s) && FreshRun(s, actions) && IsReady(s, d)
    ensures var s' := After(s, actions);
            IsReady(s', d) && s'.deployments[d] == s.deployments[d] && SameUnder(s.objects, s'.objects, d)
    decreases |actions|
  {
    if actions != [] {
      StepKeepsReady(s, actions[0], d);
      StepKeepsConsistent(s, actions[0]);
      hide Consistent, Step, SameUnder;
      ReadyIsImmutable(Step(s, actions[0]).0, actions[1..], d);
      SameUnderTransitive(s.objects, Step(s, actions[0]).0.objects, After(s, actions).objects, d);
    }
  }
}

/** The service and its store as objects. */
module Deployment {
  import opened Common
  import opened DeploymentModel

  /** The first `i` assets are written, with the states `done` on the way; the rest is still to come. */
  ghost predicate UpTo(start: Objects, deployment: Id, files: seq<File>, faults: nat -> Fault, i: nat, done: seq<Objects>, objects: Objects)
    requires i <= |files|
  {
    var rest := WriteAssets(objects, deployment, files[i..], faults, i);
    WriteAssets(start, deployment, files, faults, 0) == Trace(done + rest.states, rest.ok)
  }

  lemma OneMore(start: Objects, deployment: Id, files: seq<File>, faults: nat -> Fault, i: nat, done: seq<Objects>, objects: Objects)
    requires i < |files| && UpTo(start, deployment, files, faults, i, done, objects)
    ensures var key, content := Key(deployment, files[i].path), Asset(files[i].data);
            var after := Written(objects, key, content, faults(i));
            if WriteOk(objects, key, content, faults(i)) then UpTo(start, deployment, files, faults, i + 1, done + [after], after)
            else Materialize(start, deployment, files, faults) == Trace(done + [after], false)
  {
    var after := Written(objects, Key(deployment, files[i].path), Asset(files[i].data), faults(i));
    assert files[i..][1..] == files[i + 1..] && files[i..][0] == files[i];
    var rest := WriteAssets(after, deployment, files[i + 1..], faults, i + 1);
    assert done + ([after] + rest.states) == (done + [after]) + rest.states;
  }

  lemma AllWritten(start: Objects, deployment: Id, files: seq<File>, faults: nat -> Fault, done: seq<Objects>, objects: Objects)
    requires UpTo(start, deployment, files, faults, |files|, done, objects) && objects == Trace(done, true).Last(start)
    ensures var key := Key(deployment, MANIFEST);
            Materialize(start, deployment, files, faults) ==
            Trace(done + [Written(objects, key, Manifest(files), faults(|files|))], WriteOk(objects, key, Manifest(files), faults(|files|)))
  {
    assert files[|files|..] == [] && done + [] == done;
    assert WriteAssets(objects, deployment, [], faults, |files|) == Trace([], true);
    assert WriteAssets(start, deployment, files, faults, 0) == Trace(done, true);
  }

  class PostgresBundleStore {
    var objects: Objects
    var staging: map<Id, Archive>
    ghost var history: seq<Objects>

    constructor ()
      ensures objects == map[] && staging == map[] && history == []
    {
      objects, staging, history := map[], map[], [];
    }

    /** `write_staged`; false when the call raises. */
    method WriteStaged(upload: Id, archive: Archive, fault: Fault) returns (ok: bool)
      modifies this`staging
      ensures staging == StageWritten(old(staging), upload, archive, fault)
      ensures ok == (!StageRefused(old(staging), upload, archive) && fault.NoFault?)
    {
      ok := fault.NoFault?;
      if fault != Fails(false) {
        if upload !in staging { staging := staging[upload := archive]; }
        if staging[upload] != archive { ok := false; }
      }
      assert fault == Fails(false) || StageRefused(old(staging), upload, archive) || old(staging)[upload := archive] == staging;
    }

    /** INSERT, or keep the existing row, and compare; false when the call raises. */
    method WriteObject(key: Key, content: Content, fault: Fault) returns (ok: bool)
      modifies this`objects, this`history
      ensures objects == Written(old(objects), key, content, fault)
      ensures ok == WriteOk(old(objects), key, content, fault)
      ensures history == old(history) + [objects]
    {
      ok := fault.NoFault?;
      if fault != Fails(false) {
        if key !in objects { objects := objects[key := content]; }
        if objects[key] != content { ok := false; }
      }
      assert fault == Fails(false) || key !in old(objects) || old(objects)[key] != content || old(objects)[key := content] == old(objects);
      history := history + [objects];
    }

    method DeletePrefix(deployment: Id, fault: Fault) returns (ok: bool)
      modifies this`objects
      ensures objects == Deleted(old(objects), deployment, fault) && ok == fault.NoFault?
    {
      if fault != Fails(false) { objects := map k | k in objects && k.deployment != deployment :: objects[k]; }
      ok := fault.NoFault?;
    }
  }

  class DeploymentService {
    const store: PostgresBundleStore
    const maxSize: nat
    var uploads: map<Id, Upload>
    var deployments: map<Id, DeploymentModel.Deployment>

    constructor (store: PostgresBundleStore, maxSize: nat)
      ensures this.store == store && this.maxSize == maxSize && uploads == map[] && deployments == map[]
    {
      this.store, this.maxSize := store, maxSize;
      uploads, deployments := map[], map[];
    }

    function State(): DeploymentModel.State
      reads this, store
    {
      DeploymentModel.State(store.objects, store.staging, uploads, deployments)
    }

    method InitiateUpload(upload: Id, deployment: Id, size: nat, digest: Option<nat>, now: Time) returns (outcome: Outcome)
      modifies this
      ensures (State(), outcome) == Initiate(old(State()), upload, deployment, size, digest, maxSize, now)
    {
      if size > maxSize { return TooLarge; }
      uploads := uploads[upload := Upload(deployment, UploadPending, size, digest, now + HOUR, false)];
      deployments := deployments[deployment := DeploymentModel.Deployment(Pending, None, None, None)];
      outcome := Done;
    }

    method CheckPending(upload: Id, now: Time) returns (outcome: Outcome)
      requires upload in uploads
      modifies this`uploads
      ensures (State(), outcome) == EnsurePending(old(State()), upload, now)
    {
      var u := uploads[upload];
      if !u.status.UploadPending? { return AlreadyCompleted; }
      if u.expiresAt <= now {
        uploads := uploads[upload := u.(status := UploadExpired)];
        return Expired;
      }
      outcome := Done;
    }

    method StageUpload(upload: Id, archive: Archive, now: Time, fault: Fault) returns (outcome: Outcome)
      modifies this`uploads, store`staging
      ensures (State(), outcome) == Stage(old(State()), upload, archive, now, fault)
    {
      if upload !in uploads { return UnknownUpload; }
      outcome := CheckPending(upload, now);
      if !outcome.Done? { return; }
      var ok := store.WriteStaged(upload, archive, fault);
      if !ok { return StoreFailed; }
      uploads := uploads[upload := uploads[upload].(keyed := true)];
    }

    /** Write the assets in order, then the manifest; false as soon as a call raises. */
    method WriteAll(deployment: Id, files: seq<File>, faults: nat -> Fault) returns (ok: bool)
      modifies store`objects, store`history
      ensures var trace := Materialize(old(store.objects), deployment, files, faults);
              && ok == trace.ok && store.objects == trace.Last(old(store.objects))
              && store.history == old(store.history) + trace.states
    {
      ghost var start, log := store.objects, store.history;
      ghost var done: seq<Objects> := [];
      assert files[0..] == files;
      var i := 0;
      while i < |files|
        invariant 0 <= i <= |files|
        invariant store.history == log + done
        invariant store.objects == Trace(done, true).Last(start)
        invariant UpTo(start, deployment, files, faults, i, done, store.objects)
      {
        hide UpTo, WriteAssets;
        ghost var before := store.objects;
        ok := store.WriteObject(Key(deployment, files[i].path), Asset(files[i].data), faults(i));
        OneMore(start, deployment, files, faults, i, done, before);
        assert store.history == log + (done + [store.objects]);
        if !ok { return; }
        done := done + [store.objects];
        i := i + 1;
      }
      hide WriteAssets;
      AllWritten(start, deployment, files, faults, done, store.objects);
      ok := store.WriteObject(Key(deployment, MANIFEST), Manifest(files), faults(|files|));
      assert store.history == log + (done + [store.objects]);
    }

    method FailUpload(upload: Id, code: nat, fault: Fault) returns (outcome: Outcome)
      requires upload in uploads
      modifies this, store`objects
      ensures (State(), outcome) == Reject(old(State()), upload, code, fault)
    {
      var u := uploads[upload];
      var ok := store.DeletePrefix(u.deployment, fault);
      if !ok { return StoreFailed; }
      deployments := deployments[u.deployment := DeploymentModel.Deployment(Failed, None, None, Some(code))];
      uploads := uploads[upload := u.(status := UploadFailed)];
      outcome := Rejected(code);
    }

    method CompleteUpload(upload: Id, now: Time, faults: Faults) returns (outcome: Outcome)
      modifies this, store`objects, store`history
      ensures (State(), outcome) == Complete(old(State()), upload, now, faults)
    {
      if upload !in uploads { return UnknownUpload; }
      outcome := CheckPending(upload, now);
      if !outcome.Done? { return; }
      var u := uploads[upload];
      var cleaned: bool;
      if faults.open.Fails? || !u.keyed || upload !in store.staging {
        cleaned := store.DeletePrefix(u.deployment, faults.clean);
        return StoreFailed;
      }
      var archive := store.staging[upload];
      if archive.size != u.expectedSize {
        outcome := FailUpload(upload, SIZE_MISMATCH, faults.clean);
        return;
      }
      if u.expectedDigest.Some? && u.expectedDigest.value != archive.digest {
        outcome := FailUpload(upload, CHECKSUM_MISMATCH, faults.clean);
        return;
      }
      if archive.verdict.Invalid? {
        outcome := FailUpload(upload, archive.verdict.code, faults.clean);
        return;
      }
      var files := archive.verdict.files;
      var ok := WriteAll(u.deployment, files, faults.write);
      if !ok {
        cleaned := store.DeletePrefix(u.deployment, faults.clean);
        return StoreFailed;
      }
      deployments := deployments[u.deployment := DeploymentModel.Deployment(Ready, Some(archive.digest), Some(files), None)];
      uploads := uploads[upload := u.(status := UploadCompleted)];
    }
  }
}
