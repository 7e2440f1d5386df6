/**
  The bundle validator (`_validate_zip` and its helpers in
  src/orcheo/hosted_apps/zip_validation.py). An archive is a list of members; each is read in
  chunks, and the sizes read so far are checked against what is left of two budgets. Unicode
  folding, suffix tests and the parsers of manifests and HTML are parameters.
 */
module BundleValidation {
  import opened Common
  import opened BundleKeys

  const APP_MANIFEST := "orcheo.app.json"
  const INDEX := "index.html"

  datatype Limits = Limits(maxFiles: nat, maxExpanded: nat, maxFile: nat, maxDepth: nat, maxManifest: nat)

  /** `collision` folds NFC-normalized text, `folded` folds it as it is. */
  datatype Rules = Rules(
    collision: string -> string, folded: string -> string, nested: string -> bool, executable: string -> bool, html: string -> bool)

  /** `declared` is the size in the directory; `chunks` are the sizes read; `parsed`: a manifest or HTML page parses. */
  datatype Member = Member(
    filename: string, declared: nat, chunks: seq<nat>, regular: bool, magic: bool, parsed: bool, data: nat)

  datatype Code =
    | TooManyFiles | UnsafePath | TooDeep | ReservedPath | SpecialFile | Collision | NestedArchive | FileTooLarge
    | ManifestPath | ManifestTooLarge | ExpandedTooLarge | Executable | Unparsable | IndexMissing

  datatype Asset = Asset(path: string, size: nat, data: nat)

  datatype Verdict = Valid(files: seq<Asset>) | Invalid(code: Code)

  // ---------------------------------------------------------------- member paths

  datatype PathResult = Rejected(code: Code) | Directory | Path(path: string)

  predicate Escapes(filename: string) {
    '\0' in filename || '\\' in filename || (filename != "" && filename[0] == '/') || ".." in Parts(filename)
  }

  predicate Reserved(path: string) { path == "__orcheo" || "__orcheo/" <= path }

  function NormalizePath(filename: string, limits: Limits): PathResult {
    if Escapes(filename) then Rejected(UnsafePath)
    else if filename != "" && filename[|filename| - 1] == '/' then Directory
    else if |Parts(filename)| > limits.maxDepth then Rejected(TooDeep)
    else if Reserved(Join(Parts(filename))) then Rejected(ReservedPath)
    else Path(Join(Parts(filename)))
  }

  // ---------------------------------------------------------------- streaming

  function Total(chunks: seq<nat>): nat { if chunks == [] then 0 else chunks[0] + Total(chunks[1..]) }

  datatype Read = Read(size: nat) | Stopped(code: Code)

  /** Read chunk by chunk, and stop as soon as a budget is exceeded. */
  function Stream(chunks: seq<nat>, size: nat, maxFile: nat, budget: int): Read
    decreases |chunks|
  {
    if chunks == [] then Read(size)
    else if size + chunks[0] > maxFile then Stopped(FileTooLarge)
    else if size + chunks[0] > budget then Stopped(ExpandedTooLarge)
    else Stream(chunks[1..], size + chunks[0], maxFile, budget)
  }

  /** Stopping early refuses exactly the members whose whole size exceeds a budget. */
  lemma {:induction false} StreamMeansTotal(chunks: seq<nat>, size: nat, maxFile: nat, budget: int)
    requires size <= maxFile && size <= budget
    ensures Stream(chunks, size, maxFile, budget) == Read(size + Total(chunks)) <==>
              size + Total(chunks) <= maxFile && size + Total(chunks) <= budget
    ensures Stream(chunks, size, maxFile, budget).Read? ==> Stream(chunks, size, maxFile, budget) == Read(size + Total(chunks))
    decreases |chunks|
  {
    if chunks != [] && size + chunks[0] <= maxFile && size + chunks[0] <= budget {
      StreamMeansTotal(chunks[1..], size + chunks[0], maxFile, budget);
    }
  }

  // ---------------------------------------------------------------- one member, one archive

  function FileLimit(path: string, limits: Limits): nat {
    if path == APP_MANIFEST && limits.maxManifest < limits.maxFile then limits.maxManifest else limits.maxFile
  }

  /** The tests before a member's bytes are read, in order. */
  function Constraints(rules: Rules, limits: Limits, m: Member, path: string): Option<Code> {
    if rules.nested(path) then Some(NestedArchive)
    else if m.declared > limits.maxFile then Some(FileTooLarge)
    else if rules.folded(path) == APP_MANIFEST && path != APP_MANIFEST then Some(ManifestPath)
    else if path == APP_MANIFEST && m.declared > limits.maxManifest then Some(ManifestTooLarge)
    else None
  }

  predicate MustParse(rules: Rules, path: string) { path == APP_MANIFEST || rules.html(path) }

  /** The loop over the members: folded paths seen, bytes expanded, and assets listed so far. */
  function ValidateFrom(rules: Rules, limits: Limits, members: seq<Member>, seen: set<string>, expanded: nat): Verdict
    decreases |members|
  {
    if members == [] then Valid([])
    else
      var m := members[0];
      match NormalizePath(m.filename, limits)
      case Rejected(code) => Invalid(code)
      case Directory => ValidateFrom(rules, limits, members[1..], seen, expanded)
      case Path(path) =>
        if !m.regular then Invalid(SpecialFile)
        else if rules.collision(path) in seen then Invalid(Collision)
        else if Constraints(rules, limits, m, path).Some? then Invalid(Constraints(rules, limits, m, path).value)
        else match Stream(m.chunks, 0, FileLimit(path, limits), limits.maxExpanded - expanded)
          case Stopped(code) => Invalid(code)
          case Read(size) =>
            if rules.executable(path) || m.magic then Invalid(Executable)
            else if MustParse(rules, path) && !m.parsed then Invalid(Unparsable)
            else match ValidateFrom(rules, limits, members[1..], seen + {rules.collision(path)}, expanded + size)
              case Invalid(code) => Invalid(code)
              case Valid(rest) => Valid(if path == APP_MANIFEST then rest else [Asset(path, size, m.data)] + rest)
  }

  predicate HasIndex(files: seq<Asset>) { exists i :: 0 <= i < |files| && files[i].path == INDEX }

  function Validate(rules: Rules, limits: Limits, members: seq<Member>): Verdict {
    if |members| > limits.maxFiles then Invalid(TooManyFiles)
    else match ValidateFrom(rules, limits, members, {}, 0)
      case Invalid(code) => Invalid(code)
      case Valid(files) => if HasIndex(files) then Valid(files) else Invalid(IndexMissing)
  }

  // ---------------------------------------------------------------- what acceptance means

  predicate IsFile(m: Member, limits: Limits) { NormalizePath(m.filename, limits).Path? }

  function PathOf(m: Member, limits: Limits): string
    requires IsFile(m, limits)
  {
    NormalizePath(m.filename, limits).path
  }

  /** A member taken by itself. */
  predicate MemberOk(rules: Rules, limits: Limits, m: Member) {
    && !NormalizePath(m.filename, limits).Rejected?
    && (IsFile(m, limits) ==>
          var path := PathOf(m, limits);
          && m.regular && !m.magic && !rules.nested(path) && !rules.executable(path)
          && m.declared <= limits.maxFile && Total(m.chunks) <= FileLimit(path, limits)
          && (path == APP_MANIFEST ==> m.declared <= limits.maxManifest)
          && (rules.folded(path) == APP_MANIFEST ==> path == APP_MANIFEST)
          && (MustParse(rules, path) ==> m.parsed))
  }

  /** The bytes of all files. */
  function Expanded(limits: Limits, members: seq<Member>): nat
    decreases |members|
  {
    if members == [] then 0
    else (if IsFile(members[0], limits) then Total(members[0].chunks) else 0) + Expanded(limits, members[1..])
  }

  /** No two files have the same folded path, and none has one of `seen`. */
  ghost predicate NoCollision(rules: Rules, limits: Limits, members: seq<Member>, seen: set<string>) {
    && (forall i :: 0 <= i < |members| && IsFile(members[i], limits) ==> rules.collision(PathOf(members[i], limits)) !in seen)
    && (forall i, j :: 0 <= i < j < |members| && IsFile(members[i], limits) && IsFile(members[j], limits) ==>
          rules.collision(PathOf(members[i], limits)) != rules.collision(PathOf(members[j], limits)))
  }

  ghost predicate AllOk(rules: Rules, limits: Limits, members: seq<Member>) {
    forall i :: 0 <= i < |members| ==> MemberOk(rules, limits, members[i])
  }

  /** The assets an archive lists: its files in order, without the app manifest. */
  function Assets(limits: Limits, members: seq<Member>): seq<Asset>
    decreases |members|
  {
    if members == [] then []
    else
      var rest := Assets(limits, members[1..]);
      if IsFile(members[0], limits) && PathOf(members[0], limits) != APP_MANIFEST
      then [Asset(PathOf(members[0], limits), Total(members[0].chunks), members[0].data)] + rest else rest
  }

  lemma SplitOk(rules: Rules, limits: Limits, members: seq<Member>)
    requires members != []
    ensures AllOk(rules, limits, members) <==> MemberOk(rules, limits, members[0]) && AllOk(rules, limits, members[1..])
  {
    hide MemberOk;
    if MemberOk(rules, limits, members[0]) && AllOk(rules, limits, members[1..]) {
      forall i | 0 <= i < |members| ensures MemberOk(rules, limits, members[i]) {
        if i > 0 { assert members[1..][i - 1] == members[i]; }
      }
    }
    assert forall i :: 0 <= i < |members| - 1 ==> members[1..][i] == members[i + 1];
  }

  lemma SplitCollision(rules: Rules, limits: Limits, members: seq<Member>, seen: set<string>)
    requires members != []
    ensures NoCollision(rules, limits, members, seen) <==>
            if IsFile(members[0], limits)
            then Folded(rules, limits, members[0]) !in seen
                 && NoCollision(rules, limits, members[1..], seen + {Folded(rules, limits, members[0])})
            else NoCollision(rules, limits, members[1..], seen)
  {
    hide NormalizePath;
    var rest := members[1..];
    assert forall i :: 0 <= i < |rest| ==> rest[i] == members[i + 1];
    assert forall i :: 0 < i < |members| ==> members[i] == rest[i - 1];
  }

  /** The verdict on a whole archive, given the assets listed so far and the verdict on the rest. */
  function Listed(done: seq<Asset>, rest: Verdict): Verdict {
    match rest
    case Invalid(code) => Invalid(code)
    case Valid(files) => Valid(done + files)
  }

  /** What the loop asks of one file. */
  predicate FileAccepted(rules: Rules, limits: Limits, m: Member, path: string, seen: set<string>, expanded: nat) {
    && m.regular && rules.collision(path) !in seen && Constraints(rules, limits, m, path).None?
    && Stream(m.chunks, 0, FileLimit(path, limits), limits.maxExpanded - expanded).Read?
    && !rules.executable(path) && !m.magic && (MustParse(rules, path) ==> m.parsed)
  }

  lemma FileAcceptedMeans(rules: Rules, limits: Limits, m: Member, seen: set<string>, expanded: nat)
    requires expanded <= limits.maxExpanded && IsFile(m, limits)
    ensures var path := PathOf(m, limits);
            FileAccepted(rules, limits, m, path, seen, expanded) <==>
              MemberOk(rules, limits, m) && rules.collision(path) !in seen && expanded + Total(m.chunks) <= limits.maxExpanded
  {
    var path := PathOf(m, limits);
    StreamMeansTotal(m.chunks, 0, FileLimit(path, limits), limits.maxExpanded - expanded);
    hide NormalizePath, Stream, Total;
  }

  /** The whole archive from here on, given the folded paths seen and the bytes expanded. */
  ghost predicate InOrder(rules: Rules, limits: Limits, members: seq<Member>, seen: set<string>, expanded: nat) {
    && AllOk(rules, limits, members)
    && NoCollision(rules, limits, members, seen)
    && expanded + Expanded(limits, members) <= limits.maxExpanded
  }

  /** What a file adds to the paths seen. */
  function Folded(rules: Rules, limits: Limits, m: Member): string
    requires IsFile(m, limits)
  {
    rules.collision(PathOf(m, limits))
  }

  /** A file fits where it stands. */
  ghost predicate Fits(rules: Rules, limits: Limits, m: Member, seen: set<string>, expanded: nat)
    requires IsFile(m, limits)
  {
    MemberOk(rules, limits, m) && Folded(rules, limits, m) !in seen && expanded + Total(m.chunks) <= limits.maxExpanded
  }

  lemma InOrderFile(rules: Rules, limits: Limits, members: seq<Member>, seen: set<string>, expanded: nat)
    requires members != [] && IsFile(members[0], limits)
    ensures InOrder(rules, limits, members, seen, expanded) <==>
              && Fits(rules, limits, members[0], seen, expanded)
              && InOrder(rules, limits, members[1..], seen + {Folded(rules, limits, members[0])}, expanded + Total(members[0].chunks))
  {
    hide *;
    var m := members[0];
    SplitOk(rules, limits, members);
    SplitCollision(rules, limits, members, seen);
    FitsIs(rules, limits, m, seen, expanded);
    ExpandedFile(limits, members);
    InOrderIs(rules, limits, members, seen, expanded);
    InOrderIs(rules, limits, members[1..], seen + {Folded(rules, limits, m)}, expanded + Total(m.chunks));
  }

  lemma InOrderIs(rules: Rules, limits: Limits, members: seq<Member>, seen: set<string>, expanded: nat)
    ensures InOrder(rules, limits, members, seen, expanded) <==>
              && AllOk(rules, limits, members) && NoCollision(rules, limits, members, seen)
              && expanded + Expanded(limits, members) <= limits.maxExpanded
  {
    hide AllOk, NoCollision, Expanded;
  }

  lemma ExpandedFile(limits: Limits, members: seq<Member>)
    requires members != [] && IsFile(members[0], limits)
    ensures Expanded(limits, members) == Total(members[0].chunks) + Expanded(limits, members[1..])
  {
    hide IsFile, Total;
  }

  lemma InOrderOther(rules: Rules, limits: Limits, members: seq<Member>, seen: set<string>, expanded: nat)
    requires members != [] && !IsFile(members[0], limits)
    ensures InOrder(rules, limits, members, seen, expanded) <==>
              MemberOk(rules, limits, members[0]) && InOrder(rules, limits, members[1..], seen, expanded)
  {
    SplitOk(rules, limits, members);
    SplitCollision(rules, limits, members, seen);
    hide AllOk, NoCollision, MemberOk, IsFile, Total;
  }

  /** One turn of the loop on a file. */
  lemma RunFile(rules: Rules, limits: Limits, members: seq<Member>, seen: set<string>, expanded: nat)
    requires members != [] && IsFile(members[0], limits)
    ensures var m := members[0]; var path := PathOf(m, limits);
            var read := Stream(m.chunks, 0, FileLimit(path, limits), limits.maxExpanded - expanded);
            var whole := ValidateFrom(rules, limits, members, seen, expanded);
            if !FileAccepted(rules, limits, m, path, seen, expanded) then whole.Invalid?
            else
              var rest := ValidateFrom(rules, limits, members[1..], seen + {rules.collision(path)}, expanded + read.size);
              whole == if path == APP_MANIFEST then rest else Listed([Asset(path, read.size, m.data)], rest)
  {
    hide NormalizePath, Stream, Constraints, MustParse, FileLimit;
  }

  lemma RunFileMeans(rules: Rules, limits: Limits, members: seq<Member>, seen: set<string>, expanded: nat)
    requires members != [] && IsFile(members[0], limits) && expanded <= limits.maxExpanded
    ensures var m := members[0];
            var whole := ValidateFrom(rules, limits, members, seen, expanded);
            if !Fits(rules, limits, m, seen, expanded) then whole.Invalid?
            else
              var rest := ValidateFrom(
                rules, limits, members[1..], seen + {Folded(rules, limits, m)}, expanded + Total(m.chunks));
              whole == if PathOf(m, limits) == APP_MANIFEST then rest
                       else Listed([Asset(PathOf(m, limits), Total(m.chunks), m.data)], rest)
  {
    hide *;
    var m := members[0];
    RunFile(rules, limits, members, seen, expanded);
    FileAcceptedMeans(rules, limits, m, seen, expanded);
    FoldedIs(rules, limits, m);
    FitsIs(rules, limits, m, seen, expanded);
    FileAcceptedReads(rules, limits, m, seen, expanded);
  }

  lemma FoldedIs(rules: Rules, limits: Limits, m: Member)
    requires IsFile(m, limits)
    ensures Folded(rules, limits, m) == rules.collision(PathOf(m, limits))
  {
    hide IsFile, PathOf;
  }

  lemma FitsIs(rules: Rules, limits: Limits, m: Member, seen: set<string>, expanded: nat)
    requires IsFile(m, limits)
    ensures Fits(rules, limits, m, seen, expanded) <==>
              && MemberOk(rules, limits, m) && Folded(rules, limits, m) !in seen
              && expanded + Total(m.chunks) <= limits.maxExpanded
  {
    hide IsFile, PathOf, MemberOk, Total, Folded;
  }

  lemma FileAcceptedReads(rules: Rules, limits: Limits, m: Member, seen: set<string>, expanded: nat)
    requires IsFile(m, limits) && expanded <= limits.maxExpanded
    ensures FileAccepted(rules, limits, m, PathOf(m, limits), seen, expanded) ==>
              Stream(m.chunks, 0, FileLimit(PathOf(m, limits), limits), limits.maxExpanded - expanded) == Read(Total(m.chunks))
  {
    var path := PathOf(m, limits);
    StreamMeansTotal(m.chunks, 0, FileLimit(path, limits), limits.maxExpanded - expanded);
    hide NormalizePath, Stream, Constraints, MustParse, FileLimit, Total;
  }

  /** One turn of the loop on a member that is not a file. */
  lemma RunOther(rules: Rules, limits: Limits, members: seq<Member>, seen: set<string>, expanded: nat)
    requires members != [] && !IsFile(members[0], limits)
    ensures !MemberOk(rules, limits, members[0]) ==> ValidateFrom(rules, limits, members, seen, expanded).Invalid?
    ensures MemberOk(rules, limits, members[0]) ==>
              ValidateFrom(rules, limits, members, seen, expanded) == ValidateFrom(rules, limits, members[1..], seen, expanded)
  {
    hide NormalizePath, Stream, Constraints, MustParse, FileLimit, Total;
  }

  lemma AssetsFile(limits: Limits, members: seq<Member>)
    requires members != [] && IsFile(members[0], limits)
    ensures Assets(limits, members) ==
              if PathOf(members[0], limits) == APP_MANIFEST then Assets(limits, members[1..])
              else [Asset(PathOf(members[0], limits), Total(members[0].chunks), members[0].data)] + Assets(limits, members[1..])
  {
    hide IsFile, PathOf, Total;
  }

  lemma AssetsOther(limits: Limits, members: seq<Member>)
    requires members != [] && !IsFile(members[0], limits)
    ensures Assets(limits, members) == Assets(limits, members[1..])
  {
    hide IsFile;
  }

  /** What is claimed of the loop from one point on. */
  ghost predicate Declarative(rules: Rules, limits: Limits, members: seq<Member>, seen: set<string>, expanded: nat) {
    var whole := ValidateFrom(rules, limits, members, seen, expanded);
    && (whole.Valid? <==> InOrder(rules, limits, members, seen, expanded))
    && (whole.Valid? ==> whole.files == Assets(limits, members))
  }

  lemma NothingLeft(rules: Rules, limits: Limits, seen: set<string>, expanded: nat)
    requires expanded <= limits.maxExpanded
    ensures Declarative(rules, limits, [], seen, expanded)
  {
    hide IsFile;
  }

  lemma TurnOnFile(rules: Rules, limits: Limits, members: seq<Member>, seen: set<string>, expanded: nat)
    requires members != [] && IsFile(members[0], limits) && expanded <= limits.maxExpanded
    requires Fits(rules, limits, members[0], seen, expanded) ==>
               Declarative(rules, limits, members[1..], seen + {Folded(rules, limits, members[0])}, expanded + Total(members[0].chunks))
    ensures Declarative(rules, limits, members, seen, expanded)
  {
    hide ValidateFrom, InOrder, Fits, Folded, Total, Assets, IsFile, PathOf, Listed, APP_MANIFEST;
    var m := members[0];
    var rest := ValidateFrom(rules, limits, members[1..], seen + {Folded(rules, limits, m)}, expanded + Total(m.chunks));
    InOrderFile(rules, limits, members, seen, expanded);
    RunFileMeans(rules, limits, members, seen, expanded);
    AssetsFile(limits, members);
    ListedIs([Asset(PathOf(m, limits), Total(m.chunks), m.data)], rest);
  }

  lemma TurnOnOther(rules: Rules, limits: Limits, members: seq<Member>, seen: set<string>, expanded: nat)
    requires members != [] && !IsFile(members[0], limits) && expanded <= limits.maxExpanded
    requires Declarative(rules, limits, members[1..], seen, expanded)
    ensures Declarative(rules, limits, members, seen, expanded)
  {
    InOrderOther(rules, limits, members, seen, expanded);
    RunOther(rules, limits, members, seen, expanded);
    AssetsOther(limits, members);
    hide ValidateFrom, InOrder, MemberOk, Assets, IsFile;
  }

  lemma FitsBudget(rules: Rules, limits: Limits, m: Member, seen: set<string>, expanded: nat)
    requires IsFile(m, limits) && Fits(rules, limits, m, seen, expanded)
    ensures expanded + Total(m.chunks) <= limits.maxExpanded
  {
    FitsIs(rules, limits, m, seen, expanded);
    hide *;
  }

  lemma ListedIs(done: seq<Asset>, rest: Verdict)
    ensures Listed(done, rest).Valid? <==> rest.Valid?
    ensures rest.Valid? ==> Listed(done, rest).files == done + rest.files
  {
  }

  /** Streaming through an archive accepts it exactly when it is in order as a whole, and lists exactly its assets. */
  lemma {:induction false} StreamingIsDeclarative(rules: Rules, limits: Limits, members: seq<Member>, seen: set<string>, expanded: nat)
    requires expanded <= limits.maxExpanded
    ensures Declarative(rules, limits, members, seen, expanded)
    decreases |members|
  {
    hide *;
    if members == [] {
      NothingLeft(rules, limits, seen, expanded);
    } else if IsFile(members[0], limits) {
      var m := members[0];
      if Fits(rules, limits, m, seen, expanded) {
        FitsBudget(rules, limits, m, seen, expanded);
        StreamingIsDeclarative(rules, limits, members[1..], seen + {Folded(rules, limits, m)}, expanded + Total(m.chunks));
      }
      TurnOnFile(rules, limits, members, seen, expanded);
    } else {
      StreamingIsDeclarative(rules, limits, members[1..], seen, expanded);
      TurnOnOther(rules, limits, members, seen, expanded);
    }
  }

  /** A bundle is accepted exactly when it is not too long, in order as a whole, within its budget, and has a root page. */
  lemma AcceptedIff(rules: Rules, limits: Limits, members: seq<Member>)
    ensures Validate(rules, limits, members) == Valid(Assets(limits, members)) <==>
              && |members| <= limits.maxFiles
              && AllOk(rules, limits, members) && NoCollision(rules, limits, members, {})
              && Expanded(limits, members) <= limits.maxExpanded
              && HasIndex(Assets(limits, members))
    ensures Validate(rules, limits, members).Valid? ==> Validate(rules, limits, members) == Valid(Assets(limits, members))
  {
    StreamingIsDeclarative(rules, limits, members, {}, 0);
    hide AllOk, NoCollision, ValidateFrom, Assets, Expanded, HasIndex;
  }

  // ---------------------------------------------------------------- extraction by name

  /** Extraction opens each listed path by name; a ZIP archive knows its members by their own names. */
  predicate Extractable(members: seq<Member>, files: seq<Asset>) {
    forall i :: 0 <= i < |files| ==> exists j :: 0 <= j < |members| && members[j].filename == files[i].path
  }

  predicate Canonical(m: Member, limits: Limits) {
    IsFile(m, limits) && PathOf(m, limits) != APP_MANIFEST ==> m.filename == PathOf(m, limits)
  }

  /** If every file is named by its normalized path, what is listed can be extracted. */
  lemma {:induction false} CanonicalExtracts(limits: Limits, members: seq<Member>)
    requires forall j :: 0 <= j < |members| ==> Canonical(members[j], limits)
    ensures Extractable(members, Assets(limits, members))
    decreases |members|
  {
    hide NormalizePath;
    if members != [] {
      var rest := members[1..];
      assert forall j :: 0 <= j < |rest| ==> rest[j] == members[j + 1];
      CanonicalExtracts(limits, rest);
      var files := Assets(limits, members);
      forall i | 0 <= i < |files| ensures exists j :: 0 <= j < |members| && members[j].filename == files[i].path {
        var skip := |files| - |Assets(limits, rest)|;
        if i >= skip {
          assert files[i] == Assets(limits, rest)[i - skip];
          var j :| 0 <= j < |rest| && rest[j].filename == Assets(limits, rest)[i - skip].path;
          assert members[j + 1].filename == files[i].path;
        } else {
          assert members[0].filename == files[i].path;
        }
      }
    }
  }

  lemma {:induction false} PartsAvoid(s: string, c: char)
    requires c !in s
    ensures forall i :: 0 <= i < |Parts(s)| ==> c !in Parts(s)[i]
    decreases |s|
  {
    var h := Head(s);
    assert forall i :: 0 <= i < |h| ==> h[i] == s[i];
    if |h| < |s| { PartsAvoid(s[|h| + 1..], c); }
  }

  lemma {:induction false} JoinAvoids(parts: seq<string>, c: char)
    requires c != '/' && forall i :: 0 <= i < |parts| ==> c !in parts[i]
    ensures c !in Join(parts)
    decreases |parts|
  {
    if parts != [] { JoinAvoids(parts[1..], c); }
  }

  /** A joined path neither starts nor ends with a slash. */
  lemma {:induction false} JoinEnds(parts: seq<string>)
    requires parts != [] && Components(parts)
    ensures Join(parts) != "" && Join(parts)[0] != '/' && Join(parts)[|Join(parts)| - 1] != '/'
    decreases |parts|
  {
    if |parts| > 1 { JoinEnds(parts[1..]); }
  }

  /** Normalizing a path a second time changes nothing. */
  lemma NormalizeIsIdempotent(filename: string, limits: Limits)
    requires NormalizePath(filename, limits).Path?
    ensures NormalizePath(NormalizePath(filename, limits).path, limits) == NormalizePath(filename, limits)
  {
    var parts := Parts(filename);
    PartsAvoid(filename, '\0');
    PartsAvoid(filename, '\\');
    JoinAvoids(parts, '\0');
    JoinAvoids(parts, '\\');
    if parts != [] {
      AcceptedIsNormal(filename);
      PartsOfJoin(parts);
      JoinEnds(parts);
    }
    hide Parts, Join;
  }

  /** Every file but the app manifest is listed. */
  lemma {:induction false} FilesAreListed(limits: Limits, members: seq<Member>, j: nat)
    requires j < |members| && IsFile(members[j], limits) && PathOf(members[j], limits) != APP_MANIFEST
    ensures exists i :: 0 <= i < |Assets(limits, members)| && Assets(limits, members)[i].path == PathOf(members[j], limits)
    decreases |members|
  {
    hide IsFile, PathOf, Total;
    var files, rest := Assets(limits, members), Assets(limits, members[1..]);
    if j > 0 {
      assert members[1..][j - 1] == members[j];
      FilesAreListed(limits, members[1..], j - 1);
      var i :| 0 <= i < |rest| && rest[i].path == PathOf(members[j], limits);
      assert files[i + (|files| - |rest|)] == rest[i];
    } else {
      assert files[0].path == PathOf(members[0], limits);
    }
  }

  ghost predicate AllCanonical(limits: Limits, members: seq<Member>) {
    forall j :: 0 <= j < |members| ==> Canonical(members[j], limits)
  }

  /**
    The validator says nothing about how a member spells its path, and extraction opens each path by the normalized
    spelling. An archive it accepts can be extracted exactly when every file it lists is spelled in normalized form.
   */
  lemma ExtractableIffCanonical(rules: Rules, limits: Limits, members: seq<Member>)
    requires Validate(rules, limits, members).Valid?
    ensures Extractable(members, Validate(rules, limits, members).files) <==> AllCanonical(limits, members)
  {
    AcceptedIff(rules, limits, members);
    hide Validate, Total, MemberOk, NormalizePath;
    if AllCanonical(limits, members) { CanonicalExtracts(limits, members); }
    if Extractable(members, Assets(limits, members)) {
      forall j | 0 <= j < |members| ensures Canonical(members[j], limits) {
        if IsFile(members[j], limits) && PathOf(members[j], limits) != APP_MANIFEST {
          SpelledAsListed(rules, limits, members, j);
        }
      }
    }
  }

  lemma SpelledAsListed(rules: Rules, limits: Limits, members: seq<Member>, j: nat)
    requires j < |members| && IsFile(members[j], limits) && PathOf(members[j], limits) != APP_MANIFEST
    requires Extractable(members, Assets(limits, members)) && NoCollision(rules, limits, members, {})
    ensures members[j].filename == PathOf(members[j], limits)
  {
    var path := PathOf(members[j], limits);
    FilesAreListed(limits, members, j);
    var i :| 0 <= i < |Assets(limits, members)| && Assets(limits, members)[i].path == path;
    var k :| 0 <= k < |members| && members[k].filename == path;
    NormalizeIsIdempotent(members[j].filename, limits);
    assert PathOf(members[k], limits) == path;
    hide NormalizePath, Assets, Extractable;
    assert k == j;
  }

  /** A leading dot component changes nothing about where a path leads, so such an archive exists. */
  lemma DotIsDropped(path: string)
    requires path != "" && path[0] != '/'
    ensures Parts("./" + path) == Parts(path)
  {
    var dotted := "./" + path;
    assert dotted == "." + "/" + path;
    HeadOf(".", path);
    assert dotted[2..] == path;
  }

  lemma DottedPath(path: string, limits: Limits)
    requires 1 <= limits.maxDepth && Component(path) && !Reserved(path) && '\0' !in path && '\\' !in path
    ensures NormalizePath("./" + path, limits) == Path(path)
  {
    var dotted := "./" + path;
    assert path[|path| - 1] in path && dotted[|dotted| - 1] == path[|path| - 1] && path[0] in path;
    DotIsDropped(path);
    PartsOfJoin([path]);
    assert Parts(dotted) == [path] && Join([path]) == path;
    DottedChars(path, '\0');
    DottedChars(path, '\\');
    hide Parts, Join, Reserved;
  }

  lemma DottedChars(path: string, c: char)
    requires c !in path && c != '.' && c != '/'
    ensures c !in "./" + path
  {
  }

  lemma IndexIsPlain()
    ensures Component(INDEX) && !Reserved(INDEX) && '\0' !in INDEX && '\\' !in INDEX
    ensures INDEX != APP_MANIFEST && |INDEX| == 10
  {
    assert INDEX[0] == 'i' && APP_MANIFEST[0] == 'o' && |INDEX| == 10;
  }

  lemma OneFile(limits: Limits, m: Member)
    requires m.chunks == [1] && IsFile(m, limits) && PathOf(m, limits) != APP_MANIFEST
    ensures Assets(limits, [m]) == [Asset(PathOf(m, limits), 1, m.data)] && Expanded(limits, [m]) == 1 && Total(m.chunks) == 1
  {
    hide IsFile, PathOf;
    assert [m][1..] == [] && [1][1..] == [];
    assert Total([]) == 0 && Assets(limits, []) == [];
  }

  /** One page spelled with a leading dot: accepted, listed as `index.html`, and not found under that name. */
  lemma AcceptedButNotExtractable(rules: Rules, limits: Limits, m: Member)
    requires 1 <= limits.maxFiles && 1 <= limits.maxDepth && 1 <= limits.maxFile && 1 <= limits.maxExpanded
    requires !rules.nested(INDEX) && !rules.executable(INDEX) && rules.folded(INDEX) == INDEX
    requires m.filename == "./" + INDEX && m.declared == 1 && m.chunks == [1] && m.regular && !m.magic && m.parsed
    ensures Validate(rules, limits, [m]) == Valid([Asset(INDEX, 1, m.data)])
    ensures !Extractable([m], Validate(rules, limits, [m]).files)
  {
    IndexIsPlain();
    var index := INDEX;
    DottedPath(index, limits);
    assert IsFile(m, limits) && PathOf(m, limits) == index;
    OneFile(limits, m);
    assert MemberOk(rules, limits, m);
    AcceptedIff(rules, limits, [m]);
    hide NormalizePath, Validate, MemberOk, Assets, Expanded, Total;
    assert Assets(limits, [m])[0].path == index;
  }

  // ---------------------------------------------------------------- what is listed

  /** No two assets have the same path, so the listed files form a dictionary. */
  lemma {:induction false} ListedOnce(rules: Rules, limits: Limits, members: seq<Member>, seen: set<string>, i: nat, j: nat)
    requires NoCollision(rules, limits, members, seen) && i < j < |Assets(limits, members)|
    ensures Assets(limits, members)[i].path != Assets(limits, members)[j].path
    decreases |members|
  {
    assert members != [];
    hide *;
    var rest := members[1..];
    SplitCollision(rules, limits, members, seen);
    if IsFile(members[0], limits) {
      AssetsFile(limits, members);
      FoldedIs(rules, limits, members[0]);
      var more := seen + {Folded(rules, limits, members[0])};
      if PathOf(members[0], limits) == APP_MANIFEST {
        ListedOnce(rules, limits, rest, more, i, j);
      } else if i > 0 {
        ListedOnce(rules, limits, rest, more, i - 1, j - 1);
      } else {
        ListedIsUnseen(rules, limits, rest, more, j - 1);
      }
    } else {
      AssetsOther(limits, members);
      ListedOnce(rules, limits, rest, seen, i, j);
    }
  }

  lemma {:induction false} ListedIsUnseen(rules: Rules, limits: Limits, members: seq<Member>, seen: set<string>, i: nat)
    requires NoCollision(rules, limits, members, seen) && i < |Assets(limits, members)|
    ensures rules.collision(Assets(limits, members)[i].path) !in seen
    decreases |members|
  {
    assert members != [];
    hide *;
    SplitCollision(rules, limits, members, seen);
    if IsFile(members[0], limits) {
      AssetsFile(limits, members);
      FoldedIs(rules, limits, members[0]);
      var more := seen + {Folded(rules, limits, members[0])};
      if PathOf(members[0], limits) == APP_MANIFEST {
        ListedIsUnseen(rules, limits, members[1..], more, i);
      } else if i > 0 {
        ListedIsUnseen(rules, limits, members[1..], more, i - 1);
      }
    } else {
      AssetsOther(limits, members);
      ListedIsUnseen(rules, limits, members[1..], seen, i);
    }
  }

  const BUNDLE_MANIFEST := "__manifest__.json"

  lemma PlainPath(path: string, limits: Limits)
    requires 1 <= limits.maxDepth && Component(path) && !Reserved(path) && '\0' !in path && '\\' !in path
    ensures NormalizePath(path, limits) == Path(path)
  {
    assert path[|path| - 1] in path && path[0] in path;
    PartsOfJoin([path]);
    assert Join([path]) == path;
    hide Parts, Join, Reserved;
  }

  lemma ManifestIsPlain()
    ensures Component(BUNDLE_MANIFEST) && !Reserved(BUNDLE_MANIFEST) && '\0' !in BUNDLE_MANIFEST && '\\' !in BUNDLE_MANIFEST
    ensures BUNDLE_MANIFEST != APP_MANIFEST && BUNDLE_MANIFEST != INDEX
  {
    assert BUNDLE_MANIFEST[2] == 'm' && APP_MANIFEST[0] == 'o' && INDEX[0] == 'i' && BUNDLE_MANIFEST[0] == '_';
  }

  /** A member of one byte that offends no rule. */
  predicate Plain(rules: Rules, limits: Limits, m: Member, path: string) {
    && m == Member(path, 1, [1], true, false, true, m.data)
    && NormalizePath(path, limits) == Path(path) && path != APP_MANIFEST
    && !rules.nested(path) && !rules.executable(path) && rules.folded(path) == path
  }

  lemma PlainIsOk(rules: Rules, limits: Limits, m: Member, path: string)
    requires 1 <= limits.maxFile && Plain(rules, limits, m, path)
    ensures MemberOk(rules, limits, m) && IsFile(m, limits) && PathOf(m, limits) == path
    ensures Folded(rules, limits, m) == rules.collision(path)
  {
    hide NormalizePath;
    assert IsFile(m, limits);
    OneFile(limits, m);
    hide Total;
  }

  lemma TwoFiles(limits: Limits, page: Member, m: Member)
    requires page.chunks == [1] && IsFile(page, limits) && PathOf(page, limits) != APP_MANIFEST
    requires m.chunks == [1] && IsFile(m, limits) && PathOf(m, limits) != APP_MANIFEST
    ensures Assets(limits, [page, m]) == [Asset(PathOf(page, limits), 1, page.data), Asset(PathOf(m, limits), 1, m.data)]
    ensures Expanded(limits, [page, m]) == 2
  {
    hide *;
    OneFile(limits, page);
    OneFile(limits, m);
    assert [page, m][1..] == [m];
    AssetsFile(limits, [page, m]);
    ExpandedFile(limits, [page, m]);
  }

  lemma TwoApart(rules: Rules, limits: Limits, page: Member, m: Member)
    requires IsFile(page, limits) && IsFile(m, limits) && Folded(rules, limits, page) != Folded(rules, limits, m)
    ensures NoCollision(rules, limits, [page, m], {})
  {
    hide NormalizePath;
  }

  /** The name of the bundle's own manifest is reserved nowhere: a page and a member of that name are accepted and listed. */
  lemma ManifestNameIsAccepted(rules: Rules, limits: Limits, page: Member, m: Member)
    requires 2 <= limits.maxFiles && 1 <= limits.maxDepth && 1 <= limits.maxFile && 2 <= limits.maxExpanded
    requires Plain(rules, limits, page, INDEX)
    requires m == Member(BUNDLE_MANIFEST, 1, [1], true, false, true, m.data)
    requires !rules.nested(BUNDLE_MANIFEST) && !rules.executable(BUNDLE_MANIFEST) && rules.folded(BUNDLE_MANIFEST) == BUNDLE_MANIFEST
    requires rules.collision(INDEX) != rules.collision(BUNDLE_MANIFEST)
    ensures Validate(rules, limits, [page, m]) == Valid([Asset(INDEX, 1, page.data), Asset(BUNDLE_MANIFEST, 1, m.data)])
  {
    var index, name := INDEX, BUNDLE_MANIFEST;
    ManifestIsPlain();
    PlainPath(name, limits);
    hide NormalizePath, Validate;
    TwoPlain(rules, limits, page, index, m, name);
  }

  lemma TwoPlain(rules: Rules, limits: Limits, page: Member, index: string, m: Member, name: string)
    requires 2 <= limits.maxFiles && 1 <= limits.maxFile && 2 <= limits.maxExpanded && index == INDEX
    requires Plain(rules, limits, page, index) && Plain(rules, limits, m, name) && rules.collision(index) != rules.collision(name)
    ensures Validate(rules, limits, [page, m]) == Valid([Asset(index, 1, page.data), Asset(name, 1, m.data)])
  {
    hide NormalizePath, Validate, Assets, Expanded, NoCollision;
    PlainIsOk(rules, limits, page, index);
    PlainIsOk(rules, limits, m, name);
    assert page.chunks == [1] && m.chunks == [1] && index != APP_MANIFEST && name != APP_MANIFEST;
    hide Plain, MemberOk, IsFile, PathOf, Folded;
    TwoFiles(limits, page, m);
    TwoApart(rules, limits, page, m);
    AcceptedIff(rules, limits, [page, m]);
    assert Assets(limits, [page, m])[0].path == index;
  }

  // ---------------------------------------------------------------- the loops

  /** `_hash_member`: the sizes as the source counts them. */
  method HashMember(chunks: seq<nat>, maxFile: nat, budget: int) returns (read: Read)
    ensures read == Stream(chunks, 0, maxFile, budget)
  {
    var actual: nat := 0;
    var i := 0;
    while i < |chunks|
      invariant 0 <= i <= |chunks|
      invariant Stream(chunks, 0, maxFile, budget) == Stream(chunks[i..], actual, maxFile, budget)
    {
      assert chunks[i..][1..] == chunks[i + 1..];
      actual := actual + chunks[i];
      if actual > maxFile { return Stopped(FileTooLarge); }
      if actual > budget { return Stopped(ExpandedTooLarge); }
      i := i + 1;
    }
    read := Read(actual);
  }

  /** The tests on one member of the loop below, in order. */
  method Examine(rules: Rules, limits: Limits, m: Member, path: string, seen: set<string>, expanded: nat)
    returns (objection: Option<Code>, read: Read)
    ensures objection == Objection(rules, limits, m, path, seen, expanded)
    ensures objection.None? ==> read.Read? && read == Stream(m.chunks, 0, FileLimit(path, limits), limits.maxExpanded - expanded)
  {
    hide Stream, Constraints, MustParse, FileLimit;
    read := Read(0);
    if !m.regular { return Some(SpecialFile), read; }
    if rules.collision(path) in seen { return Some(Collision), read; }
    objection := Constraints(rules, limits, m, path);
    if objection.Some? { return; }
    read := HashMember(m.chunks, FileLimit(path, limits), limits.maxExpanded - expanded);
    if read.Stopped? { return Some(read.code), read; }
    if rules.executable(path) || m.magic { return Some(Executable), read; }
    if MustParse(rules, path) && !m.parsed { return Some(Unparsable), read; }
  }

  /** `_validate_zip`: one pass, with the set of folded paths and the running total. */
  method ValidateZip(rules: Rules, limits: Limits, members: seq<Member>) returns (verdict: Verdict)
    ensures verdict == Validate(rules, limits, members)
  {
    if |members| > limits.maxFiles { return Invalid(TooManyFiles); }
    var files: seq<Asset> := [];
    var seen: set<string> := {};
    var expanded: nat := 0;
    hide ValidateFrom, NormalizePath, Stream, FileLimit, Objection, OneAsset, Whole;
    WholeAtStart(rules, limits, members);
    ghost var whole := ValidateFrom(rules, limits, members, {}, 0);
    var i := 0;
    while i < |members|
      invariant 0 <= i <= |members|
      invariant whole == Whole(rules, limits, members, i, seen, expanded, files)
    {
      var m := members[i];
      NextMember(rules, limits, members, i, seen, expanded, files);
      var normalized := NormalizePath(m.filename, limits);
      if normalized.Rejected? { return Invalid(normalized.code); }
      if normalized.Path? {
        var path := normalized.path;
        var objection, read := Examine(rules, limits, m, path, seen, expanded);
        if objection.Some? { return Invalid(objection.value); }
        NextFile(rules, limits, members, i, seen, expanded, files, path, read.size);
        seen := seen + {rules.collision(path)};
        expanded := expanded + read.size;
        files := files + OneAsset(path, read.size, m.data);
      }
      i := i + 1;
    }
    WholeAtEnd(rules, limits, members, seen, expanded, files);
    verdict := if HasIndex(files) then Valid(files) else Invalid(IndexMissing);
  }

  lemma ListedAppend(done: seq<Asset>, next: seq<Asset>, rest: Verdict)
    ensures Listed(done, Listed(next, rest)) == Listed(done + next, rest)
  {
    if rest.Valid? { assert done + (next + rest.files) == (done + next) + rest.files; }
  }

  lemma ListedNothing(rest: Verdict)
    ensures Listed([], rest) == rest
  {
    if rest.Valid? { assert [] + rest.files == rest.files; }
  }

  /** The manifest of the app itself is checked and not listed. */
  function OneAsset(path: string, size: nat, data: nat): seq<Asset> {
    if path == APP_MANIFEST then [] else [Asset(path, size, data)]
  }

  /** The first test a member at a normalized path fails. */
  function Objection(rules: Rules, limits: Limits, m: Member, path: string, seen: set<string>, expanded: nat): Option<Code> {
    if !m.regular then Some(SpecialFile)
    else if rules.collision(path) in seen then Some(Collision)
    else if Constraints(rules, limits, m, path).Some? then Constraints(rules, limits, m, path)
    else match Stream(m.chunks, 0, FileLimit(path, limits), limits.maxExpanded - expanded)
      case Stopped(code) => Some(code)
      case Read(_) =>
        if rules.executable(path) || m.magic then Some(Executable)
        else if MustParse(rules, path) && !m.parsed then Some(Unparsable)
        else None
  }

  lemma FirstMember(rules: Rules, limits: Limits, members: seq<Member>, seen: set<string>, expanded: nat)
    requires members != []
    ensures var m, whole := members[0], ValidateFrom(rules, limits, members, seen, expanded);
            match NormalizePath(m.filename, limits)
            case Rejected(code) => whole == Invalid(code)
            case Directory => whole == ValidateFrom(rules, limits, members[1..], seen, expanded)
            case Path(path) =>
              var objection := Objection(rules, limits, m, path, seen, expanded);
              if objection.Some? then whole == Invalid(objection.value)
              else
                var read := Stream(m.chunks, 0, FileLimit(path, limits), limits.maxExpanded - expanded);
                && read.Read?
                && whole == Listed(OneAsset(path, read.size, m.data),
                     ValidateFrom(rules, limits, members[1..], seen + {rules.collision(path)}, expanded + read.size))
  {
    hide NormalizePath, Stream, Constraints, MustParse, FileLimit;
    forall files: seq<Asset> ensures [] + files == files { }
  }

  /** The verdict on everything, at the loop's i-th turn. */
  ghost function Whole(rules: Rules, limits: Limits, members: seq<Member>, i: nat, seen: set<string>, expanded: nat, files: seq<Asset>): Verdict
    requires i <= |members|
  {
    Listed(files, ValidateFrom(rules, limits, members[i..], seen, expanded))
  }

  lemma WholeAtStart(rules: Rules, limits: Limits, members: seq<Member>)
    ensures Whole(rules, limits, members, 0, {}, 0, []) == ValidateFrom(rules, limits, members, {}, 0)
  {
    assert members[0..] == members;
    ListedNothing(ValidateFrom(rules, limits, members, {}, 0));
    hide ValidateFrom;
  }

  lemma WholeAtEnd(rules: Rules, limits: Limits, members: seq<Member>, seen: set<string>, expanded: nat, files: seq<Asset>)
    ensures Whole(rules, limits, members, |members|, seen, expanded, files) == Valid(files)
  {
    assert members[|members|..] == [] && files + [] == files;
  }

  /** One turn of the loop. */
  lemma NextMember(rules: Rules, limits: Limits, members: seq<Member>, i: nat, seen: set<string>, expanded: nat, files: seq<Asset>)
    requires i < |members|
    ensures var whole := Whole(rules, limits, members, i, seen, expanded, files);
            var normalized := NormalizePath(members[i].filename, limits);
            && (normalized.Rejected? ==> whole == Invalid(normalized.code))
            && (normalized.Directory? ==> whole == Whole(rules, limits, members, i + 1, seen, expanded, files))
            && (normalized.Path? ==>
                  var objection := Objection(rules, limits, members[i], normalized.path, seen, expanded);
                  objection.Some? ==> whole == Invalid(objection.value))
  {
    hide NormalizePath, Stream, FileLimit, Objection, OneAsset, ValidateFrom;
    assert members[i..][0] == members[i] && members[i..][1..] == members[i + 1..];
    FirstMember(rules, limits, members[i..], seen, expanded);
  }

  lemma NextFile(rules: Rules, limits: Limits, members: seq<Member>, i: nat, seen: set<string>, expanded: nat,
                 files: seq<Asset>, path: string, size: nat)
    requires i < |members| && NormalizePath(members[i].filename, limits) == Path(path)
    requires Objection(rules, limits, members[i], path, seen, expanded).None?
    requires Stream(members[i].chunks, 0, FileLimit(path, limits), limits.maxExpanded - expanded) == Read(size)
    ensures Whole(rules, limits, members, i, seen, expanded, files) ==
            Whole(rules, limits, members, i + 1, seen + {rules.collision(path)}, expanded + size,
                  files + OneAsset(path, size, members[i].data))
  {
    hide NormalizePath, Stream, FileLimit, Objection, OneAsset, ValidateFrom;
    assert members[i..][0] == members[i] && members[i..][1..] == members[i + 1..];
    FirstMember(rules, limits, members[i..], seen, expanded);
    ListedAppend(files, OneAsset(path, size, members[i].data),
      ValidateFrom(rules, limits, members[i + 1..], seen + {rules.collision(path)}, expanded + size));
    hide Listed;
  }
}
