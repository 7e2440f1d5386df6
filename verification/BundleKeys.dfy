/**
  Object keys of the bundle stores (src/orcheo/hosted_apps/bundle_store.py): which paths are
  accepted, and which objects the deletion of a prefix removes. PostgreSQL deletes by an
  escaped LIKE pattern, the filesystem store by directory; both remove the same subtree.
 */
module BundleKeys {
  import opened Common

  // ---------------------------------------------------------------- escaping

  /** `str.replace` of one character. */
  function Replace(s: string, c: char, into: string): string {
    if s == "" then "" else (if s[0] == c then into else [s[0]]) + Replace(s[1..], c, into)
  }

  /** The three replacements of `delete_prefix`, one after the other. */
  function EscapeInTurn(s: string): string {
    Replace(Replace(Replace(s, '\\', "\\\\"), '%', "\\%"), '_', "\\_")
  }

  predicate Special(c: char) { c == '\\' || c == '%' || c == '_' }

  /** Escaping each special character once. */
  function Escape(s: string): string {
    if s == "" then "" else (if Special(s[0]) then ['\\', s[0]] else [s[0]]) + Escape(s[1..])
  }

  lemma {:induction false} ReplaceConcat(a: string, b: string, c: char, into: string)
    ensures Replace(a + b, c, into) == Replace(a, c, into) + Replace(b, c, into)
  {
    if a == "" {
      assert a + b == b;
    } else {
      assert (a + b)[1..] == a[1..] + b;
      ReplaceConcat(a[1..], b, c, into);
    }
  }

  /** Replacing in one or two given characters. */
  lemma ReplaceShort(x: char, y: char, c: char, into: string)
    ensures Replace([x], c, into) == if x == c then into else [x]
    ensures Replace([x, y], c, into) == (if x == c then into else [x]) + (if y == c then into else [y])
  {
    assert [x][1..] == "" && [x, y][1..] == [y];
    assert into + "" == into && [x] + "" == [x] && [y] + "" == [y];
  }

  lemma EscapeOneChar(c: char)
    ensures EscapeInTurn([c]) == if Special(c) then ['\\', c] else [c]
  {
    ReplaceShort(c, c, '\\', "\\\\");
    ReplaceShort(c, c, '%', "\\%");
    ReplaceShort('\\', '\\', '%', "\\%");
    ReplaceShort(c, c, '_', "\\_");
    ReplaceShort('\\', '\\', '_', "\\_");
    ReplaceShort('\\', '%', '_', "\\_");
  }

  /** The order of the replacements is right: together they escape every special character exactly once. */
  lemma {:induction false} EscapesAgree(s: string)
    ensures EscapeInTurn(s) == Escape(s)
  {
    if s != "" {
      var head, tail := [s[0]], s[1..];
      assert s == head + tail;
      ReplaceConcat(head, tail, '\\', "\\\\");
      var h1, t1 := Replace(head, '\\', "\\\\"), Replace(tail, '\\', "\\\\");
      ReplaceConcat(h1, t1, '%', "\\%");
      var h2, t2 := Replace(h1, '%', "\\%"), Replace(t1, '%', "\\%");
      ReplaceConcat(h2, t2, '_', "\\_");
      EscapeOneChar(s[0]);
      EscapesAgree(tail);
    }
  }

  // ---------------------------------------------------------------- LIKE

  /** `text LIKE pattern ESCAPE '\'`; `None` where PostgreSQL rejects a pattern that ends in the escape character. */
  function Like(pattern: string, text: string): Option<bool>
    decreases |pattern| + |text|
  {
    if pattern == "" then Some(text == "")
    else if pattern[0] == '\\' then
      if |pattern| == 1 then None
      else if text != "" && text[0] == pattern[1] then Like(pattern[2..], text[1..]) else Some(false)
    else if pattern[0] == '%' then
      if Like(pattern[1..], text) == Some(true) then Some(true)
      else if text != "" then Like(pattern, text[1..]) else Like(pattern[1..], text)
    else if text != "" && (pattern[0] == '_' || text[0] == pattern[0]) then Like(pattern[1..], text[1..])
    else Some(false)
  }

  /** A lone percent sign matches everything. */
  lemma PercentMatches(text: string)
    ensures Like("%", text) == Some(true)
    decreases |text|
  {
    assert "%"[1..] == "";
    if text != "" { PercentMatches(text[1..]); }
  }

  /** An escaped prefix matches itself and nothing else, and leaves the rest to the rest of the pattern. */
  lemma {:induction false} EscapedMatchesItself(prefix: string, rest: string, text: string)
    ensures prefix <= text ==> Like(Escape(prefix) + rest, text) == Like(rest, text[|prefix|..])
    ensures !(prefix <= text) ==> Like(Escape(prefix) + rest, text) == Some(false)
  {
    if prefix == "" {
      assert Escape(prefix) + rest == rest && text[0..] == text;
    } else {
      hide Like, Escape;
      var c, tail := prefix[0], prefix[1..];
      EscapedCharacter(prefix, rest, text);
      if text != "" && text[0] == c {
        EscapedMatchesItself(tail, rest, text[1..]);
        assert prefix <= text <==> tail <= text[1..];
        assert prefix <= text ==> text[1..][|tail|..] == text[|prefix|..];
      } else {
        assert !(prefix <= text);
      }
    }
  }

  /** The first character of an escaped prefix matches itself only. */
  lemma EscapedCharacter(prefix: string, rest: string, text: string)
    requires prefix != ""
    ensures Like(Escape(prefix) + rest, text) ==
            if text != "" && text[0] == prefix[0] then Like(Escape(prefix[1..]) + rest, text[1..]) else Some(false)
  {
    var c, tail := prefix[0], Escape(prefix[1..]) + rest;
    if Special(c) {
      assert Escape(prefix) + rest == ['\\', c] + tail;
      hide Escape;
      LikeEscaped(c, tail, text);
    } else {
      assert Escape(prefix) + rest == [c] + tail;
      hide Escape;
      LikeItself(c, tail, text);
    }
  }

  lemma LikeEscaped(c: char, tail: string, text: string)
    ensures Like(['\\', c] + tail, text) == if text != "" && text[0] == c then Like(tail, text[1..]) else Some(false)
  {
    assert (['\\', c] + tail)[2..] == tail;
  }

  lemma LikeItself(c: char, tail: string, text: string)
    requires !Special(c)
    ensures Like([c] + tail, text) == if text != "" && text[0] == c then Like(tail, text[1..]) else Some(false)
  {
    assert ([c] + tail)[1..] == tail;
  }

  /** The pattern PostgreSQL gets: the escaped prefix, a slash and a percent sign. */
  function DeletePattern(prefix: string): string { EscapeInTurn(prefix) + "/%" }

  lemma SlashAfter(prefix: string, key: string)
    ensures prefix + "/" <= key <==> prefix <= key && |key| > |prefix| && key[|prefix|] == '/'
  {
    if prefix <= key && |key| > |prefix| && key[|prefix|] == '/' {
      assert key[..|prefix| + 1] == prefix + "/";
    }
    assert prefix + "/" <= key ==> prefix <= prefix + "/" <= key;
  }

  /** It matches exactly the keys that begin with the prefix and a slash, for every prefix. */
  lemma PatternMatchesSubtree(prefix: string, key: string)
    ensures Like(DeletePattern(prefix), key) == Some(prefix + "/" <= key)
  {
    EscapesAgree(prefix);
    EscapedMatchesItself(prefix, "/%", key);
    SlashAfter(prefix, key);
    if prefix <= key {
      var rest := key[|prefix|..];
      assert "/%"[1..] == "%";
      if rest != "" { PercentMatches(rest[1..]); }
    }
  }

  /** Without the escape an underscore in a prefix would match a sibling's objects too. */
  lemma UnescapedMatchesSiblings(c: char, rest: string)
    ensures Like("_/%", [c] + "/" + rest) == Some(true)
    ensures Like(DeletePattern("_"), [c] + "/" + rest) == Some(c == '_')
  {
    var key := [c] + "/" + rest;
    assert key[1..] == "/" + rest && ("/" + rest)[1..] == rest;
    assert "_/%"[1..] == "/%" && "/%"[1..] == "%";
    PercentMatches(rest);
    PatternMatchesSubtree("_", key);
    SlashAfter("_", key);
  }

  // ---------------------------------------------------------------- paths

  /** One component of a normalized relative path. */
  predicate Component(part: string) { part != "" && '/' !in part && part != "." && part != ".." }

  ghost predicate Components(parts: seq<string>) {
    parts != [] && forall i :: 0 <= i < |parts| ==> Component(parts[i])
  }

  function Join(parts: seq<string>): string
    decreases |parts|
  {
    if parts == [] then "" else if |parts| == 1 then parts[0] else parts[0] + "/" + Join(parts[1..])
  }

  /** The text up to the first slash. */
  function Head(s: string): (h: string)
    ensures '/' !in h && |h| <= |s| && s[..|h|] == h && (|h| < |s| ==> s[|h|] == '/')
  {
    if s == "" || s[0] == '/' then "" else [s[0]] + Head(s[1..])
  }

  /** `PurePosixPath` drops empty components and single dots. */
  function Parts(s: string): seq<string>
    decreases |s|
  {
    var h := Head(s);
    var kept := if h == "" || h == "." then [] else [h];
    if |h| == |s| then kept else kept + Parts(s[|h| + 1..])
  }

  /** `_safe_relative`: the components, or `None` for a rejected path. */
  function SafeRelative(s: string): Option<seq<string>> {
    if (s != "" && s[0] == '/') || ".." in Parts(s) || Parts(s) == [] then None else Some(Parts(s))
  }

  lemma {:induction false} PartsAreClean(s: string)
    ensures forall i :: 0 <= i < |Parts(s)| ==> Parts(s)[i] != "" && '/' !in Parts(s)[i] && Parts(s)[i] != "."
    decreases |s|
  {
    var h := Head(s);
    if |h| < |s| { PartsAreClean(s[|h| + 1..]); }
  }

  /** Whatever is accepted is a normalized relative path: no empty part, no dots, nothing absolute. */
  lemma AcceptedIsNormal(s: string)
    requires SafeRelative(s).Some?
    ensures Components(SafeRelative(s).value)
  {
    PartsAreClean(s);
    forall i | 0 <= i < |Parts(s)| ensures Component(Parts(s)[i]) {
      assert Parts(s)[i] in Parts(s);
    }
  }

  lemma {:induction false} HeadOf(part: string, rest: string)
    requires '/' !in part
    ensures Head(part + "/" + rest) == part && Head(part) == part
  {
    if part != "" {
      assert forall c :: c in part[1..] ==> c in part;
      HeadOf(part[1..], rest);
      assert (part + "/" + rest)[1..] == part[1..] + "/" + rest && part[0] in part;
    } else {
      assert part + "/" + rest == "/" + rest;
    }
  }

  /** Normalized components survive the round trip through a key. */
  lemma {:induction false} PartsOfJoin(parts: seq<string>)
    requires Components(parts)
    ensures Parts(Join(parts)) == parts && SafeRelative(Join(parts)) == Some(parts)
    decreases |parts|
  {
    var first := parts[0];
    if |parts| == 1 {
      HeadOf(first, "");
      assert parts == [first];
    } else {
      var rest := Join(parts[1..]);
      HeadOf(first, rest);
      var s := first + "/" + rest;
      assert s[|first| + 1..] == rest;
      PartsOfJoin(parts[1..]);
      assert parts == [first] + parts[1..];
    }
    assert Join(parts)[0] == first[0] && first[0] in first;
    assert forall p :: p in parts ==> Component(p);
  }

  // ---------------------------------------------------------------- the deleted subtree

  /** The objects PostgreSQL deletes: the key itself and every key the pattern matches. */
  function DeletedBySql(keys: set<string>, prefix: string): set<string> {
    set k | k in keys && (k == prefix || Like(DeletePattern(prefix), k) == Some(true))
  }

  /** The files a recursive removal deletes: the path itself and everything below it. */
  function DeletedByWalk(files: set<seq<string>>, prefix: seq<string>): set<seq<string>> {
    set f | f in files && prefix <= f
  }

  /** Every component followed by a slash. */
  function Slashed(parts: seq<string>): string
    decreases |parts|
  {
    if parts == [] then "" else parts[0] + "/" + Slashed(parts[1..])
  }

  lemma {:induction false} JoinSlashed(parts: seq<string>)
    requires parts != []
    ensures Join(parts) + "/" == Slashed(parts)
    decreases |parts|
  {
    if |parts| == 1 {
      assert parts[1..] == [] && Slashed(parts) == parts[0] + "/" + "";
    } else {
      JoinSlashed(parts[1..]);
      assert parts[0] + "/" + (Join(parts[1..]) + "/") == (parts[0] + "/" + Join(parts[1..])) + "/";
    }
  }

  /** Two slash-free heads before slashes: one text starts the other exactly when the heads agree and so do the rests. */
  lemma HeadsDecide(x: string, y: string, a: string, b: string)
    requires '/' !in x && '/' !in y
    ensures x + "/" + a <= y + "/" + b <==> x == y && a <= b
  {
    if x + "/" + a <= y + "/" + b {
      var whole := y + "/" + b;
      HeadOf(y, b);
      assert whole == x + "/" + whole[|x| + 1..];
      HeadOf(x, whole[|x| + 1..]);
      LongerPrefix(x + "/", a, b);
    } else if x == y && a <= b {
      LongerPrefix(x + "/", a, b);
    }
  }

  lemma LongerPrefix(p: string, a: string, b: string)
    ensures p + a <= p + b <==> a <= b
  {
    if p + a <= p + b {
      assert b[..|a|] == (p + b)[|p|..|p| + |a|] == (p + a)[|p|..] == a;
    }
  }

  lemma {:induction false} BelowSlashed(a: seq<string>, b: seq<string>)
    requires (forall p :: p in a ==> '/' !in p) && (forall p :: p in b ==> '/' !in p)
    ensures a <= b <==> Slashed(a) <= Slashed(b)
    decreases |a|
  {
    if a != [] && b != [] {
      assert a[0] in a && b[0] in b;
      assert forall p :: p in a[1..] ==> p in a;
      assert forall p :: p in b[1..] ==> p in b;
      BelowSlashed(a[1..], b[1..]);
      HeadsDecide(a[0], b[0], Slashed(a[1..]), Slashed(b[1..]));
      assert a == [a[0]] + a[1..] && b == [b[0]] + b[1..];
      assert a <= b <==> a[0] == b[0] && a[1..] <= b[1..];
    }
  }

  /** One path is at or below another exactly when its key equals the other's or continues it after a slash. */
  lemma BelowInKeys(a: seq<string>, b: seq<string>)
    requires Components(a) && Components(b)
    ensures a <= b <==> Join(a) == Join(b) || Join(a) + "/" <= Join(b)
  {
    BelowSlashed(a, b);
    JoinSlashed(a);
    JoinSlashed(b);
    var x, y := Join(a), Join(b);
    if x + "/" <= y + "/" {
      if |x| < |y| {
        assert (y + "/")[..|x| + 1] == y[..|x| + 1];
      } else {
        assert x == (x + "/")[..|x|] && y == (y + "/")[..|y|];
      }
    }
    if x + "/" <= y {
      assert y <= y + "/";
    }
  }

  /** The keys under which the files are stored. */
  function KeysOf(files: set<seq<string>>): set<string> { set f | f in files :: Join(f) }

  /** Both stores delete the same files, and never a sibling. */
  lemma SameDeletion(files: set<seq<string>>, prefix: seq<string>, f: seq<string>)
    requires Components(prefix) && (forall g :: g in files ==> Components(g)) && f in files
    ensures Join(f) in DeletedBySql(KeysOf(files), Join(prefix)) <==> f in DeletedByWalk(files, prefix)
    ensures f in DeletedByWalk(files, prefix) <==> prefix <= f
  {
    PatternMatchesSubtree(Join(prefix), Join(f));
    BelowInKeys(prefix, f);
  }

  // ---------------------------------------------------------------- owned keys

  /** `_validate_owned_key` of the PostgreSQL store. */
  function OwnedKey(value: string, expectedRoot: Option<string>): Option<string> {
    match SafeRelative(value)
    case None => None
    case Some(parts) =>
      if parts == [] || (parts[0] != "staging" && parts[0] != "deployments") then None
      else if expectedRoot.Some? && parts[0] != expectedRoot.value then None
      else Some(Join(parts))
  }

  /** The key the deployment service asks to delete is owned, and stays as it is. */
  lemma DeploymentPrefixIsOwned(id: string)
    requires Component(id)
    ensures OwnedKey("deployments/" + id, None) == Some("deployments/" + id)
    ensures OwnedKey("deployments/" + id, Some("staging")) == None
  {
    var parts := ["deployments", id];
    assert Components(parts);
    assert parts[1..] == [id];
    assert Join(parts) == "deployments" + "/" + id == "deployments/" + id;
    PartsOfJoin(parts);
  }

  /** A key is owned exactly when it normalizes to a path under one of the two roots. */
  lemma OwnedKeysAreUnderRoots(value: string)
    ensures OwnedKey(value, None).Some? <==>
              SafeRelative(value).Some? && (SafeRelative(value).value[0] == "staging" || SafeRelative(value).value[0] == "deployments")
    ensures OwnedKey(value, None).Some? ==> SafeRelative(OwnedKey(value, None).value) == SafeRelative(value)
  {
    if SafeRelative(value).Some? {
      AcceptedIsNormal(value);
      PartsOfJoin(SafeRelative(value).value);
    }
  }

  // ---------------------------------------------------------------- the S3 store

  predicate Slashless(s: string) { s != "" && s[0] != '/' && s[|s| - 1] != '/' }

  /** `strip("/")` at one end after the other. */
  function StripLeft(s: string): string { if s != "" && s[0] == '/' then StripLeft(s[1..]) else s }

  function StripRight(s: string): string { if s != "" && s[|s| - 1] == '/' then StripRight(s[..|s| - 1]) else s }

  /** `_owned_key`: the key asked for must already start with the store's own prefix. */
  predicate OwnedByS3(storePrefix: string, value: string) {
    var candidate := StripRight(StripLeft(value));
    candidate == storePrefix || storePrefix + "/" <= candidate
  }

  /** The key `write_deployment_file` stores a file under. */
  function WrittenByS3(storePrefix: string, root: string, id: string, path: string): string {
    storePrefix + "/" + root + "/" + id + "/" + path
  }

  const DEPLOYMENTS := "deployments"

  /** In a text of two parts, only the first continues after a slash. */
  lemma OneSlash(root: string, id: string, prefix: string)
    requires '/' !in root && '/' !in id
    ensures prefix + "/" <= root + "/" + id <==> prefix == root
  {
    var key := root + "/" + id;
    if prefix + "/" <= key {
      var n := |prefix|;
      assert (prefix + "/")[n] == '/' && key[n] == '/';
      assert forall k :: 0 <= k < |root| ==> key[k] == root[k] && root[k] in root;
      assert forall k :: |root| < k < |key| ==> key[k] == id[k - |root| - 1] && id[k - |root| - 1] in id;
      assert prefix == (prefix + "/")[..n] == key[..n] == root;
    }
    if prefix == root { assert key[..|root| + 1] == root + "/"; }
  }

  lemma OwnedByS3Iff(storePrefix: string, root: string, id: string)
    requires Slashless(storePrefix) && root != "" && id != "" && '/' !in root && '/' !in id
    ensures OwnedByS3(storePrefix, root + "/" + id) <==> storePrefix == root || storePrefix == root + "/" + id
  {
    var key := root + "/" + id;
    assert key[0] == root[0] && root[0] in root && key[|key| - 1] == id[|id| - 1] && id[|id| - 1] in id;
    assert StripRight(StripLeft(key)) == key;
    OneSlash(root, id, storePrefix);
  }

  lemma RemovedByS3Iff(storePrefix: string, root: string, id: string, path: string)
    requires Slashless(storePrefix) && root != "" && id != "" && '/' !in root && '/' !in id
    ensures OwnedByS3(storePrefix, root + "/" + id) && root + "/" + id + "/" <= WrittenByS3(storePrefix, root, id, path) <==>
            storePrefix == root + "/" + id || (storePrefix == root && id == root)
  {
    OwnedByS3Iff(storePrefix, root, id);
    var key := root + "/" + id;
    var written := WrittenByS3(storePrefix, root, id, path);
    if storePrefix == key {
      assert written == (key + "/") + (root + "/" + id + "/" + path);
    }
    if storePrefix == root {
      var rest := root + "/" + id + "/" + path;
      assert written == (root + "/") + rest && key + "/" == (root + "/") + (id + "/");
      LongerPrefix(root + "/", id + "/", rest);
      HeadsDecide(id, root, "", id + "/" + path);
      assert id + "/" == id + "/" + "" && rest == root + "/" + (id + "/" + path);
    }
  }

  /**
    The S3 store adds its prefix to the keys it writes, but expects it in the prefix it deletes.
    Asked to discard a deployment it refuses, unless its own prefix is `deployments` or the very
    prefix asked for; and a file it wrote is removed only in the second case, ids being no
    root names.
   */
  lemma S3RefusesDiscard(storePrefix: string, id: string, path: string)
    requires Slashless(storePrefix) && id != "" && '/' !in id && id != DEPLOYMENTS
    ensures var asked := DEPLOYMENTS + "/" + id;
            && (OwnedByS3(storePrefix, asked) <==> storePrefix == DEPLOYMENTS || storePrefix == asked)
            && (OwnedByS3(storePrefix, asked) && asked + "/" <= WrittenByS3(storePrefix, DEPLOYMENTS, id, path) <==> storePrefix == asked)
  {
    var root := DEPLOYMENTS;
    assert '/' !in DEPLOYMENTS;
    OwnedByS3Iff(storePrefix, root, id);
    RemovedByS3Iff(storePrefix, root, id, path);
    hide OwnedByS3, WrittenByS3;
  }
}
